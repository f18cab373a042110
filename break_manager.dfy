/** The break-reminder timer (asciipal/break_manager.py): a working period
    that escalates from suggestion to insistence to tantrum once overdue, a
    break that starts when an overdue user goes idle, and the count of breaks
    completed. The clock is passed in. */
module BreakManager {
  import opened Wrappers
  import C = Config
  import ActivityTracker

  datatype Stage = NoStage | Suggestion | Insistence | Tantrum | OnBreak
  {
    /** The stage string the status carries. */
    function Name(): string
    {
      match this
      case NoStage => "none"
      case Suggestion => "suggestion"
      case Insistence => "insistence"
      case Tantrum => "tantrum"
      case OnBreak => "on_break"
    }
  }

  datatype BreakStatus = BreakStatus(
    shouldBreak: bool,
    stage: Stage,
    secondsUntilBreak: real,
    breakSecondsRemaining: real)

  /** `_interval_seconds`: the working period in seconds. */
  function IntervalSeconds(c: C.Config): (r: real)
    ensures r == (if c.pomodoroMode then c.pomodoroWorkMinutes else c.breakIntervalMinutes) as real * 60.0
    ensures C.WellFormed(c) ==> r >= 60.0
  {
    if c.pomodoroMode then (c.pomodoroWorkMinutes * 60) as real else (c.breakIntervalMinutes * 60) as real
  }

  /** `_break_duration_seconds`: the break length in seconds. */
  function BreakDurationSeconds(c: C.Config): (r: real)
    ensures r == (if c.pomodoroMode then c.pomodoroBreakMinutes else c.breakDurationMinutes) as real * 60.0
    ensures C.WellFormed(c) ==> r >= 60.0
  {
    if c.pomodoroMode then (c.pomodoroBreakMinutes * 60) as real else (c.breakDurationMinutes * 60) as real
  }

  /** The fields `update` reads and writes. */
  datatype BreakState = BreakState(
    onBreak: bool,
    lastBreakStarted: Option<real>,
    activeStart: real,
    breaksTaken: nat,
    totalBreakSeconds: real)

  /** A break in progress always has a start time (the source asserts it). */
  predicate Consistent(s: BreakState)
  {
    s.onBreak ==> s.lastBreakStarted.Some?
  }

  /** `update(snapshot, ts)` on the state `s`, for a user idle for `idleFor` seconds:
      the new state and the status returned. */
  function Step(s: BreakState, c: C.Config, idleFor: real, ts: real): (r: (BreakState, BreakStatus))
    requires Consistent(s)
    ensures Consistent(r.0)
    ensures r.0.breaksTaken >= s.breaksTaken
    ensures r.1.shouldBreak ==> !s.onBreak && !r.0.onBreak && r.0 == s
  {
    var interval := IntervalSeconds(c);
    var duration := BreakDurationSeconds(c);
    if s.onBreak then
      var elapsed := ts - s.lastBreakStarted.value;
      if elapsed >= duration then
        (s.(breaksTaken := s.breaksTaken + 1, totalBreakSeconds := s.totalBreakSeconds + duration,
            onBreak := false, activeStart := ts),
         BreakStatus(false, NoStage, interval, 0.0))
      else
        var remaining := if duration - elapsed > 0.0 then duration - elapsed else 0.0;
        (s, BreakStatus(false, OnBreak, interval, remaining))
    else
      var remaining := interval - (ts - s.activeStart);
      var idle := idleFor >= c.idleTimeoutSeconds as real;
      if remaining <= 0.0 && idle then
        (s.(onBreak := true, lastBreakStarted := Some(ts)), BreakStatus(false, OnBreak, interval, duration))
      else if idle && !c.pomodoroMode then
        (s.(activeStart := ts), BreakStatus(false, NoStage, interval, 0.0))
      else if remaining > 0.0 then
        (s, BreakStatus(false, if remaining <= 300.0 then Suggestion else NoStage, remaining, 0.0))
      else
        var overtime := -remaining;
        var stage := if overtime < 120.0 then Suggestion else if overtime < 300.0 then Insistence else Tantrum;
        (s, BreakStatus(true, stage, 0.0, 0.0))
  }

  /** Finishing a break counts it once, adds its full length, and restarts work at `ts`. */
  lemma FinishBreak(s: BreakState, c: C.Config, idleFor: real, ts: real)
    requires s.onBreak && s.lastBreakStarted.Some?
    requires ts - s.lastBreakStarted.value >= BreakDurationSeconds(c)
    ensures Step(s, c, idleFor, ts).0 == BreakState(false, s.lastBreakStarted, ts,
      s.breaksTaken + 1, s.totalBreakSeconds + BreakDurationSeconds(c))
    ensures Step(s, c, idleFor, ts).1 == BreakStatus(false, NoStage, IntervalSeconds(c), 0.0)
  {
  }

  /** An unfinished break changes nothing and reports what is left of it. */
  lemma DuringBreak(s: BreakState, c: C.Config, idleFor: real, ts: real)
    requires s.onBreak && s.lastBreakStarted.Some?
    requires ts - s.lastBreakStarted.value < BreakDurationSeconds(c)
    ensures Step(s, c, idleFor, ts).0 == s
    ensures Step(s, c, idleFor, ts).1.stage == OnBreak && !Step(s, c, idleFor, ts).1.shouldBreak
    ensures Step(s, c, idleFor, ts).1.breakSecondsRemaining > 0.0
    ensures ts >= s.lastBreakStarted.value
      ==> Step(s, c, idleFor, ts).1.breakSecondsRemaining <= BreakDurationSeconds(c)
  {
  }

  /** An overdue user who goes idle starts a break with its full length remaining. */
  lemma OverdueIdleStartsBreak(s: BreakState, c: C.Config, idleFor: real, ts: real)
    requires !s.onBreak
    requires IntervalSeconds(c) - (ts - s.activeStart) <= 0.0
    requires idleFor >= c.idleTimeoutSeconds as real
    ensures Step(s, c, idleFor, ts).0 == s.(onBreak := true, lastBreakStarted := Some(ts))
    ensures Step(s, c, idleFor, ts).1
      == BreakStatus(false, OnBreak, IntervalSeconds(c), BreakDurationSeconds(c))
  {
  }

  /** Outside pomodoro mode, going idle before the break is due restarts the work period. */
  lemma IdleResetsTimer(s: BreakState, c: C.Config, idleFor: real, ts: real)
    requires !s.onBreak && !c.pomodoroMode
    requires IntervalSeconds(c) - (ts - s.activeStart) > 0.0
    requires idleFor >= c.idleTimeoutSeconds as real
    ensures Step(s, c, idleFor, ts).0 == s.(activeStart := ts)
    ensures Step(s, c, idleFor, ts).1.stage == NoStage && !Step(s, c, idleFor, ts).1.shouldBreak
  {
  }

  /** Before the break is due (and without an idle reset) nothing changes; the
      stage is a suggestion exactly in the last five minutes. */
  lemma NotYetDue(s: BreakState, c: C.Config, idleFor: real, ts: real)
    requires !s.onBreak
    requires IntervalSeconds(c) - (ts - s.activeStart) > 0.0
    requires idleFor < c.idleTimeoutSeconds as real || c.pomodoroMode
    ensures Step(s, c, idleFor, ts).0 == s
    ensures !Step(s, c, idleFor, ts).1.shouldBreak
    ensures Step(s, c, idleFor, ts).1.secondsUntilBreak == IntervalSeconds(c) - (ts - s.activeStart)
    ensures Step(s, c, idleFor, ts).1.stage == Suggestion <==> IntervalSeconds(c) - (ts - s.activeStart) <= 300.0
    ensures Step(s, c, idleFor, ts).1.stage in {Suggestion, NoStage}
  {
  }

  /** Once overdue and active, the break is demanded, escalating with overtime. */
  lemma OverdueEscalates(s: BreakState, c: C.Config, idleFor: real, ts: real)
    requires !s.onBreak
    requires IntervalSeconds(c) - (ts - s.activeStart) <= 0.0
    requires idleFor < c.idleTimeoutSeconds as real
    ensures Step(s, c, idleFor, ts).0 == s
    ensures Step(s, c, idleFor, ts).1.shouldBreak
    ensures var overtime := (ts - s.activeStart) - IntervalSeconds(c);
      Step(s, c, idleFor, ts).1.stage
        == if overtime < 120.0 then Suggestion else if overtime < 300.0 then Insistence else Tantrum
  {
  }

  /** Every completed break has been counted with the configured length. */
  predicate Accounted(s: BreakState, c: C.Config)
  {
    s.totalBreakSeconds == s.breaksTaken as real * BreakDurationSeconds(c)
  }

  lemma StepKeepsAccounted(s: BreakState, c: C.Config, idleFor: real, ts: real)
    requires Consistent(s) && Accounted(s, c)
    ensures Accounted(Step(s, c, idleFor, ts).0, c)
  {
    var d := BreakDurationSeconds(c);
    assert (s.breaksTaken + 1) as real * d == s.breaksTaken as real * d + d;
  }

  /** A sequence of `update` calls, each with its idle time and clock reading. */
  function Run(s: BreakState, c: C.Config, ticks: seq<(real, real)>): (r: BreakState)
    requires Consistent(s)
    ensures Consistent(r)
    ensures r.breaksTaken >= s.breaksTaken
    decreases |ticks|
  {
    if |ticks| == 0 then s else Run(Step(s, c, ticks[0].0, ticks[0].1).0, c, ticks[1..])
  }

  /** Over any run of updates with one configuration, the total break time is
      the number of breaks times the break length. */
  lemma {:induction false} RunKeepsAccounted(s: BreakState, c: C.Config, ticks: seq<(real, real)>)
    requires Consistent(s) && Accounted(s, c)
    ensures Accounted(Run(s, c, ticks), c)
    decreases |ticks|
  {
    if |ticks| > 0 {
      StepKeepsAccounted(s, c, ticks[0].0, ticks[0].1);
      RunKeepsAccounted(Step(s, c, ticks[0].0, ticks[0].1).0, c, ticks[1..]);
    }
  }

  class BreakManager {
    const config: C.Config
    var lastBreakStarted: Option<real>
    var activeStart: real
    var onBreak: bool
    var breaksTaken: nat
    var totalBreakSeconds: real

    function State(): BreakState
      reads this
    {
      BreakState(onBreak, lastBreakStarted, activeStart, breaksTaken, totalBreakSeconds)
    }

    predicate Valid()
      reads this
    {
      Consistent(State()) && Accounted(State(), config)
    }

    /** A new manager: working since `start`, no breaks yet. */
    constructor(config: C.Config, start: real)
      ensures Valid()
      ensures this.config == config
      ensures State() == BreakState(false, None, start, 0, 0.0)
    {
      this.config := config;
      lastBreakStarted := None;
      activeStart := start;
      onBreak := false;
      breaksTaken := 0;
      totalBreakSeconds := 0.0;
    }

    /** `update(snapshot, ts)`. */
    method Update(snapshot: ActivityTracker.ActivitySnapshot, ts: real) returns (status: BreakStatus)
      requires Valid()
      modifies this
      ensures Valid()
      ensures State() == Step(old(State()), config, snapshot.secondsSinceInput, ts).0
      ensures status == Step(old(State()), config, snapshot.secondsSinceInput, ts).1
    {
      StepKeepsAccounted(State(), config, snapshot.secondsSinceInput, ts);
      var interval := IntervalSeconds(config);
      var duration := BreakDurationSeconds(config);
      if onBreak {
        var elapsedBreak := ts - lastBreakStarted.value;
        if elapsedBreak >= duration {
          breaksTaken := breaksTaken + 1;
          totalBreakSeconds := totalBreakSeconds + duration;
          onBreak := false;
          activeStart := ts;
          return BreakStatus(false, NoStage, interval, 0.0);
        }
        var remainingBreak := if duration - elapsedBreak > 0.0 then duration - elapsedBreak else 0.0;
        return BreakStatus(false, OnBreak, interval, remainingBreak);
      }
      var activeElapsed := ts - activeStart;
      var remaining := interval - activeElapsed;
      var isIdle := snapshot.secondsSinceInput >= config.idleTimeoutSeconds as real;
      if remaining <= 0.0 && isIdle {
        StartBreak(ts);
        return BreakStatus(false, OnBreak, interval, duration);
      }
      if isIdle && !config.pomodoroMode {
        activeStart := ts;
        return BreakStatus(false, NoStage, interval, 0.0);
      }
      if remaining > 0.0 {
        var stage := if remaining <= 5.0 * 60.0 then Suggestion else NoStage;
        return BreakStatus(false, stage, remaining, 0.0);
      }
      var overtime := -remaining;
      var stage;
      if overtime < 2.0 * 60.0 {
        stage := Suggestion;
      } else if overtime < 5.0 * 60.0 {
        stage := Insistence;
      } else {
        stage := Tantrum;
      }
      return BreakStatus(true, stage, 0.0, 0.0);
    }

    /** `start_break(ts)`. */
    method StartBreak(ts: real)
      requires Valid()
      modifies this
      ensures Valid()
      ensures State() == old(State()).(onBreak := true, lastBreakStarted := Some(ts))
    {
      onBreak := true;
      lastBreakStarted := Some(ts);
    }

    /** `force_break(ts)`: start a break unless one is already running. */
    method ForceBreak(ts: real)
      requires Valid()
      modifies this
      ensures Valid()
      ensures old(onBreak) ==> State() == old(State())
      ensures !old(onBreak) ==> State() == old(State()).(onBreak := true, lastBreakStarted := Some(ts))
    {
      if !onBreak {
        StartBreak(ts);
      }
    }

    /** `skip_break(ts)`: end any break without counting it and restart work at `ts`. */
    method SkipBreak(ts: real)
      requires Valid()
      modifies this
      ensures Valid()
      ensures State() == old(State()).(onBreak := false, activeStart := ts)
    {
      onBreak := false;
      activeStart := ts;
    }
  }
}
