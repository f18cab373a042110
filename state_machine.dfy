/** The mood state machine (asciipal/state_machine.py): a strict priority
    chain picks the mood the activity calls for, and a cooldown keeps the
    character from switching moods too often. The clock is passed in. */
module StateMachine {
  import opened Wrappers
  import C = Config
  import ActivityTracker

  datatype Mood = Idle | Sleeping | Watching | Excited | Dizzy | Alarmed | Cheering | Sweating
  {
    /** The state string the rest of the widget keys its art and colours by. */
    function Name(): string
    {
      match this
      case Idle => "idle"
      case Sleeping => "sleeping"
      case Watching => "watching"
      case Excited => "excited"
      case Dizzy => "dizzy"
      case Alarmed => "alarmed"
      case Cheering => "cheering"
      case Sweating => "sweating"
    }
  }

  datatype TransitionResult = TransitionResult(state: Mood, changed: bool)

  /** `_derive_target_state`: the first rule that applies decides. */
  function DeriveTarget(c: C.Config, snap: ActivityTracker.ActivitySnapshot, sweating: bool): (m: Mood)
    ensures m == Sweating ==> sweating
    ensures snap.secondsSinceInput >= c.sleepTimeoutSeconds as real ==> m == Sleeping
  {
    if snap.secondsSinceInput >= c.sleepTimeoutSeconds as real then Sleeping
    else if snap.secondsSinceInput >= c.idleTimeoutSeconds as real then Idle
    else if snap.clickRate >= c.rageClickThreshold as real then Alarmed
    else if snap.mouseSpeed >= c.dizzyMouseSpeed then Dizzy
    else if sweating then Sweating
    else if snap.typingWpm >= c.typingFastWpm as real then Excited
    else if snap.totalActiveSeconds >= (c.cheeringAfterMinutes * 60) as real then Cheering
    else if snap.typingWpm > 1.0 || snap.mouseSpeed > 10.0 then Watching
    else Idle
  }

  /** The conditions, one per priority level, in the order they are tried. */
  predicate SleepRule(c: C.Config, snap: ActivityTracker.ActivitySnapshot)
  {
    snap.secondsSinceInput >= c.sleepTimeoutSeconds as real
  }

  predicate IdleRule(c: C.Config, snap: ActivityTracker.ActivitySnapshot)
  {
    snap.secondsSinceInput >= c.idleTimeoutSeconds as real
  }

  predicate RageRule(c: C.Config, snap: ActivityTracker.ActivitySnapshot)
  {
    snap.clickRate >= c.rageClickThreshold as real
  }

  predicate DizzyRule(c: C.Config, snap: ActivityTracker.ActivitySnapshot)
  {
    snap.mouseSpeed >= c.dizzyMouseSpeed
  }

  predicate FastRule(c: C.Config, snap: ActivityTracker.ActivitySnapshot)
  {
    snap.typingWpm >= c.typingFastWpm as real
  }

  predicate CheerRule(c: C.Config, snap: ActivityTracker.ActivitySnapshot)
  {
    snap.totalActiveSeconds >= (c.cheeringAfterMinutes * 60) as real
  }

  predicate BusyRule(snap: ActivityTracker.ActivitySnapshot)
  {
    snap.typingWpm > 1.0 || snap.mouseSpeed > 10.0
  }

  /** Each mood is chosen exactly when its rule holds and no rule above it does:
      sleeping > idle > alarmed > dizzy > sweating > excited > cheering > watching > idle. */
  lemma TargetPriority(c: C.Config, snap: ActivityTracker.ActivitySnapshot, sweating: bool)
    ensures DeriveTarget(c, snap, sweating) == Sleeping <==> SleepRule(c, snap)
    ensures DeriveTarget(c, snap, sweating) == Alarmed <==> (!SleepRule(c, snap) && !IdleRule(c, snap)
      && RageRule(c, snap))
    ensures DeriveTarget(c, snap, sweating) == Dizzy <==> (!SleepRule(c, snap) && !IdleRule(c, snap)
      && !RageRule(c, snap) && DizzyRule(c, snap))
    ensures DeriveTarget(c, snap, sweating) == Sweating <==> (!SleepRule(c, snap) && !IdleRule(c, snap)
      && !RageRule(c, snap) && !DizzyRule(c, snap) && sweating)
    ensures DeriveTarget(c, snap, sweating) == Excited <==> (!SleepRule(c, snap) && !IdleRule(c, snap)
      && !RageRule(c, snap) && !DizzyRule(c, snap) && !sweating && FastRule(c, snap))
    ensures DeriveTarget(c, snap, sweating) == Cheering <==> (!SleepRule(c, snap) && !IdleRule(c, snap)
      && !RageRule(c, snap) && !DizzyRule(c, snap) && !sweating && !FastRule(c, snap) && CheerRule(c, snap))
    ensures DeriveTarget(c, snap, sweating) == Watching <==> (!SleepRule(c, snap) && !IdleRule(c, snap)
      && !RageRule(c, snap) && !DizzyRule(c, snap) && !sweating && !FastRule(c, snap) && !CheerRule(c, snap)
      && BusyRule(snap))
    ensures DeriveTarget(c, snap, sweating) == Idle <==> (!SleepRule(c, snap) && (IdleRule(c, snap)
      || (!RageRule(c, snap) && !DizzyRule(c, snap) && !sweating && !FastRule(c, snap)
          && !CheerRule(c, snap) && !BusyRule(snap))))
  {
  }

  /** The part of the machine `update` changes. */
  datatype Machine = Machine(state: Mood, lastTransition: real)

  /** The cooldown check of `update`: a negative elapsed time counts as a full cooldown. */
  function Transition(m: Machine, cooldown: real, target: Mood, ts: real): (r: (Machine, bool))
    ensures r.1 <==> r.0.state != m.state
    ensures r.1 ==> r.0 == Machine(target, ts)
    ensures !r.1 ==> r.0 == m
    ensures r.1 <==> target != m.state && (ts - m.lastTransition < 0.0 || ts - m.lastTransition >= cooldown)
  {
    if target == m.state then (m, false)
    else
      var elapsed := if ts - m.lastTransition < 0.0 then cooldown else ts - m.lastTransition;
      if elapsed < cooldown then (m, false)
      else (Machine(target, ts), true)
  }

  /** Inside the cooldown nothing moves. */
  lemma CooldownBlocks(m: Machine, cooldown: real, target: Mood, ts: real)
    requires 0.0 <= ts - m.lastTransition < cooldown
    ensures Transition(m, cooldown, target, ts) == (m, false)
  {
  }

  /** A clock that went backwards does not hold a new target back. */
  lemma BackwardsClockAllows(m: Machine, cooldown: real, target: Mood, ts: real)
    requires ts < m.lastTransition && target != m.state
    ensures Transition(m, cooldown, target, ts) == (Machine(target, ts), true)
  {
  }

  /** A new machine adopts the first target that differs from idle at once. */
  lemma FirstTargetImmediate(start: real, cooldown: real, target: Mood, ts: real)
    requires ts >= start && target != Idle
    ensures Transition(Machine(Idle, start - cooldown), cooldown, target, ts) == (Machine(target, ts), true)
  {
  }

  class StateMachine {
    const config: C.Config
    const cooldownSeconds: real
    var state: Mood
    var lastTransition: real
    var sweating: bool

    /** A machine in the idle mood whose cooldown has already run out at `start`;
        `cooldown` is the optional override, the configured cooldown otherwise. */
    constructor(config: C.Config, cooldown: Option<real>, start: real)
      ensures this.config == config
      ensures cooldownSeconds == if cooldown.Some? then cooldown.value else config.stateCooldownSeconds
      ensures state == Idle && lastTransition == start - cooldownSeconds && !sweating
    {
      this.config := config;
      cooldownSeconds := if cooldown.Some? then cooldown.value else config.stateCooldownSeconds;
      state := Idle;
      lastTransition := start - (if cooldown.Some? then cooldown.value else config.stateCooldownSeconds);
      sweating := false;
    }

    /** `set_sweating(val)`. */
    method SetSweating(val: bool)
      modifies this
      ensures sweating == val && state == old(state) && lastTransition == old(lastTransition)
    {
      sweating := val;
    }

    /** `update(snapshot, ts)`. */
    method Update(snap: ActivityTracker.ActivitySnapshot, ts: real) returns (result: TransitionResult)
      modifies this
      ensures var r := Transition(old(Machine(state, lastTransition)), cooldownSeconds,
          DeriveTarget(config, snap, sweating), ts);
        Machine(state, lastTransition) == r.0 && result == TransitionResult(state, r.1)
      ensures sweating == old(sweating)
    {
      var target := DeriveTarget(config, snap, sweating);
      if target == state {
        return TransitionResult(state, false);
      }
      var elapsed := ts - lastTransition;
      if elapsed < 0.0 {
        elapsed := cooldownSeconds;
      }
      if elapsed < cooldownSeconds {
        return TransitionResult(state, false);
      }
      state := target;
      lastTransition := ts;
      return TransitionResult(state, true);
    }

    /** `force_state(mood, ts)`: adopt the mood now, whatever the cooldown. */
    method ForceState(mood: Mood, ts: real)
      modifies this
      ensures state == mood && lastTransition == ts && sweating == old(sweating)
    {
      state := mood;
      lastTransition := ts;
    }
  }
}
