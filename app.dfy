/** The pure decisions and counters of the application loop
    (asciipal/app.py): how a break status changes the mood shown and the
    status line, the animation counter advanced by every tick, the scripted
    input of demo mode, the de-duplicated status line of headless mode and a
    shutdown that runs once. The clock, printing and the GUI are outside the
    model: times come in as parameters and a printed line is returned. */
module App {
  import opened Wrappers
  import Text
  import C = Config
  import BM = BreakManager
  import AT = ActivityTracker
  import SM = StateMachine

  // ---------------------------------------------------------------------
  // _render_status
  // ---------------------------------------------------------------------

  /** `int((seconds + 59) // 60)`: Python's floor division of a float, so the
      whole number of minutes, rounding a partial minute up. */
  function MinutesLeft(seconds: real): int
  {
    ((seconds + 59.0) / 60.0).Floor
  }

  /** For a whole number of seconds the count is the ceiling of seconds/60:
      the fewest minutes that cover them. */
  lemma MinutesLeftIsCeiling(seconds: int)
    ensures var m := MinutesLeft(seconds as real); (m - 1) * 60 < seconds <= m * 60
    ensures seconds >= 0 ==> MinutesLeft(seconds as real) >= 0
  {
    var m := MinutesLeft(seconds as real);
    assert m as real <= (seconds as real + 59.0) / 60.0 < m as real + 1.0;
    assert (m * 60) as real <= seconds as real + 59.0;
    assert seconds as real + 59.0 < (m * 60 + 60) as real;
  }

  /** `_render_status(current_state, status)`: the mood to draw and the
      break line under the character, for the configured notification level. */
  function RenderStatus(mode: string, currentState: string, status: BM.BreakStatus): (r: (string, string))
    ensures r.0 == currentState || r.0 in {"sleeping", "alarmed", "watching"}
    ensures mode == "silent" ==> r == (currentState, "")
  {
    if mode == "silent" then (currentState, "")
    else if status.stage == BM.OnBreak then
      if mode == "verbose" then
        ("sleeping", "Break: resting (" + Text.IntToString(MinutesLeft(status.breakSecondsRemaining)) + "m left)")
      else ("sleeping", "Break: resting")
    else if status.shouldBreak then
      var state := if status.stage == BM.Insistence || status.stage == BM.Tantrum then "alarmed" else "watching";
      if mode == "verbose" then (state, "Break: " + status.stage.Name() + " (due now)")
      else (state, "Break: " + status.stage.Name())
    else if mode == "verbose" && status.stage == BM.Suggestion then
      (currentState, "Break soon: " + Text.IntToString(MinutesLeft(status.secondsUntilBreak)) + "m")
    else (currentState, "")
  }

  /** A break in progress always shows the sleeping face, outside silent mode. */
  lemma OnBreakSleeps(mode: string, currentState: string, status: BM.BreakStatus)
    requires mode != "silent" && status.stage == BM.OnBreak
    ensures RenderStatus(mode, currentState, status).0 == "sleeping"
    ensures mode == "verbose" ==> (RenderStatus(mode, currentState, status).1
      == "Break: resting (" + Text.IntToString(MinutesLeft(status.breakSecondsRemaining)) + "m left)")
    ensures mode != "verbose" ==> RenderStatus(mode, currentState, status).1 == "Break: resting"
  {
  }

  /** A due break alarms the character exactly at the insistence and tantrum
      stages, and the line names the stage. */
  lemma DueBreakAlarms(mode: string, currentState: string, status: BM.BreakStatus)
    requires mode != "silent" && status.stage != BM.OnBreak && status.shouldBreak
    ensures var r := RenderStatus(mode, currentState, status);
      && (r.0 == "alarmed" <==> status.stage in {BM.Insistence, BM.Tantrum})
      && (r.0 == "watching" <==> status.stage !in {BM.Insistence, BM.Tantrum})
      && r.1 == "Break: " + status.stage.Name() + (if mode == "verbose" then " (due now)" else "")
  {
  }

  /** With no break due, the mood passes through; only a verbose suggestion
      adds a countdown line. */
  lemma NotDuePassesThrough(mode: string, currentState: string, status: BM.BreakStatus)
    requires status.stage != BM.OnBreak && !status.shouldBreak
    ensures RenderStatus(mode, currentState, status).0 == currentState
    ensures RenderStatus(mode, currentState, status).1 != "" <==> mode == "verbose" && status.stage == BM.Suggestion
  {
    if mode == "verbose" && status.stage == BM.Suggestion {
      var line := RenderStatus(mode, currentState, status).1;
      assert line[0] == 'B';
    }
  }

  // ---------------------------------------------------------------------
  // The animation counter of tick
  // ---------------------------------------------------------------------

  /** One tick of `(_anim_frame, _anim_tick_counter)`: a mood change restarts
      the animation, and the frame moves on every third tick. */
  function AnimStep(frame: nat, counter: nat, changed: bool): (r: (nat, nat))
  {
    var (f, k) := if changed then (0, 0) else (frame, counter);
    if k + 1 >= 3 then (f + 1, 0) else (f, k + 1)
  }

  /** The counter stays in [0, 2]; a mood change puts the animation back at
      its first frame with one tick counted. */
  lemma AnimStepBounds(frame: nat, counter: nat, changed: bool)
    requires counter <= 2
    ensures AnimStep(frame, counter, changed).1 <= 2
    ensures changed ==> AnimStep(frame, counter, changed) == (0, 1)
    ensures !changed ==> AnimStep(frame, counter, changed).0 == frame + (if counter == 2 then 1 else 0)
  {
  }

  /** `n` ticks without a mood change. */
  function AnimRun(frame: nat, counter: nat, n: nat): (nat, nat)
  {
    if n == 0 then (frame, counter)
    else var r := AnimRun(frame, counter, n - 1); AnimStep(r.0, r.1, false)
  }

  /** From a fresh counter, the frame advances exactly once every three
      ticks: after `n` ticks it is `n / 3` frames on, with `n % 3` ticks counted. */
  lemma {:induction false} AnimEveryThirdTick(frame: nat, n: nat)
    ensures AnimRun(frame, 0, n) == (frame + n / 3, n % 3)
  {
    if n > 0 {
      AnimEveryThirdTick(frame, n - 1);
      var m := n - 1;
      assert m == 3 * (m / 3) + m % 3;
      if m % 3 == 2 {
        assert n == 3 * (m / 3 + 1);
        assert n / 3 == m / 3 + 1 && n % 3 == 0;
      } else {
        assert n == 3 * (m / 3) + (m % 3 + 1);
        assert n / 3 == m / 3 && n % 3 == m % 3 + 1;
      }
    }
  }

  // ---------------------------------------------------------------------
  // The scripted input of demo mode
  // ---------------------------------------------------------------------

  datatype DemoAction = Pause | Keypress | MouseMove | DoubleClick

  /** What `_simulate_input` does on demo tick `ticks`: an 80-tick cycle of
      a pause, slow typing (even ticks only), fast typing, mouse movement,
      clicking in pairs and another pause. */
  function DemoActionAt(ticks: int): (a: DemoAction)
  {
    var phase := ticks % 80;
    if phase < 12 then Pause
    else if phase < 28 then (if ticks % 2 == 0 then Keypress else Pause)
    else if phase < 44 then Keypress
    else if phase < 56 then MouseMove
    else if phase < 68 then DoubleClick
    else Pause
  }

  /** The script repeats every 80 ticks. */
  lemma DemoCycle(ticks: int)
    ensures DemoActionAt(ticks + 80) == DemoActionAt(ticks)
  {
    assert (ticks + 80) % 80 == ticks % 80;
    assert (ticks + 80) % 2 == ticks % 2;
  }

  /** The phases of the cycle, one lemma-stated fact per phase. */
  lemma DemoPhases(ticks: int)
    ensures ticks % 80 < 12 || ticks % 80 >= 68 ==> DemoActionAt(ticks) == Pause
    ensures 12 <= ticks % 80 < 28 ==> (DemoActionAt(ticks) == Keypress <==> ticks % 2 == 0)
    ensures 28 <= ticks % 80 < 44 ==> DemoActionAt(ticks) == Keypress
    ensures 44 <= ticks % 80 < 56 ==> DemoActionAt(ticks) == MouseMove
    ensures 56 <= ticks % 80 < 68 ==> DemoActionAt(ticks) == DoubleClick
  {
  }

  /** How many key presses, clicks and mouse moves the action records. */
  function KeysOf(a: DemoAction): nat { if a == Keypress then 1 else 0 }
  function ClicksOf(a: DemoAction): nat { if a == DoubleClick then 2 else 0 }
  function MovesOf(a: DemoAction): nat { if a == MouseMove then 1 else 0 }

  /** The tracker's three queues: key presses, clicks and mouse samples. */
  datatype Queues = Queues(keys: seq<real>, clicks: seq<real>, samples: seq<AT.MouseSample>)

  /** `_prune` of every queue at one cutoff. */
  function PruneAll(q: Queues, cutoff: real): Queues
  {
    Queues(AT.DropBefore(q.keys, AT.KeyTime, cutoff), AT.DropBefore(q.clicks, AT.KeyTime, cutoff),
           AT.DropBefore(q.samples, AT.SampleTime, cutoff))
  }

  /** The queues after the tick's scripted input is recorded at `now`: each
      `record_*` call appends its entry and then prunes all three queues. */
  function Recorded(q: Queues, a: DemoAction, now: real, window: real, distance: real): Queues
  {
    var cutoff := now - window;
    match a
    case Pause => q
    case Keypress => PruneAll(q.(keys := q.keys + [now]), cutoff)
    case MouseMove => PruneAll(q.(samples := q.samples + [AT.MouseSample(now, distance)]), cutoff)
    case DoubleClick =>
      var once := PruneAll(q.(clicks := q.clicks + [now]), cutoff);
      PruneAll(once.(clicks := once.clicks + [now]), cutoff)
  }

  /** Every recording prunes the queues to the window and keeps the new
      entries, which are never stale: a key press leaves its time last in the
      key queue, a mouse move its sample, and the paired clicks two entries. */
  lemma RecordedKeepsNewEntries(q: Queues, a: DemoAction, now: real, window: real, distance: real)
    requires window > 0.0 && a != Pause
    ensures var r := Recorded(q, a, now, window, distance);
      var p := PruneAll(q, now - window);
      && r.keys == p.keys + (if a == Keypress then [now] else [])
      && r.clicks == p.clicks + (if a == DoubleClick then [now, now] else [])
      && r.samples == p.samples + (if a == MouseMove then [AT.MouseSample(now, distance)] else [])
  {
    var cutoff := now - window;
    match a
    case Keypress =>
      AT.AppendInWindow(q.keys, AT.KeyTime, now, cutoff);
    case MouseMove =>
      AT.AppendInWindow(q.samples, AT.SampleTime, AT.MouseSample(now, distance), cutoff);
    case DoubleClick =>
      var first := AT.DropBefore(q.clicks + [now], AT.KeyTime, cutoff);
      AT.AppendInWindow(q.clicks, AT.KeyTime, now, cutoff);
      AT.AppendInWindow(first, AT.KeyTime, now, cutoff);
      assert first + [now] == AT.DropBefore(q.clicks, AT.KeyTime, cutoff) + [now, now];
      AT.DropBeforeIdempotent(q.keys, AT.KeyTime, cutoff);
      AT.DropBeforeIdempotent(q.samples, AT.SampleTime, cutoff);
  }

  /** The tracker calls one tick of the script makes: none on a pause, one
      `record_keypress` or `record_mouse_move`, or two `record_click`s. */
  method Perform(t: AT.ActivityTracker, a: DemoAction, now: real, moveDistance: real)
    requires t.Valid() && moveDistance >= 0.0
    modifies t
    ensures t.Valid()
    ensures t.totalKeypresses == old(t.totalKeypresses) + KeysOf(a)
    ensures t.totalClicks == old(t.totalClicks) + ClicksOf(a)
    ensures t.totalMouseDistance == old(t.totalMouseDistance) + MovesOf(a) as real * moveDistance
    ensures t.lastInputTime == (if a == Pause then old(t.lastInputTime) else now)
    ensures Queues(t.keyEvents, t.clickEvents, t.mouseSamples)
      == Recorded(Queues(old(t.keyEvents), old(t.clickEvents), old(t.mouseSamples)),
                  a, now, t.windowSeconds, moveDistance)
  {
    match a
    case Pause =>
    case Keypress =>
      t.RecordKeypress(now);
    case MouseMove =>
      t.RecordMouseMove(moveDistance, now);
    case DoubleClick =>
      t.RecordClick(now);
      t.RecordClick(now);
  }

  // ---------------------------------------------------------------------
  // The application's counters
  // ---------------------------------------------------------------------

  class AsciiPalApp {
    const mode: string
    const tracker: AT.ActivityTracker
    var running: bool
    var shutdownDone: bool
    var lastHeadlessLine: string
    var demoTicks: nat
    var demoTime: real
    var animFrame: nat
    var animTickCounter: nat

    predicate Valid()
      reads this, tracker
    {
      animTickCounter <= 2 && tracker.Valid()
    }

    /** A new application at time `start`, with a fresh activity tracker
        (ten-second window) and the counters at zero. */
    constructor(config: C.Config, start: real)
      ensures Valid() && fresh(tracker)
      ensures mode == config.notifications
      ensures running && !shutdownDone && lastHeadlessLine == ""
      ensures demoTicks == 0 && demoTime == start && animFrame == 0 && animTickCounter == 0
      ensures tracker.totalKeypresses == 0 && tracker.totalClicks == 0
    {
      mode := config.notifications;
      tracker := new AT.ActivityTracker(10.0, start);
      running := true;
      shutdownDone := false;
      lastHeadlessLine := "";
      demoTicks := 0;
      demoTime := start;
      animFrame := 0;
      animTickCounter := 0;
    }

    /** The animation part of `tick`, given whether the mood just changed. */
    method AdvanceAnimation(changed: bool)
      requires Valid()
      modifies this
      ensures Valid()
      ensures (animFrame, animTickCounter) == AnimStep(old(animFrame), old(animTickCounter), changed)
      ensures running == old(running) && demoTicks == old(demoTicks) && demoTime == old(demoTime)
      ensures lastHeadlessLine == old(lastHeadlessLine) && shutdownDone == old(shutdownDone)
    {
      if changed {
        animFrame := 0;
        animTickCounter := 0;
      }
      animTickCounter := animTickCounter + 1;
      if animTickCounter >= 3 {
        animTickCounter := 0;
        animFrame := animFrame + 1;
      }
    }

    /** `_simulate_input(now)`: the phase branches pick `DemoActionAt`, which
        `Perform` plays into the tracker; `moveDistance` is the length of the
        scripted (320, 280) mouse move, which the tracker records. */
    method SimulateInput(now: real, moveDistance: real)
      requires Valid() && moveDistance >= 0.0
      modifies this, tracker
      ensures Valid()
      ensures demoTicks == old(demoTicks) + 1 && demoTime == old(demoTime) + 5.0
      ensures var a := DemoActionAt(old(demoTicks));
        && tracker.totalKeypresses == old(tracker.totalKeypresses) + KeysOf(a)
        && tracker.totalClicks == old(tracker.totalClicks) + ClicksOf(a)
        && tracker.totalMouseDistance == old(tracker.totalMouseDistance) + MovesOf(a) as real * moveDistance
        && tracker.lastInputTime == (if a == Pause then old(tracker.lastInputTime) else now)
        && Queues(tracker.keyEvents, tracker.clickEvents, tracker.mouseSamples)
          == Recorded(Queues(old(tracker.keyEvents), old(tracker.clickEvents), old(tracker.mouseSamples)),
                      a, now, tracker.windowSeconds, moveDistance)
      ensures animFrame == old(animFrame) && animTickCounter == old(animTickCounter)
      ensures running == old(running) && shutdownDone == old(shutdownDone)
      ensures lastHeadlessLine == old(lastHeadlessLine)
    {
      Perform(tracker, DemoActionAt(demoTicks), now, moveDistance);
      demoTicks := demoTicks + 1;
      demoTime := demoTime + 5.0;
    }

    /** The headless branch of `tick`: the status line, returned when it
        differs from the last one printed and remembered as printed. */
    method ReportHeadless(state: string, breakLine: string) returns (printed: Option<string>)
      modifies this
      ensures lastHeadlessLine == HeadlessLine(state, breakLine)
      ensures printed.Some? <==> HeadlessLine(state, breakLine) != old(lastHeadlessLine)
      ensures printed.Some? ==> printed.value == HeadlessLine(state, breakLine)
      ensures running == old(running) && shutdownDone == old(shutdownDone)
      ensures demoTicks == old(demoTicks) && demoTime == old(demoTime)
      ensures animFrame == old(animFrame) && animTickCounter == old(animTickCounter)
    {
      var line := "State=" + state;
      if breakLine != "" {
        line := line + " " + breakLine;
      }
      if line != lastHeadlessLine {
        printed := Some(line);
        lastHeadlessLine := line;
      } else {
        printed := None;
      }
    }

    /** `shutdown`: the teardown runs on the first call only; `performed`
        says whether this call ran it. */
    method Shutdown() returns (performed: bool)
      modifies this
      ensures performed <==> !old(shutdownDone)
      ensures shutdownDone
      ensures performed ==> !running
      ensures !performed ==> running == old(running)
      ensures lastHeadlessLine == old(lastHeadlessLine)
      ensures demoTicks == old(demoTicks) && demoTime == old(demoTime)
      ensures animFrame == old(animFrame) && animTickCounter == old(animTickCounter)
    {
      if shutdownDone {
        return false;
      }
      shutdownDone := true;
      running := false;
      return true;
    }
  }

  /** The status line of headless mode. */
  function HeadlessLine(state: string, breakLine: string): (line: string)
    ensures |line| >= 6 + |state| && line[..6] == "State=" && line[6..6 + |state|] == state
    ensures breakLine == "" <==> |line| == 6 + |state|
  {
    "State=" + state + (if breakLine != "" then " " + breakLine else "")
  }

  /** A state without spaces and the break line are both read back from the
      line: the first space after the prefix ends the state. */
  lemma HeadlessLineInjective(state: string, breakLine: string, state': string, breakLine': string)
    requires ' ' !in state && ' ' !in state'
    requires HeadlessLine(state, breakLine) == HeadlessLine(state', breakLine')
    ensures state == state' && breakLine == breakLine'
  {
    var rest := HeadlessLine(state, breakLine)[6..];
    var tail := if breakLine != "" then " " + breakLine else "";
    var tail' := if breakLine' != "" then " " + breakLine' else "";
    assert rest == state + tail;
    assert rest == state' + tail';
    UpToSpaceOf(state, tail);
    UpToSpaceOf(state', tail');
    assert tail == rest[|state|..] == tail';
    if breakLine != "" && breakLine' != "" {
      assert breakLine == tail[1..] == breakLine';
    }
  }

  /** The text before the first space. */
  function UpToSpace(s: string): (r: string)
    ensures ' ' !in r
  {
    if s == [] || s[0] == ' ' then [] else [s[0]] + UpToSpace(s[1..])
  }

  lemma {:induction false} UpToSpaceOf(state: string, tail: string)
    requires ' ' !in state && (tail == [] || tail[0] == ' ')
    ensures UpToSpace(state + tail) == state
  {
    if state != [] {
      assert (state + tail)[1..] == state[1..] + tail;
      UpToSpaceOf(state[1..], tail);
    } else {
      assert state + tail == tail;
    }
  }

  /** No mood name holds a space, so distinct moods always print distinct lines. */
  lemma MoodLinesDistinct(m: SM.Mood, m': SM.Mood, breakLine: string, breakLine': string)
    requires m != m'
    ensures HeadlessLine(m.Name(), breakLine) != HeadlessLine(m'.Name(), breakLine')
  {
    assert ' ' !in m.Name() && ' ' !in m'.Name();
    if HeadlessLine(m.Name(), breakLine) == HeadlessLine(m'.Name(), breakLine') {
      HeadlessLineInjective(m.Name(), breakLine, m'.Name(), breakLine');
    }
  }

  /** Two reports of the same status in a row print once. */
  method ReportTwice(app: AsciiPalApp, state: string, breakLine: string) returns (second: Option<string>)
    modifies app
    ensures second.None?
  {
    var first := app.ReportHeadless(state, breakLine);
    second := app.ReportHeadless(state, breakLine);
  }

  /** Calling `shutdown` twice runs the teardown once. */
  method ShutdownTwice(app: AsciiPalApp) returns (first: bool, second: bool)
    modifies app
    ensures !second && app.shutdownDone
    ensures !old(app.shutdownDone) ==> first && !app.running
  {
    first := app.Shutdown();
    second := app.Shutdown();
  }
}
