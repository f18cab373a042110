/** The sliding-window activity tracker (asciipal/activity_tracker.py): three
    time-ordered queues of recent input, lifetime counters, and the rates the
    widget derives from what is still inside the window. The clock is a
    parameter; the mouse distance arrives already computed. */
module ActivityTracker {

  datatype ActivitySnapshot = ActivitySnapshot(
    typingWpm: real,
    clickRate: real,
    mouseSpeed: real,
    secondsSinceInput: real,
    totalActiveSeconds: real)

  datatype ActivityTotals = ActivityTotals(
    totalKeypresses: int,
    totalClicks: int,
    totalMouseDistance: real,
    totalActiveSeconds: real)

  /** One mouse sample: when it happened and how far the pointer moved. */
  datatype MouseSample = MouseSample(time: real, distance: real)

  function KeyTime(t: real): real { t }

  function SampleTime(m: MouseSample): real { m.time }

  /** `max(x, 0.0)`. */
  function NonNeg(x: real): (r: real)
    ensures r >= 0.0 && r >= x
    ensures x >= 0.0 ==> r == x
  {
    if x > 0.0 then x else 0.0
  }

  // ---------------------------------------------------------------------
  // _prune

  /** What `_prune` leaves of one queue: entries are popped from the front
      while the front one is older than `cutoff`. */
  function DropBefore<T>(s: seq<T>, stamp: T -> real, cutoff: real): (r: seq<T>)
    ensures |r| <= |s|
    ensures |r| > 0 ==> stamp(r[0]) >= cutoff
  {
    if |s| > 0 && stamp(s[0]) < cutoff then DropBefore(s[1..], stamp, cutoff) else s
  }

  /** Pruning removes a prefix of stale entries and keeps the rest in order. */
  lemma {:induction false} DropBeforeSuffix<T>(s: seq<T>, stamp: T -> real, cutoff: real)
    ensures DropBefore(s, stamp, cutoff) == s[|s| - |DropBefore(s, stamp, cutoff)|..]
    ensures forall i | 0 <= i < |s| - |DropBefore(s, stamp, cutoff)| :: stamp(s[i]) < cutoff
  {
    if |s| > 0 && stamp(s[0]) < cutoff {
      DropBeforeSuffix(s[1..], stamp, cutoff);
      var r := DropBefore(s[1..], stamp, cutoff);
      assert s[1..][|s| - 1 - |r|..] == s[|s| - |r|..];
      forall i | 0 <= i < |s| - |r|
        ensures stamp(s[i]) < cutoff
      {
        if i > 0 {
          assert s[i] == s[1..][i - 1];
        }
      }
    }
  }

  /** Pruning twice at the same cutoff is pruning once. */
  lemma DropBeforeIdempotent<T>(s: seq<T>, stamp: T -> real, cutoff: real)
    ensures DropBefore(DropBefore(s, stamp, cutoff), stamp, cutoff) == DropBefore(s, stamp, cutoff)
  {
  }

  /** An entry inside the window survives the pruning that follows its append. */
  lemma {:induction false} AppendInWindow<T>(s: seq<T>, stamp: T -> real, x: T, cutoff: real)
    requires stamp(x) >= cutoff
    ensures DropBefore(s + [x], stamp, cutoff) == DropBefore(s, stamp, cutoff) + [x]
  {
    if |s| > 0 && stamp(s[0]) < cutoff {
      assert (s + [x])[1..] == s[1..] + [x];
      AppendInWindow(s[1..], stamp, x, cutoff);
    }
  }

  /** Entries in nondecreasing time order. */
  predicate Sorted<T>(s: seq<T>, stamp: T -> real)
  {
    forall i, j | 0 <= i < j < |s| :: stamp(s[i]) <= stamp(s[j])
  }

  /** On a queue kept in time order, pruning leaves only entries inside the window. */
  lemma PrunedSortedInWindow<T>(s: seq<T>, stamp: T -> real, cutoff: real)
    requires Sorted(s, stamp)
    ensures Sorted(DropBefore(s, stamp, cutoff), stamp)
    ensures forall x | x in DropBefore(s, stamp, cutoff) :: stamp(x) >= cutoff
  {
    var r := DropBefore(s, stamp, cutoff);
    DropBeforeSuffix(s, stamp, cutoff);
    forall x | x in r
      ensures stamp(x) >= cutoff
    {
      var j :| 0 <= j < |r| && r[j] == x;
      assert r[j] == s[|s| - |r| + j] && r[0] == s[|s| - |r|];
    }
  }

  /** Appending an entry no older than the last one keeps a queue in order. */
  lemma AppendKeepsSorted<T>(s: seq<T>, stamp: T -> real, x: T)
    requires Sorted(s, stamp)
    requires |s| > 0 ==> stamp(s[|s| - 1]) <= stamp(x)
    ensures Sorted(s + [x], stamp)
  {
  }

  /** When timestamps arrive in order, a `record_*` call followed by `_prune`
      leaves its queue in order and wholly inside the window. */
  lemma RecordKeepsWindow<T>(s: seq<T>, stamp: T -> real, x: T, cutoff: real)
    requires Sorted(s, stamp)
    requires |s| > 0 ==> stamp(s[|s| - 1]) <= stamp(x)
    ensures Sorted(DropBefore(s + [x], stamp, cutoff), stamp)
    ensures forall y | y in DropBefore(s + [x], stamp, cutoff) :: stamp(y) >= cutoff
  {
    AppendKeepsSorted(s, stamp, x);
    PrunedSortedInWindow(s + [x], stamp, cutoff);
  }

  // ---------------------------------------------------------------------
  // Rates

  /** `min(window_seconds, max(now - first, 0.001))`. */
  function EffectiveWindow(window: real, now: real, first: real): (w: real)
    requires window > 0.0
    ensures 0.0 < w <= window
    ensures w == window || w == 0.001 || w == now - first
  {
    var span := if now - first > 0.001 then now - first else 0.001;
    if window < span then window else span
  }

  /** `_typing_wpm`: keystrokes per minute over the window, divided by five. */
  function TypingWpm(keys: seq<real>, window: real, now: real): (r: real)
    requires window > 0.0
    ensures |keys| == 0 ==> r == 0.0
    ensures |keys| > 0 ==> r * EffectiveWindow(window, now, keys[0]) * 5.0 == |keys| as real * 60.0
    ensures r >= 0.0
    ensures r >= |keys| as real * 12.0 / window
  {
    if |keys| == 0 then 0.0
    else
      var w := EffectiveWindow(window, now, keys[0]);
      RateBound(|keys| as real * 12.0, w, window);
      |keys| as real * 60.0 / w / 5.0
  }

  /** `_click_rate`: clicks per second over the window. */
  function ClickRate(clicks: seq<real>, window: real, now: real): (r: real)
    requires window > 0.0
    ensures |clicks| == 0 ==> r == 0.0
    ensures |clicks| > 0 ==> r * EffectiveWindow(window, now, clicks[0]) == |clicks| as real
    ensures r >= |clicks| as real / window
  {
    if |clicks| == 0 then 0.0
    else
      var w := EffectiveWindow(window, now, clicks[0]);
      RateBound(|clicks| as real, w, window);
      |clicks| as real / w
  }

  /** The distance covered by the samples. */
  function SumDistances(samples: seq<MouseSample>): real
  {
    if |samples| == 0 then 0.0 else samples[0].distance + SumDistances(samples[1..])
  }

  predicate DistancesNonNeg(samples: seq<MouseSample>)
  {
    forall i | 0 <= i < |samples| :: samples[i].distance >= 0.0
  }

  /** A suffix of samples with non-negative distances covers no more than the whole. */
  lemma {:induction false} SumSuffixAtMost(samples: seq<MouseSample>, k: nat)
    requires DistancesNonNeg(samples) && k <= |samples|
    ensures 0.0 <= SumDistances(samples[k..]) <= SumDistances(samples)
  {
    if k == 0 {
      assert samples[k..] == samples;
      if |samples| > 0 {
        SumSuffixAtMost(samples[1..], 0);
        assert samples[1..][0..] == samples[1..];
      }
    } else {
      SumSuffixAtMost(samples[1..], k - 1);
      assert samples[1..][k - 1..] == samples[k..];
    }
  }

  /** Appending a sample adds its distance to the sum. */
  lemma {:induction false} SumAppend(samples: seq<MouseSample>, m: MouseSample)
    ensures SumDistances(samples + [m]) == SumDistances(samples) + m.distance
  {
    if |samples| > 0 {
      SumAppend(samples[1..], m);
      assert (samples + [m])[1..] == samples[1..] + [m];
    }
  }

  /** `_mouse_speed`: distance per second over the window. */
  function MouseSpeed(samples: seq<MouseSample>, window: real, now: real): (r: real)
    requires window > 0.0
    requires DistancesNonNeg(samples)
    ensures |samples| == 0 ==> r == 0.0
    ensures |samples| > 0 ==> r * EffectiveWindow(window, now, samples[0].time) == SumDistances(samples)
    ensures r >= SumDistances(samples) / window >= 0.0
  {
    SumSuffixAtMost(samples, |samples|);
    if |samples| == 0 then 0.0
    else
      var w := EffectiveWindow(window, now, samples[0].time);
      RateBound(SumDistances(samples), w, window);
      SumDistances(samples) / w
  }

  /** Dividing a non-negative amount by a smaller positive width gives more. */
  lemma RateBound(amount: real, w: real, window: real)
    requires amount >= 0.0 && 0.0 < w <= window
    ensures amount / w >= amount / window >= 0.0
  {
    if amount > 0.0 {
      assert amount / w * w == amount == amount / window * window;
    }
  }

  /** The `while q and q[0] < cutoff: q.popleft()` loop of `_prune`. */
  method PopStale<T>(q: seq<T>, stamp: T -> real, cutoff: real) returns (r: seq<T>)
    ensures r == DropBefore(q, stamp, cutoff)
  {
    r := q;
    while |r| > 0 && stamp(r[0]) < cutoff
      invariant DropBefore(r, stamp, cutoff) == DropBefore(q, stamp, cutoff)
      decreases |r|
    {
      r := r[1..];
    }
  }

  // ---------------------------------------------------------------------
  // The tracker

  class ActivityTracker {
    const windowSeconds: real
    var keyEvents: seq<real>
    var clickEvents: seq<real>
    var mouseSamples: seq<MouseSample>
    var lastInputTime: real
    var sessionStartTime: real
    var totalKeypresses: nat
    var totalClicks: nat
    var totalMouseDistance: real

    /** The window is positive; the queues never hold more than the lifetime
        counters record, and the window's mouse distance is part of the total. */
    predicate Valid()
      reads this
    {
      && windowSeconds > 0.0
      && |keyEvents| <= totalKeypresses
      && |clickEvents| <= totalClicks
      && DistancesNonNeg(mouseSamples)
      && SumDistances(mouseSamples) <= totalMouseDistance
    }

    /** A fresh tracker; the session and the last input both start at `start`. */
    constructor(windowSeconds: real, start: real)
      requires windowSeconds > 0.0
      ensures Valid()
      ensures this.windowSeconds == windowSeconds
      ensures keyEvents == [] && clickEvents == [] && mouseSamples == []
      ensures lastInputTime == start && sessionStartTime == start
      ensures totalKeypresses == 0 && totalClicks == 0 && totalMouseDistance == 0.0
    {
      this.windowSeconds := windowSeconds;
      keyEvents := [];
      clickEvents := [];
      mouseSamples := [];
      lastInputTime := start;
      sessionStartTime := start;
      totalKeypresses := 0;
      totalClicks := 0;
      totalMouseDistance := 0.0;
    }

    /** `_prune(now)`: drop every front entry older than `now - window_seconds`. */
    method Prune(now: real)
      requires Valid()
      modifies this
      ensures Valid()
      ensures keyEvents == DropBefore(old(keyEvents), KeyTime, now - windowSeconds)
      ensures clickEvents == DropBefore(old(clickEvents), KeyTime, now - windowSeconds)
      ensures mouseSamples == DropBefore(old(mouseSamples), SampleTime, now - windowSeconds)
      ensures lastInputTime == old(lastInputTime) && sessionStartTime == old(sessionStartTime)
      ensures totalKeypresses == old(totalKeypresses) && totalClicks == old(totalClicks)
      ensures totalMouseDistance == old(totalMouseDistance)
    {
      var cutoff := now - windowSeconds;
      ghost var mouse0 := mouseSamples;
      keyEvents := PopStale(keyEvents, KeyTime, cutoff);
      clickEvents := PopStale(clickEvents, KeyTime, cutoff);
      mouseSamples := PopStale(mouseSamples, SampleTime, cutoff);
      DropBeforeSuffix(mouse0, SampleTime, cutoff);
      SumSuffixAtMost(mouse0, |mouse0| - |mouseSamples|);
    }

    /** `record_keypress(ts)`. */
    method RecordKeypress(ts: real)
      requires Valid()
      modifies this
      ensures Valid()
      ensures lastInputTime == ts
      ensures totalKeypresses == old(totalKeypresses) + 1
      ensures keyEvents == DropBefore(old(keyEvents) + [ts], KeyTime, ts - windowSeconds)
      ensures clickEvents == DropBefore(old(clickEvents), KeyTime, ts - windowSeconds)
      ensures mouseSamples == DropBefore(old(mouseSamples), SampleTime, ts - windowSeconds)
      ensures totalClicks == old(totalClicks) && totalMouseDistance == old(totalMouseDistance)
      ensures sessionStartTime == old(sessionStartTime)
    {
      lastInputTime := ts;
      keyEvents := keyEvents + [ts];
      totalKeypresses := totalKeypresses + 1;
      Prune(ts);
    }

    /** `record_click(ts)`. */
    method RecordClick(ts: real)
      requires Valid()
      modifies this
      ensures Valid()
      ensures lastInputTime == ts
      ensures totalClicks == old(totalClicks) + 1
      ensures clickEvents == DropBefore(old(clickEvents) + [ts], KeyTime, ts - windowSeconds)
      ensures keyEvents == DropBefore(old(keyEvents), KeyTime, ts - windowSeconds)
      ensures mouseSamples == DropBefore(old(mouseSamples), SampleTime, ts - windowSeconds)
      ensures totalKeypresses == old(totalKeypresses) && totalMouseDistance == old(totalMouseDistance)
      ensures sessionStartTime == old(sessionStartTime)
    {
      lastInputTime := ts;
      clickEvents := clickEvents + [ts];
      totalClicks := totalClicks + 1;
      Prune(ts);
    }

    /** `record_mouse_move(dx, dy, ts)`, given the Euclidean length of (dx, dy). */
    method RecordMouseMove(distance: real, ts: real)
      requires Valid()
      requires distance >= 0.0
      modifies this
      ensures Valid()
      ensures lastInputTime == ts
      ensures totalMouseDistance == old(totalMouseDistance) + distance
      ensures mouseSamples
        == DropBefore(old(mouseSamples) + [MouseSample(ts, distance)], SampleTime, ts - windowSeconds)
      ensures keyEvents == DropBefore(old(keyEvents), KeyTime, ts - windowSeconds)
      ensures clickEvents == DropBefore(old(clickEvents), KeyTime, ts - windowSeconds)
      ensures totalKeypresses == old(totalKeypresses) && totalClicks == old(totalClicks)
      ensures sessionStartTime == old(sessionStartTime)
    {
      lastInputTime := ts;
      var sample := MouseSample(ts, distance);
      SumAppend(mouseSamples, sample);
      mouseSamples := mouseSamples + [sample];
      totalMouseDistance := totalMouseDistance + distance;
      Prune(ts);
    }

    /** The snapshot of the current queues at time `now`. */
    function SnapshotAt(now: real): (s: ActivitySnapshot)
      requires Valid()
      reads this
      ensures s.secondsSinceInput >= 0.0 && s.totalActiveSeconds >= 0.0
      ensures s.secondsSinceInput >= now - lastInputTime
      ensures s.totalActiveSeconds >= now - sessionStartTime
      ensures s.typingWpm >= 0.0 && s.clickRate >= 0.0 && s.mouseSpeed >= 0.0
      ensures (s.typingWpm == 0.0 <==> keyEvents == [])
      ensures (s.clickRate == 0.0 <==> clickEvents == [])
    {
      ActivitySnapshot(
        TypingWpm(keyEvents, windowSeconds, now),
        ClickRate(clickEvents, windowSeconds, now),
        MouseSpeed(mouseSamples, windowSeconds, now),
        NonNeg(now - lastInputTime),
        NonNeg(now - sessionStartTime))
    }

    /** `snapshot(now)`: prune, then report the rates and elapsed times. */
    method Snapshot(now: real) returns (s: ActivitySnapshot)
      requires Valid()
      modifies this
      ensures Valid()
      ensures keyEvents == DropBefore(old(keyEvents), KeyTime, now - windowSeconds)
      ensures clickEvents == DropBefore(old(clickEvents), KeyTime, now - windowSeconds)
      ensures mouseSamples == DropBefore(old(mouseSamples), SampleTime, now - windowSeconds)
      ensures lastInputTime == old(lastInputTime) && sessionStartTime == old(sessionStartTime)
      ensures totalKeypresses == old(totalKeypresses) && totalClicks == old(totalClicks)
      ensures totalMouseDistance == old(totalMouseDistance)
      ensures s == SnapshotAt(now)
    {
      Prune(now);
      s := SnapshotAt(now);
    }

    /** `totals(now)`: the lifetime counters as they are, without pruning. */
    function Totals(now: real): (t: ActivityTotals)
      reads this
      ensures t.totalKeypresses == totalKeypresses && t.totalClicks == totalClicks
      ensures t.totalMouseDistance == totalMouseDistance
      ensures t.totalActiveSeconds >= 0.0 && t.totalActiveSeconds >= now - sessionStartTime
    {
      ActivityTotals(totalKeypresses, totalClicks, totalMouseDistance, NonNeg(now - sessionStartTime))
    }
  }

  /** Under the tracker's invariant, each count or distance reported by
      `totals` bounds what the window still holds. */
  lemma TotalsBoundWindow(t: ActivityTracker, now: real)
    requires t.Valid()
    ensures |t.keyEvents| <= t.Totals(now).totalKeypresses
    ensures |t.clickEvents| <= t.Totals(now).totalClicks
    ensures SumDistances(t.mouseSamples) <= t.Totals(now).totalMouseDistance
  {
  }
}
