/** Lifetime statistics and achievements (asciipal/achievements.py): the
    stats record and its dictionary form, the milestone table checked in order,
    the twelve-tick display of a new achievement, the consecutive-day break
    streak and the text report. Dates are day numbers; the JSON file itself
    is outside the model. */
module Achievements {
  import opened Wrappers
  import Text
  import Numerals
  import ActivityTracker

  datatype StatsData = StatsData(
    lifetimeKeypresses: int,
    lifetimeClicks: int,
    lifetimeMouseDistance: real,
    lifetimeActiveSeconds: real,
    dailyBreaks: map<int, int>,
    breakStreak: int,
    unlocked: seq<string>)

  /** `StatsData()`: every field at its default. */
  const EMPTY_STATS := StatsData(0, 0, 0.0, 0.0, map[], 0, [])

  // ---------------------------------------------------------------------
  // to_dict / from_dict

  /** A value of the stats dictionary, as JSON decodes it. */
  datatype Field =
    | FInt(i: int)
    | FReal(r: real)
    | FBool(b: bool)
    | FStr(s: string)
    | FDays(days: map<int, int>)
    | FIds(ids: seq<string>)

  type StatsDict = map<string, Field>

  /** `to_dict`. */
  function ToDict(s: StatsData): (d: StatsDict)
    ensures d.Keys == STATS_KEYS
  {
    map[
      "lifetime_keypresses" := FInt(s.lifetimeKeypresses),
      "lifetime_clicks" := FInt(s.lifetimeClicks),
      "lifetime_mouse_distance" := FReal(s.lifetimeMouseDistance),
      "lifetime_active_seconds" := FReal(s.lifetimeActiveSeconds),
      "daily_breaks" := FDays(s.dailyBreaks),
      "break_streak" := FInt(s.breakStreak),
      "unlocked" := FIds(s.unlocked)
    ]
  }

  const STATS_KEYS: set<string> := {
    "lifetime_keypresses", "lifetime_clicks", "lifetime_mouse_distance",
    "lifetime_active_seconds", "daily_breaks", "break_streak", "unlocked"
  }

  /** `int(data.get(key, default))`: a float is truncated, a bool is 0 or 1,
      and text is read as a decimal integer literal. */
  function IntAt(d: StatsDict, key: string, default: int): (r: Result<int, string>)
    ensures key in d && d[key].FStr? ==> (r.Success? <==> Numerals.ParseInt(d[key].s).Some?)
    ensures key in d && d[key].FStr? && r.Success? ==> r.value == Numerals.ParseInt(d[key].s).value
  {
    if key !in d then Success(default)
    else match d[key]
      case FInt(i) => Success(i)
      case FReal(r) => Success(Text.Trunc(r))
      case FBool(b) => Success(if b then 1 else 0)
      case FStr(text) =>
        (match Numerals.ParseInt(text)
         case Some(n) => Success(n)
         case None => Failure(key))
      case _ => Failure(key)
  }

  /** `float(data.get(key, default))`: text is read as a decimal literal; an
      infinity or NaN, which the record cannot hold, counts as unreadable. */
  function RealAt(d: StatsDict, key: string, default: real): (r: Result<real, string>)
    ensures key in d && d[key].FStr? ==>
      (r.Success? <==> Numerals.ParseFloat(d[key].s).Some? && Numerals.ParseFloat(d[key].s).value.Finite?)
  {
    if key !in d then Success(default)
    else match d[key]
      case FInt(i) => Success(i as real)
      case FReal(r) => Success(r)
      case FBool(b) => Success(if b then 1.0 else 0.0)
      case FStr(text) =>
        (match Numerals.ParseFloat(text)
         case Some(Finite(x)) => Success(x)
         case _ => Failure(key))
      case _ => Failure(key)
  }

  /** `dict(data.get("daily_breaks", {}))`. */
  function DaysAt(d: StatsDict, key: string): (r: Result<map<int, int>, string>)
    ensures r.Success? <==> key !in d || d[key].FDays?
    ensures key !in d ==> r == Success(map[])
    ensures key in d && d[key].FDays? ==> r == Success(d[key].days)
    ensures r.Failure? ==> r.error == key
  {
    if key !in d then Success(map[])
    else if d[key].FDays? then Success(d[key].days)
    else Failure(key)
  }

  /** `list(data.get("unlocked", []))`: a text becomes the list of its characters. */
  function IdsAt(d: StatsDict, key: string): (r: Result<seq<string>, string>)
    ensures key in d && d[key].FStr? ==> r.Success? && |r.value| == |d[key].s|
  {
    if key !in d then Success([])
    else match d[key]
      case FIds(ids) => Success(ids)
      case FStr(text) => Success(seq(|text|, i requires 0 <= i < |text| => [text[i]]))
      case _ => Failure(key)
  }

  /** `from_dict`: missing keys take their defaults; a value of the wrong kind
      raises, reported here as the key that failed. */
  function FromDict(d: StatsDict): (r: Result<StatsData, string>)
    ensures d == map[] ==> r == Success(EMPTY_STATS)
    ensures r.Failure? ==> r.error in d
  {
    var keypresses :- IntAt(d, "lifetime_keypresses", 0);
    var clicks :- IntAt(d, "lifetime_clicks", 0);
    var distance :- RealAt(d, "lifetime_mouse_distance", 0.0);
    var active :- RealAt(d, "lifetime_active_seconds", 0.0);
    var days :- DaysAt(d, "daily_breaks");
    var streak :- IntAt(d, "break_streak", 0);
    var ids :- IdsAt(d, "unlocked");
    Success(StatsData(keypresses, clicks, distance, active, days, streak, ids))
  }

  /** The dictionary form gives the record back, field by field. */
  lemma FromToDict(s: StatsData)
    ensures FromDict(ToDict(s)) == Success(s)
  {
  }

  /** A dictionary holding exactly the seven keys, each with the kind `to_dict`
      writes, is the dictionary form of what `from_dict` reads from it. */
  predicate WellTyped(d: StatsDict)
  {
    && d.Keys == STATS_KEYS
    && d["lifetime_keypresses"].FInt? && d["lifetime_clicks"].FInt?
    && d["lifetime_mouse_distance"].FReal? && d["lifetime_active_seconds"].FReal?
    && d["daily_breaks"].FDays? && d["break_streak"].FInt? && d["unlocked"].FIds?
  }

  lemma ToFromDict(d: StatsDict)
    requires WellTyped(d)
    ensures FromDict(d).Success? && ToDict(FromDict(d).value) == d
  {
    var s := FromDict(d).value;
    assert forall k | k in d :: ToDict(s)[k] == d[k];
  }

  /** A stats file holding a count as text, such as "5", loads that count. */
  lemma CountFromText()
    ensures FromDict(map["lifetime_keypresses" := FStr("5")]).Success?
    ensures FromDict(map["lifetime_keypresses" := FStr("5")]).value.lifetimeKeypresses == 5
  {
    var d := map["lifetime_keypresses" := FStr("5")];
    Numerals.Clean("5");
    assert Numerals.DigitsValue("5") == 5;
    assert IntAt(d, "lifetime_keypresses", 0) == Success(5);
  }

  /** `_load`: a file that could not be read or parsed, or whose contents
      `from_dict` rejects, gives the default record. */
  function Load(parsed: Option<StatsDict>): (s: StatsData)
    ensures parsed.None? ==> s == EMPTY_STATS
    ensures parsed.Some? && FromDict(parsed.value).Success? ==> s == FromDict(parsed.value).value
  {
    if parsed.None? then EMPTY_STATS
    else match FromDict(parsed.value)
      case Success(s) => s
      case Failure(_) => EMPTY_STATS
  }

  // ---------------------------------------------------------------------
  // Milestones

  datatype Kind = Keypresses | ActiveHours | MouseKm

  datatype Milestone = Milestone(kind: Kind, threshold: nat)

  const UNITS_PER_KM: real := 100000.0

  /** The three threshold lists, in the order `_check_milestones` walks them. */
  const MILESTONES: seq<Milestone> := [
    Milestone(Keypresses, 1000), Milestone(Keypresses, 5000), Milestone(Keypresses, 10000),
    Milestone(Keypresses, 50000), Milestone(Keypresses, 100000),
    Milestone(ActiveHours, 1), Milestone(ActiveHours, 5), Milestone(ActiveHours, 10),
    Milestone(ActiveHours, 50), Milestone(ActiveHours, 100),
    Milestone(MouseKm, 10), Milestone(MouseKm, 50), Milestone(MouseKm, 100)
  ]

  /** The achievement id, `f"{prefix}_{threshold}"`. */
  function Id(m: Milestone): string
  {
    IdPrefix(m.kind) + Text.NatToString(m.threshold)
  }

  function IdPrefix(k: Kind): string
  {
    match k
    case Keypresses => "keypresses_"
    case ActiveHours => "active_hours_"
    case MouseKm => "mouse_km_"
  }

  /** `f"{n:,}"`: decimal digits with a comma between groups of three. */
  function Grouped(n: nat): (r: string)
    ensures |r| >= 1
  {
    GroupDigits(Text.NatToString(n))
  }

  /** A comma before each group of three digits, counted from the right. */
  function GroupDigits(ds: string): (r: string)
    ensures |ds| >= 1 ==> |r| >= 1
    decreases |ds|
  {
    if |ds| <= 3 then ds else GroupDigits(ds[..|ds| - 3]) + ("," + ds[|ds| - 3..])
  }

  /** The line announcing the achievement. */
  function Message(m: Milestone): string
  {
    match m.kind
    case Keypresses => "\U{2605} Keypresses: " + Grouped(m.threshold) + "! \U{2605}"
    case ActiveHours => "\U{2605} Active Time: " + Text.NatToString(m.threshold) + "h! \U{2605}"
    case MouseKm => "\U{2605} Mouse Distance: " + Text.NatToString(m.threshold) + "km! \U{2605}"
  }

  /** The lifetime figure has reached the milestone's threshold. */
  predicate Reached(s: StatsData, m: Milestone)
  {
    match m.kind
    case Keypresses => s.lifetimeKeypresses >= m.threshold
    case ActiveHours => s.lifetimeActiveSeconds / 3600.0 >= m.threshold as real
    case MouseKm => s.lifetimeMouseDistance / UNITS_PER_KM >= m.threshold as real
  }

  /** Milestone `k` is reached and not yet unlocked. */
  predicate Unlockable(s: StatsData, k: nat)
    requires k < |MILESTONES|
  {
    Id(MILESTONES[k]) !in s.unlocked && Reached(s, MILESTONES[k])
  }

  /** The first unlockable milestone at index `from` or later. */
  function FirstNew(s: StatsData, from: nat): (r: Option<nat>)
    requires from <= |MILESTONES|
    ensures r.Some? ==> from <= r.value < |MILESTONES| && Unlockable(s, r.value)
    ensures r.Some? ==> forall j | from <= j < r.value :: !Unlockable(s, j)
    ensures r.None? ==> forall j | from <= j < |MILESTONES| :: !Unlockable(s, j)
    decreases |MILESTONES| - from
  {
    if from == |MILESTONES| then None
    else if Unlockable(s, from) then Some(from)
    else FirstNew(s, from + 1)
  }

  /** `_check_milestones` as a value: the stats with at most one id appended,
      and the message for it. */
  function Unlock(s: StatsData): (r: (StatsData, Option<string>))
    ensures r.1.None? <==> forall k | 0 <= k < |MILESTONES| :: !Unlockable(s, k)
    ensures r.1.None? ==> r.0 == s
    ensures r.1.Some? ==> exists k | 0 <= k < |MILESTONES| ::
      && Unlockable(s, k)
      && (forall j | 0 <= j < k :: !Unlockable(s, j))
      && r.0 == s.(unlocked := s.unlocked + [Id(MILESTONES[k])])
      && r.1 == Some(Message(MILESTONES[k]))
  {
    match FirstNew(s, 0)
    case None => (s, None)
    case Some(k) =>
      assert Unlockable(s, k);
      (s.(unlocked := s.unlocked + [Id(MILESTONES[k])]), Some(Message(MILESTONES[k])))
  }

  predicate Distinct(ids: seq<string>)
  {
    forall i, j | 0 <= i < j < |ids| :: ids[i] != ids[j]
  }

  /** Checking milestones never repeats an id, and the list only grows. */
  lemma UnlockKeepsDistinct(s: StatsData)
    requires Distinct(s.unlocked)
    ensures Distinct(Unlock(s).0.unlocked)
    ensures s.unlocked <= Unlock(s).0.unlocked
    ensures Unlock(s).0.(unlocked := s.unlocked) == s
  {
  }

  /** With every threshold reached and nothing unlocked, the first keypress milestone comes first. */
  lemma KeypressesComeFirst(s: StatsData)
    requires s.unlocked == [] && s.lifetimeKeypresses >= 1000
    ensures Unlock(s).0.unlocked == ["keypresses_1000"]
    ensures Unlock(s).1 == Some("\U{2605} Keypresses: 1,000! \U{2605}")
  {
    var first := MILESTONES[0];
    FirstMilestoneTexts();
    assert Unlockable(s, 0);
    assert FirstNew(s, 0) == Some(0);
  }

  /** The id and the message of the first milestone. */
  lemma FirstMilestoneTexts()
    ensures Id(MILESTONES[0]) == "keypresses_1000"
    ensures Message(MILESTONES[0]) == "\U{2605} Keypresses: 1,000! \U{2605}"
  {
    ThousandTexts();
  }

  lemma ThousandTexts()
    ensures Text.NatToString(1000) == "1000"
    ensures Grouped(1000) == "1,000"
  {
    ThousandDigits();
    assert GroupDigits("1000") == GroupDigits("1") + ("," + "000");
  }

  lemma ThousandDigits()
    ensures Text.NatToString(1000) == "1000"
  {
    assert Text.NatToString(1) == "1";
    assert Text.NatToString(10) == "10";
    assert Text.NatToString(100) == "100";
  }

  /** Larger lifetime figures reach every threshold smaller ones reached, so
      a milestone, once reached, stays reached. */
  lemma ReachedStaysReached(s: StatsData, t: StatsData, m: Milestone)
    requires t.lifetimeKeypresses >= s.lifetimeKeypresses
    requires t.lifetimeActiveSeconds >= s.lifetimeActiveSeconds
    requires t.lifetimeMouseDistance >= s.lifetimeMouseDistance
    ensures Reached(s, m) ==> Reached(t, m)
  {
  }

  /** A milestone whose id is already listed is not unlockable again. */
  lemma UnlockedNotUnlockable(s: StatsData, k: nat)
    requires k < |MILESTONES| && Id(MILESTONES[k]) in s.unlocked
    ensures !Unlockable(s, k)
  {
  }

  /** Two milestones with the same id are the same milestone: the prefix names
      the kind and `int()` reads the threshold back from the rest. */
  lemma IdInjective(m1: Milestone, m2: Milestone)
    requires Id(m1) == Id(m2)
    ensures m1 == m2
  {
    var p1 := IdPrefix(m1.kind);
    var p2 := IdPrefix(m2.kind);
    assert Id(m1) == p1 + Text.NatToString(m1.threshold);
    assert Id(m2) == p2 + Text.NatToString(m2.threshold);
    assert Id(m1)[0] == p1[0] && Id(m2)[0] == p2[0];
    assert m1.kind == m2.kind;
    assert Text.NatToString(m1.threshold) == Id(m1)[|p1|..];
    assert Text.NatToString(m2.threshold) == Id(m2)[|p2|..];
    Numerals.IntRoundTrip(m1.threshold);
    Numerals.IntRoundTrip(m2.threshold);
  }

  /** The thirteen achievement ids are pairwise distinct. */
  lemma MilestoneIdsDistinct()
    ensures forall i, j | 0 <= i < j < |MILESTONES| :: Id(MILESTONES[i]) != Id(MILESTONES[j])
  {
    forall i, j | 0 <= i < j < |MILESTONES|
      ensures Id(MILESTONES[i]) != Id(MILESTONES[j])
    {
      if Id(MILESTONES[i]) == Id(MILESTONES[j]) {
        IdInjective(MILESTONES[i], MILESTONES[j]);
      }
    }
  }

  /** The figure a message shows: grouped digits for key presses. */
  function Figure(m: Milestone): string
  {
    if m.kind == Keypresses then Grouped(m.threshold) else Text.NatToString(m.threshold)
  }

  function MessageHead(k: Kind): string
  {
    match k
    case Keypresses => "\U{2605} Keypresses: "
    case ActiveHours => "\U{2605} Active Time: "
    case MouseKm => "\U{2605} Mouse Distance: "
  }

  function MessageTail(k: Kind): string
  {
    match k
    case Keypresses => "! \U{2605}"
    case ActiveHours => "h! \U{2605}"
    case MouseKm => "km! \U{2605}"
  }

  lemma MessageParts(m: Milestone)
    ensures Message(m) == MessageHead(m.kind) + Figure(m) + MessageTail(m.kind)
  {
  }

  /** The third character of a message names its kind. */
  lemma MessageKind(m1: Milestone, m2: Milestone)
    requires Message(m1) == Message(m2)
    ensures m1.kind == m2.kind
  {
    MessageParts(m1);
    MessageParts(m2);
    assert Message(m1)[2] == MessageHead(m1.kind)[2];
    assert Message(m2)[2] == MessageHead(m2.kind)[2];
  }

  /** The figure sits between the kind's label and its unit. */
  lemma FigureOfMessage(m: Milestone)
    ensures var msg := Message(m);
      |MessageHead(m.kind)| + |MessageTail(m.kind)| <= |msg|
      && Figure(m) == msg[|MessageHead(m.kind)|..|msg| - |MessageTail(m.kind)|]
  {
    MessageParts(m);
  }

  /** The figure gives the threshold back. */
  lemma FigureInjective(m1: Milestone, m2: Milestone)
    requires m1.kind == m2.kind && Figure(m1) == Figure(m2)
    ensures m1 == m2
  {
    if m1.kind == Keypresses {
      GroupedReadsBack(m1.threshold);
      GroupedReadsBack(m2.threshold);
    } else {
      Numerals.IntRoundTrip(m1.threshold);
      Numerals.IntRoundTrip(m2.threshold);
    }
  }

  /** Distinct milestones announce distinct messages: the label names the
      kind, and the figure between the label and the unit gives the threshold. */
  lemma MessageInjective(m1: Milestone, m2: Milestone)
    requires Message(m1) == Message(m2)
    ensures m1 == m2
  {
    MessageKind(m1, m2);
    FigureOfMessage(m1);
    FigureOfMessage(m2);
    FigureInjective(m1, m2);
  }

  // ---------------------------------------------------------------------
  // The display countdown

  datatype Display = Display(line: Option<string>, ticksRemaining: int)

  /** The display part of `update`: a new achievement restarts a twelve-tick
      countdown; each call spends one tick while any remain. */
  function Tick(d: Display, news: Option<string>): (r: (Display, Option<string>))
  {
    var shown := if news.Some? then Display(news, 12) else d;
    if shown.ticksRemaining > 0 then (Display(shown.line, shown.ticksRemaining - 1), shown.line)
    else (Display(None, shown.ticksRemaining), None)
  }

  /** What `n` calls in a row without a new achievement return. */
  function Quiet(d: Display, n: nat): (out: seq<Option<string>>)
    ensures |out| == n
    decreases n
  {
    if n == 0 then [] else [Tick(d, None).1] + Quiet(Tick(d, None).0, n - 1)
  }

  lemma {:induction false} QuietCountsDown(d: Display, n: nat, i: nat)
    requires d.ticksRemaining >= 0 && i < n
    ensures Quiet(d, n)[i] == if i < d.ticksRemaining then d.line else None
    decreases n
  {
    var next := Tick(d, None).0;
    if i > 0 {
      QuietCountsDown(next, n - 1, i - 1);
      assert Quiet(d, n)[i] == Quiet(next, n - 1)[i - 1];
    }
  }

  /** A new achievement is shown by the call that unlocks it and the eleven
      after it, and by none of the calls after those. */
  lemma ShownForTwelveCalls(d: Display, line: string, n: nat, i: nat)
    requires i <= n
    ensures ([Tick(d, Some(line)).1] + Quiet(Tick(d, Some(line)).0, n))[i]
      == if i < 12 then Some(line) else None
  {
    var after := Tick(d, Some(line)).0;
    assert after == Display(Some(line), 11);
    if i > 0 {
      QuietCountsDown(after, n, i - 1);
    }
  }

  // ---------------------------------------------------------------------
  // The break streak

  /** Days on which at least one break was taken. */
  function BreakDays(m: map<int, int>): set<int>
  {
    set k | k in m && m[k] >= 1
  }

  function DaysUpTo(m: map<int, int>, d: int): set<int>
  {
    set k | k in m && k <= d
  }

  /** The number of consecutive days with a break ending at `d`. */
  function RunTo(m: map<int, int>, d: int): nat
    decreases |DaysUpTo(m, d)|
  {
    if d in m && m[d] >= 1 then
      assert |DaysUpTo(m, d - 1)| < |DaysUpTo(m, d)| by {
        assert DaysUpTo(m, d) == DaysUpTo(m, d - 1) + {d};
        assert DaysUpTo(m, d - 1) * {d} == {};
      }
      1 + RunTo(m, d - 1)
    else 0
  }

  /** The run ending at `d` is exactly the break days from `d - RunTo + 1`
      to `d`: each of them had a break and the day before them had none. */
  lemma {:induction false} RunToMeaning(m: map<int, int>, d: int)
    ensures forall k | d - RunTo(m, d) < k <= d :: k in BreakDays(m)
    ensures d - RunTo(m, d) !in BreakDays(m)
    decreases |DaysUpTo(m, d)|
  {
    if d in m && m[d] >= 1 {
      assert |DaysUpTo(m, d - 1)| < |DaysUpTo(m, d)| by {
        assert DaysUpTo(m, d) == DaysUpTo(m, d - 1) + {d};
        assert DaysUpTo(m, d - 1) * {d} == {};
      }
      RunToMeaning(m, d - 1);
    }
  }

  lemma NoElementEmpty(s: set<int>)
    requires forall y :: y !in s
    ensures s == {}
  {
    var none: set<int> := {};
    assert forall y :: y in s <==> y in none;
  }

  lemma HasElement(s: set<int>)
    requires s != {}
    ensures exists y :: y in s
  {
    if !exists y :: y in s {
      NoElementEmpty(s);
    }
  }

  ghost function SetMax(s: set<int>): (x: int)
    requires s != {}
    ensures x in s && forall y | y in s :: y <= x
  {
    HasElement(s);
    var y :| y in s;
    var rest := s - {y};
    assert forall z | z in s :: z == y || z in rest;
    if rest == {} then y
    else
      var top := SetMax(rest);
      if top > y then top else y
  }

  /** The streak: the length of the run of break days ending at the latest break day. */
  ghost function Streak(m: map<int, int>): nat
  {
    if BreakDays(m) == {} then 0 else RunTo(m, SetMax(BreakDays(m)))
  }

  predicate Descending(s: seq<int>)
  {
    forall i, j | 0 <= i < j < |s| :: s[i] > s[j]
  }

  /** `s` lists the days of `keys` from the latest to the earliest. */
  predicate Lists(s: seq<int>, keys: set<int>)
  {
    && Descending(s)
    && (forall j | 0 <= j < |s| :: s[j] in keys)
    && (forall d | d in keys :: d in s)
  }

  /** The largest element of a non-empty finite set. */
  method MaxOf(s: set<int>) returns (x: int)
    requires s != {}
    ensures x in s && forall y | y in s :: y <= x
  {
    HasElement(s);
    x :| x in s;
    var rest := s - {x};
    while rest != {}
      invariant rest <= s && x in s
      invariant forall y | y in s && y !in rest :: y <= x
      decreases rest
    {
      HasElement(rest);
      var y :| y in rest;
      if y > x {
        x := y;
      }
      rest := rest - {y};
    }
  }

  /** `sorted(days, reverse=True)`. */
  method SortDescending(days: set<int>) returns (s: seq<int>)
    ensures Lists(s, days)
  {
    s := [];
    var rest := days;
    while rest != {}
      invariant rest <= days
      invariant Descending(s)
      invariant forall j | 0 <= j < |s| :: s[j] in days && s[j] !in rest
      invariant forall k | k in days :: k in s || k in rest
      invariant forall k, i | k in rest && 0 <= i < |s| :: k < s[i]
      decreases rest
    {
      var x := MaxOf(rest);
      s := s + [x];
      rest := rest - {x};
    }
  }

  /** No day lies strictly between two neighbours of the sorted list. */
  lemma NoDayBetween(s: seq<int>, m: map<int, int>, i: nat, k: int)
    requires Lists(s, m.Keys)
    requires 0 < i <= |s| && k < s[i - 1]
    requires i < |s| ==> s[i] < k
    ensures k !in m
  {
    if k in m {
      assert k in s;
      var j :| 0 <= j < |s| && s[j] == k;
    }
  }

  /** The first break day met in descending order is the latest one. */
  lemma FirstBreakDayIsLatest(s: seq<int>, m: map<int, int>, i: nat)
    requires Lists(s, m.Keys)
    requires i < |s| && m[s[i]] >= 1
    requires forall j | 0 <= j < i :: m[s[j]] < 1
    ensures BreakDays(m) != {} && SetMax(BreakDays(m)) == s[i]
  {
    assert s[i] in BreakDays(m);
    var top := SetMax(BreakDays(m));
    assert top in s;
    var j :| 0 <= j < |s| && s[j] == top;
    assert j == i;
  }

  // ---------------------------------------------------------------------
  // The report

  /** The lines after the "Achievements:" heading. */
  function AchievementLines(unlocked: seq<string>): (r: seq<string>)
    ensures |r| >= 1
    ensures unlocked == [] <==> r == ["  (none yet)"]
    ensures unlocked != [] ==> |r| == |unlocked| && forall i | 0 <= i < |r| :: r[i] == "  \U{2605} " + unlocked[i]
  {
    if unlocked == [] then ["  (none yet)"]
    else
      var r := seq(|unlocked|, i requires 0 <= i < |unlocked| => "  \U{2605} " + unlocked[i]);
      assert r[0] != "  (none yet)" by {
        assert r[0][2] == '\U{2605}' && "  (none yet)"[2] == '(';
      }
      r
  }

  /** A statistics line: the name and its colon padded to column 19, then
      the figure. */
  /** The figure starts at column 19, after an indented, space-ended label. */
  predicate StatShape(line: string, figure: string)
  {
    |line| == 19 + |figure| && line[..2] == "  " && line[18] == ' ' && line[19..] == figure
  }

  function StatLine(name: string, figure: string): (r: string)
    requires |name| <= 15
    ensures StatShape(r, figure)
  {
    "  " + Text.LJust(name + ":", 17) + figure
  }

  /** The label of a statistics line: its name, a colon and spaces. */
  lemma StatLineLabel(name: string, figure: string)
    requires |name| <= 15
    ensures var r := StatLine(name, figure);
      && r[2..2 + |name|] == name && r[2 + |name|] == ':'
      && forall k | 3 + |name| <= k < 19 :: r[k] == ' '
  {
  }

  /** The eight header lines of `format_stats_report`; the `.1f` renderings
      of kilometres and hours are given. A title, five statistics lines each
      with its figure at column 19, a blank line and the achievements heading. */
  function ReportHeader(s: StatsData, kmText: string, hoursText: string): (h: seq<string>)
    ensures |h| == 8
    ensures h[0] == "AsciiPal Lifetime Stats" && h[6] == "" && h[7] == "Achievements:"
    ensures StatShape(h[1], SignedGrouped(s.lifetimeKeypresses))
    ensures StatShape(h[2], SignedGrouped(s.lifetimeClicks))
    ensures StatShape(h[3], kmText + " km")
    ensures StatShape(h[4], hoursText + " h")
    ensures StatShape(h[5], Text.IntToString(s.breakStreak) + " day(s)")
  {
    [
      "AsciiPal Lifetime Stats",
      StatLine("Keypresses", SignedGrouped(s.lifetimeKeypresses)),
      StatLine("Clicks", SignedGrouped(s.lifetimeClicks)),
      StatLine("Mouse Distance", kmText + " km"),
      StatLine("Active Time", hoursText + " h"),
      StatLine("Break Streak", Text.IntToString(s.breakStreak) + " day(s)"),
      "",
      "Achievements:"
    ]
  }

  /** The lines of `format_stats_report`: the header, then one line per
      achievement, or the placeholder. */
  function ReportLines(s: StatsData, kmText: string, hoursText: string): (r: seq<string>)
    ensures |r| == 8 + |AchievementLines(s.unlocked)|
    ensures r[..8] == ReportHeader(s, kmText, hoursText) && r[8..] == AchievementLines(s.unlocked)
  {
    ReportHeader(s, kmText, hoursText) + AchievementLines(s.unlocked)
  }

  /** `f"{n:,}"` for any integer. */
  function SignedGrouped(n: int): string
  {
    if n < 0 then "-" + Grouped(-n) else Grouped(n)
  }

  /** `format_stats_report`: the lines joined with newlines. */
  function FormatStatsReport(s: StatsData, kmText: string, hoursText: string): string
  {
    Text.Join(ReportLines(s, kmText, hoursText), "\n")
  }

  /** When no id and no rendered figure holds a newline, the report splits back
      into its lines, so the achievement section can be read off it. */
  lemma ReportSplitsIntoLines(s: StatsData, kmText: string, hoursText: string)
    requires '\n' !in kmText && '\n' !in hoursText
    requires forall i | 0 <= i < |s.unlocked| :: '\n' !in s.unlocked[i]
    ensures Text.Split(FormatStatsReport(s, kmText, hoursText), '\n') == ReportLines(s, kmText, hoursText)
    ensures Text.Split(FormatStatsReport(s, kmText, hoursText), '\n')[8..] == AchievementLines(s.unlocked)
  {
    var lines := ReportLines(s, kmText, hoursText);
    HeaderHasNoNewline(s, kmText, hoursText);
    AchievementLinesHaveNoNewline(s.unlocked);
    forall i | 0 <= i < |lines|
      ensures '\n' !in lines[i]
    {
      if i >= 8 {
        assert lines[i] == lines[8..][i - 8];
      } else {
        assert lines[i] == lines[..8][i];
      }
    }
    Text.SplitJoin(lines, '\n');
  }

  lemma StatLineHasNoNewline(name: string, figure: string)
    requires |name| <= 15 && '\n' !in name && '\n' !in figure
    ensures '\n' !in StatLine(name, figure)
  {
    var r := StatLine(name, figure);
    StatLineLabel(name, figure);
    forall k | 0 <= k < |r|
      ensures r[k] != '\n'
    {
      if 19 <= k {
        assert r[k] == r[19..][k - 19];
      } else if 2 <= k < 2 + |name| {
        assert r[k] == r[2..2 + |name|][k - 2];
      } else if k < 2 {
        assert r[k] == r[..2][k];
      }
    }
  }

  lemma FixedLinesHaveNoNewline()
    ensures '\n' !in "AsciiPal Lifetime Stats" && '\n' !in "" && '\n' !in "Achievements:"
  {
  }

  lemma KeysLineHasNoNewline(n: int)
    ensures '\n' !in StatLine("Keypresses", SignedGrouped(n))
  {
    GroupedHasNoNewline(n);
    StatLineHasNoNewline("Keypresses", SignedGrouped(n));
  }

  lemma ClicksLineHasNoNewline(n: int)
    ensures '\n' !in StatLine("Clicks", SignedGrouped(n))
  {
    GroupedHasNoNewline(n);
    StatLineHasNoNewline("Clicks", SignedGrouped(n));
  }

  lemma DistanceLineHasNoNewline(kmText: string)
    requires '\n' !in kmText
    ensures '\n' !in StatLine("Mouse Distance", kmText + " km")
  {
    StatLineHasNoNewline("Mouse Distance", kmText + " km");
  }

  lemma TimeLineHasNoNewline(hoursText: string)
    requires '\n' !in hoursText
    ensures '\n' !in StatLine("Active Time", hoursText + " h")
  {
    StatLineHasNoNewline("Active Time", hoursText + " h");
  }

  lemma StreakLineHasNoNewline(n: int)
    ensures '\n' !in StatLine("Break Streak", Text.IntToString(n) + " day(s)")
  {
    NumberHasNoNewline(n);
    StatLineHasNoNewline("Break Streak", Text.IntToString(n) + " day(s)");
  }

  lemma HeaderHasNoNewline(s: StatsData, kmText: string, hoursText: string)
    requires '\n' !in kmText && '\n' !in hoursText
    ensures forall i | 0 <= i < 8 :: '\n' !in ReportHeader(s, kmText, hoursText)[i]
  {
    var h := ReportHeader(s, kmText, hoursText);
    forall i | 0 <= i < 8
      ensures '\n' !in h[i]
    {
      if i == 0 || i == 6 || i == 7 {
        FixedLinesHaveNoNewline();
      } else if i == 1 {
        KeysLineHasNoNewline(s.lifetimeKeypresses);
      } else if i == 2 {
        ClicksLineHasNoNewline(s.lifetimeClicks);
      } else if i == 3 {
        DistanceLineHasNoNewline(kmText);
      } else if i == 4 {
        TimeLineHasNoNewline(hoursText);
      } else {
        StreakLineHasNoNewline(s.breakStreak);
      }
    }
  }

  lemma AchievementLinesHaveNoNewline(unlocked: seq<string>)
    requires forall i | 0 <= i < |unlocked| :: '\n' !in unlocked[i]
    ensures forall i | 0 <= i < |AchievementLines(unlocked)| :: '\n' !in AchievementLines(unlocked)[i]
  {
    var r := AchievementLines(unlocked);
    forall i | 0 <= i < |r|
      ensures '\n' !in r[i]
    {
      if unlocked != [] {
        assert r[i] == "  \U{2605} " + unlocked[i];
      }
    }
  }

  /** The text without its commas. */
  function Uncomma(s: string): string
  {
    if s == [] then [] else (if s[0] == ',' then "" else [s[0]]) + Uncomma(s[1..])
  }

  lemma {:induction false} UncommaConcat(a: string, b: string)
    ensures Uncomma(a + b) == Uncomma(a) + Uncomma(b)
  {
    if a == [] {
      assert a + b == b;
    } else {
      assert (a + b)[1..] == a[1..] + b;
      UncommaConcat(a[1..], b);
    }
  }

  lemma {:induction false} UncommaKeeps(s: string)
    requires forall i | 0 <= i < |s| :: s[i] != ','
    ensures Uncomma(s) == s
  {
    if s != [] {
      UncommaKeeps(s[1..]);
    }
  }

  lemma UncommaComma(s: string)
    ensures Uncomma("," + s) == Uncomma(s)
  {
    assert ("," + s)[1..] == s;
  }

  /** Grouping digits and then removing the commas gives the digits back. */
  lemma {:induction false} UncommaGroup(ds: string)
    requires forall i | 0 <= i < |ds| :: ds[i] != ','
    ensures Uncomma(GroupDigits(ds)) == ds
    decreases |ds|
  {
    if |ds| <= 3 {
      UncommaKeeps(ds);
    } else {
      var head := ds[..|ds| - 3];
      var low := ds[|ds| - 3..];
      assert forall i | 0 <= i < |head| :: head[i] == ds[i];
      assert forall i | 0 <= i < |low| :: low[i] == ds[|ds| - 3 + i];
      UncommaGroup(head);
      UncommaKeeps(low);
      GroupStep(GroupDigits(head), low);
      assert head + low == ds;
    }
  }

  /** Removing the commas from a group joined by a comma. */
  lemma GroupStep(g: string, low: string)
    ensures Uncomma(g + ("," + low)) == Uncomma(g) + Uncomma(low)
  {
    UncommaConcat(g, "," + low);
    UncommaComma(low);
  }

  /** `f"{n:,}"` without its commas is `str(n)`, so `int()` reads the number back. */
  lemma GroupedReadsBack(n: nat)
    ensures Uncomma(Grouped(n)) == Text.NatToString(n)
    ensures Numerals.ParseInt(Uncomma(Grouped(n))) == Some(n)
  {
    UncommaGroup(Text.NatToString(n));
    Numerals.IntRoundTrip(n);
  }

  lemma UncommaSign(g: string)
    ensures Uncomma("-" + g) == "-" + Uncomma(g)
  {
    assert ("-" + g)[1..] == g;
  }

  /** `f"{n:,}"` of any integer without its commas is `str(n)`. */
  lemma SignedGroupedReadsBack(n: int)
    ensures Uncomma(SignedGrouped(n)) == Text.IntToString(n)
    ensures Numerals.ParseInt(Uncomma(SignedGrouped(n))) == Some(n)
  {
    var m := if n < 0 then -n else n;
    GroupedReadsBack(m);
    if n < 0 {
      UncommaSign(Grouped(m));
    }
    Numerals.IntRoundTrip(n);
  }

  lemma {:induction false} GroupNoNewline(ds: string)
    requires '\n' !in ds
    ensures '\n' !in GroupDigits(ds)
    decreases |ds|
  {
    if |ds| > 3 {
      GroupNoNewline(ds[..|ds| - 3]);
      assert '\n' !in ds[|ds| - 3..];
    }
  }

  lemma GroupedHasNoNewline(n: int)
    ensures '\n' !in SignedGrouped(n)
  {
    DigitsHaveNoNewline(if n < 0 then -n else n);
    GroupNoNewline(Text.NatToString(if n < 0 then -n else n));
  }

  lemma DigitsHaveNoNewline(n: nat)
    ensures '\n' !in Text.NatToString(n)
  {
    var digits := Text.NatToString(n);
    forall i | 0 <= i < |digits|
      ensures digits[i] != '\n'
    {
    }
  }

  lemma NumberHasNoNewline(n: int)
    ensures '\n' !in Text.IntToString(n)
  {
    DigitsHaveNoNewline(if n < 0 then -n else n);
  }

  // ---------------------------------------------------------------------
  // The streak loop

  /** The loop of `update_break_streak` over the days sorted latest first. */
  method ComputeStreak(m: map<int, int>) returns (streak: nat)
    ensures streak == Streak(m)
  {
    var days := SortDescending(m.Keys);
    streak := 0;
    var prev: Option<int> := None;
    var i := 0;
    while i < |days|
      invariant 0 <= i <= |days|
      invariant prev.None? ==> streak == 0 && forall j | 0 <= j < i :: m[days[j]] < 1
      invariant prev.Some? ==> (0 < i && days[i - 1] == prev.value && BreakDays(m) != {}
        && RunTo(m, SetMax(BreakDays(m))) == streak + RunTo(m, prev.value - 1))
    {
      var d := days[i];
      if m[d] < 1 {
        if prev.None? {
          i := i + 1;
          continue;
        }
        if d != prev.value - 1 {
          NoDayBetween(days, m, i, prev.value - 1);
        }
        return;
      }
      if prev.None? {
        FirstBreakDayIsLatest(days, m, i);
        streak := 1;
        prev := Some(d);
      } else if prev.value - d == 1 {
        streak := streak + 1;
        prev := Some(d);
      } else {
        NoDayBetween(days, m, i, prev.value - 1);
        return;
      }
      i := i + 1;
    }
    if prev.None? {
      forall k | k in m
        ensures m[k] < 1
      {
        assert k in days;
      }
      assert BreakDays(m) == {};
    } else {
      NoDayBetween(days, m, i, prev.value - 1);
    }
  }

  // ---------------------------------------------------------------------
  // The manager

  class AchievementManager {
    var stats: StatsData
    var baseKeypresses: int
    var baseClicks: int
    var baseMouseDistance: real
    var baseActiveSeconds: real
    var displayLine: Option<string>
    var displayTicksRemaining: int

    /** Build from whatever `_load` read; the loaded lifetime figures become the base. */
    constructor(parsed: Option<StatsDict>)
      ensures stats == Load(parsed)
      ensures baseKeypresses == stats.lifetimeKeypresses && baseClicks == stats.lifetimeClicks
      ensures baseMouseDistance == stats.lifetimeMouseDistance
      ensures baseActiveSeconds == stats.lifetimeActiveSeconds
      ensures displayLine == None && displayTicksRemaining == 0
    {
      stats := Load(parsed);
      baseKeypresses := Load(parsed).lifetimeKeypresses;
      baseClicks := Load(parsed).lifetimeClicks;
      baseMouseDistance := Load(parsed).lifetimeMouseDistance;
      baseActiveSeconds := Load(parsed).lifetimeActiveSeconds;
      displayLine := None;
      displayTicksRemaining := 0;
    }

    /** The stats with the lifetime figures set to base plus session totals and
        today's break count recorded. */
    function WithTotals(totals: ActivityTracker.ActivityTotals, breaksTaken: int, today: int): (s: StatsData)
      reads this
      ensures s.lifetimeKeypresses == baseKeypresses + totals.totalKeypresses
      ensures s.lifetimeClicks == baseClicks + totals.totalClicks
      ensures s.lifetimeMouseDistance == baseMouseDistance + totals.totalMouseDistance
      ensures s.lifetimeActiveSeconds == baseActiveSeconds + totals.totalActiveSeconds
      ensures s.dailyBreaks == stats.dailyBreaks[today := breaksTaken]
      ensures s.unlocked == stats.unlocked && s.breakStreak == stats.breakStreak
    {
      stats.(
        lifetimeKeypresses := baseKeypresses + totals.totalKeypresses,
        lifetimeClicks := baseClicks + totals.totalClicks,
        lifetimeMouseDistance := baseMouseDistance + totals.totalMouseDistance,
        lifetimeActiveSeconds := baseActiveSeconds + totals.totalActiveSeconds,
        dailyBreaks := stats.dailyBreaks[today := breaksTaken])
    }

    /** `_check_milestones`: walk the table in order and unlock the first
        reached milestone not yet unlocked. */
    method CheckMilestones() returns (message: Option<string>)
      modifies this
      ensures (stats, message) == Unlock(old(stats))
      ensures baseKeypresses == old(baseKeypresses) && baseClicks == old(baseClicks)
      ensures baseMouseDistance == old(baseMouseDistance) && baseActiveSeconds == old(baseActiveSeconds)
      ensures displayLine == old(displayLine) && displayTicksRemaining == old(displayTicksRemaining)
    {
      var i := 0;
      while i < |MILESTONES|
        invariant 0 <= i <= |MILESTONES|
        invariant FirstNew(stats, i) == FirstNew(stats, 0)
        invariant stats == old(stats)
      {
        var m := MILESTONES[i];
        var aid := Id(m);
        if aid !in stats.unlocked && Reached(stats, m) {
          stats := stats.(unlocked := stats.unlocked + [aid]);
          return Some(Message(m));
        }
        i := i + 1;
      }
      return None;
    }

    /** `update(totals, breaks_taken)` on day `today`. */
    method Update(totals: ActivityTracker.ActivityTotals, breaksTaken: int, today: int)
      returns (line: Option<string>)
      modifies this
      ensures var news := Unlock(old(WithTotals(totals, breaksTaken, today)));
        && stats == news.0
        && (Display(displayLine, displayTicksRemaining), line)
          == Tick(old(Display(displayLine, displayTicksRemaining)), news.1)
      ensures baseKeypresses == old(baseKeypresses) && baseClicks == old(baseClicks)
      ensures baseMouseDistance == old(baseMouseDistance) && baseActiveSeconds == old(baseActiveSeconds)
    {
      stats := WithTotals(totals, breaksTaken, today);
      var news := CheckMilestones();
      if news.Some? {
        displayLine := news;
        displayTicksRemaining := 12;
      }
      if displayTicksRemaining > 0 {
        displayTicksRemaining := displayTicksRemaining - 1;
        return displayLine;
      }
      displayLine := None;
      return None;
    }

    /** `update_break_streak`: count back from the latest break day over
        calendar-consecutive days with a break. */
    method UpdateBreakStreak()
      modifies this
      ensures stats == old(stats).(breakStreak := Streak(old(stats).dailyBreaks))
      ensures baseKeypresses == old(baseKeypresses) && baseClicks == old(baseClicks)
      ensures baseMouseDistance == old(baseMouseDistance) && baseActiveSeconds == old(baseActiveSeconds)
      ensures displayLine == old(displayLine) && displayTicksRemaining == old(displayTicksRemaining)
    {
      var streak := ComputeStreak(stats.dailyBreaks);
      stats := stats.(breakStreak := streak);
    }

    /** `format_stats_report`. */
    function Report(kmText: string, hoursText: string): (r: string)
      reads this
      ensures r == Text.Join(ReportLines(stats, kmText, hoursText), "\n")
    {
      FormatStatsReport(stats, kmText, hoursText)
    }
  }

  /** Repeating `update` with the same totals leaves the lifetime figures and
      today's break count where the first call put them. */
  method UpdateTwiceSameTotals(a: AchievementManager, totals: ActivityTracker.ActivityTotals, breaksTaken: int,
                               today: int)
    returns (first: StatsData, second: StatsData)
    modifies a
    ensures first.lifetimeKeypresses == old(a.baseKeypresses) + totals.totalKeypresses
    ensures first.lifetimeClicks == old(a.baseClicks) + totals.totalClicks
    ensures first.lifetimeMouseDistance == old(a.baseMouseDistance) + totals.totalMouseDistance
    ensures first.lifetimeActiveSeconds == old(a.baseActiveSeconds) + totals.totalActiveSeconds
    ensures today in first.dailyBreaks && first.dailyBreaks[today] == breaksTaken
    ensures second == a.stats
    ensures second.lifetimeKeypresses == first.lifetimeKeypresses && second.lifetimeClicks == first.lifetimeClicks
    ensures second.lifetimeMouseDistance == first.lifetimeMouseDistance
    ensures second.lifetimeActiveSeconds == first.lifetimeActiveSeconds
    ensures second.dailyBreaks == first.dailyBreaks
  {
    ghost var before := a.WithTotals(totals, breaksTaken, today);
    UnlockOnlyUnlocks(before);
    var _ := a.Update(totals, breaksTaken, today);
    first := a.stats;
    ghost var again := a.WithTotals(totals, breaksTaken, today);
    assert again.dailyBreaks == first.dailyBreaks;
    UnlockOnlyUnlocks(again);
    var _ := a.Update(totals, breaksTaken, today);
    second := a.stats;
  }

  /** Unlocking a milestone changes nothing but the unlocked list. */
  lemma UnlockOnlyUnlocks(s: StatsData)
    ensures Unlock(s).0.(unlocked := s.unlocked) == s
  {
  }
}
