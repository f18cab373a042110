/** Time-of-day decorations (asciipal/time_awareness.py): the hour of the
    day picks one of four periods, and each period has a two-frame line
    drawn above and below the character. The clock is the `hour` parameter. */
module TimeAwareness {
  import opened Wrappers
  import C = Config

  /** Two animation frames for the line above and the line below. */
  datatype TimeOfDayEffect = TimeOfDayEffect(above: seq<string>, below: seq<string>)

  const PERIODS: seq<string> := ["morning", "afternoon", "evening", "night"]

  const TIME_PERIODS: map<string, TimeOfDayEffect> := map[
    "morning" := TimeOfDayEffect(["\U{2600} ~ \U{2600} ~ \U{2600}", "~ \U{2600} ~ \U{2600} ~"], ["", ""]),
    "afternoon" := TimeOfDayEffect(["", ""], ["", ""]),
    "evening" := TimeOfDayEffect(["\U{263D} . \U{263D} . \U{263D}", ". \U{263D} . \U{263D} ."],
      ["~ . ~ . ~", ". ~ . ~ ."]),
    "night" := TimeOfDayEffect(["\U{2605} . \U{2605} . \U{2605}", ". \U{2605} . \U{2605} ."],
      ["z z z z z", " z z z z "])
  ]

  /** `get_period`: every hour, in range or not, lands in a period of the table. */
  function GetPeriod(hour: int): (p: string)
    ensures p in TIME_PERIODS && p in PERIODS
  {
    if 6 <= hour < 12 then "morning"
    else if 12 <= hour < 17 then "afternoon"
    else if 17 <= hour < 21 then "evening"
    else "night"
  }

  /** The periods partition the hours: 6-11 morning, 12-16 afternoon,
      17-20 evening, and every other hour (including out-of-range ones) night. */
  lemma PeriodPartition(hour: int)
    ensures GetPeriod(hour) == "morning" <==> 6 <= hour <= 11
    ensures GetPeriod(hour) == "afternoon" <==> 12 <= hour <= 16
    ensures GetPeriod(hour) == "evening" <==> 17 <= hour <= 20
    ensures GetPeriod(hour) == "night" <==> hour < 6 || hour > 20
  {
  }

  /** Both halves of an effect have exactly two frames, and the two frames
      of each half are equally wide, so the character does not jump. */
  predicate WellFormed(e: TimeOfDayEffect)
  {
    |e.above| == 2 && |e.below| == 2 && |e.above[0]| == |e.above[1]| && |e.below[0]| == |e.below[1]|
  }

  lemma TablesWellFormed()
    ensures TIME_PERIODS.Keys == set p | p in PERIODS
    ensures forall p | p in TIME_PERIODS :: WellFormed(TIME_PERIODS[p])
    ensures TIME_PERIODS["afternoon"] == TimeOfDayEffect(["", ""], ["", ""])
  {
  }

  /** `TimeAwarenessManager.current_effect(frame, now)` with `now` reduced to its hour. */
  function CurrentEffect(c: C.Config, frame: int, hour: int): (r: Option<(string, string)>)
    ensures r.None? <==> !c.timeAwarenessEnabled
    ensures r.Some? ==>
      (r.value.0 in TIME_PERIODS[GetPeriod(hour)].above && r.value.1 in TIME_PERIODS[GetPeriod(hour)].below)
    /** The frame's parity picks the same frame of both halves. */
    ensures r.Some? ==>
      r.value == (TIME_PERIODS[GetPeriod(hour)].above[frame % 2], TIME_PERIODS[GetPeriod(hour)].below[frame % 2])
  {
    if !c.timeAwarenessEnabled then None
    else
      var effect := TIME_PERIODS[GetPeriod(hour)];
      var idx := frame % 2;
      Some((effect.above[idx], effect.below[idx]))
  }

  /** The decoration only depends on the parity of the frame and the period:
      frames two apart show the same thing. */
  lemma CurrentEffectPeriodic(c: C.Config, frame: int, hour: int, hour': int)
    requires GetPeriod(hour) == GetPeriod(hour')
    ensures CurrentEffect(c, frame, hour) == CurrentEffect(c, frame + 2, hour')
    ensures CurrentEffect(c, frame, hour) == CurrentEffect(c, frame - 2, hour')
  {
    assert (frame + 2) % 2 == frame % 2;
    assert (frame - 2) % 2 == frame % 2;
  }

  /** In the afternoon the decoration is two empty lines on every frame. */
  lemma AfternoonIsPlain(c: C.Config, frame: int, hour: int)
    requires c.timeAwarenessEnabled && 12 <= hour < 17
    ensures CurrentEffect(c, frame, hour) == Some(("", ""))
  {
  }
}
