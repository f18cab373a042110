/** The widget's configuration (asciipal/config.py): the default mapping, the
    recursive merge of a user mapping over it, the validator with its exact
    rejection rules, and the typed record built from a validated mapping.
    Python's exceptions become the `ConfigError` of a `Result`. */
module Config {
  import opened Wrappers
  import Text
  import Numerals

  /** A value a YAML mapping can hold, as far as the configuration code inspects it. */
  datatype Value =
    | VNone
    | VBool(b: bool)
    | VInt(i: int)
    | VReal(r: real)
    | VStr(s: string)
    | VList(items: seq<Value>)
    | VDict(m: map<string, Value>)

  type Dict = map<string, Value>

  /** KeyError on a missing key, TypeError on an operand of the wrong kind,
      ValueError from a failed check, and the loader's "must be a mapping". */
  datatype ConfigError =
    | MissingKey(key: string)
    | WrongType(key: string)
    | Invalid(key: string)
    | NotMapping

  const POSITION_VALUES: set<string> := {
    "top-left", "top-center", "top-right",
    "center-left", "center", "center-right",
    "bottom-left", "bottom-center", "bottom-right"
  }
  const COLOR_SCHEMES: set<string> := {"default", "green-terminal", "pastel", "amber-terminal", "ocean"}
  const NOTIFICATION_LEVELS: set<string> := {"gentle", "verbose", "silent"}

  const DEFAULT_CUSTOM_ART: Dict := map[
    "idle" := VNone, "sleeping" := VNone, "watching" := VNone, "excited" := VNone,
    "dizzy" := VNone, "alarmed" := VNone, "cheering" := VNone
  ]

  const DEFAULT_CONFIG: Dict := map[
    "break_interval_minutes" := VInt(25),
    "break_duration_minutes" := VInt(5),
    "pomodoro_mode" := VBool(false),
    "pomodoro_work_minutes" := VInt(25),
    "pomodoro_break_minutes" := VInt(5),
    "typing_fast_wpm" := VInt(80),
    "rage_click_threshold" := VInt(5),
    "dizzy_mouse_speed" := VInt(700),
    "cheering_after_minutes" := VInt(45),
    "state_cooldown_seconds" := VReal(2.0),
    "idle_timeout_seconds" := VInt(10),
    "sleep_timeout_seconds" := VInt(120),
    "position" := VStr("bottom-right"),
    "character_scale" := VReal(1.0),
    "widget_mode" := VBool(true),
    "widget_opacity" := VReal(0.95),
    "color_scheme" := VStr("default"),
    "notifications" := VStr("gentle"),
    "custom_art" := VDict(DEFAULT_CUSTOM_ART),
    "weather_enabled" := VBool(false),
    "weather_location" := VStr(""),
    "weather_poll_minutes" := VInt(30),
    "time_awareness_enabled" := VBool(false),
    "system_resources_enabled" := VBool(true)
  ]

  // ---------------------------------------------------------------------
  // _deep_merge

  /** The value `_deep_merge(defaults, override)` stores under a key of `override`. */
  function MergedValue(d: Dict, o: Dict, k: string): Value
    requires k in o
    decreases VDict(o), 0
  {
    if o[k].VDict? && k in d && d[k].VDict? then
      assert o[k] in o.Values;
      VDict(DeepMerged(d[k].m, o[k].m))
    else o[k]
  }

  /** `_deep_merge(defaults, override)` as a value: every key of either
      mapping; an override value wins, except that two mappings merge recursively. */
  function DeepMerged(d: Dict, o: Dict): (r: Dict)
    ensures r.Keys == d.Keys + o.Keys
    ensures forall k | k in d && k !in o :: r[k] == d[k]
    decreases VDict(o), 1
  {
    map k | k in d.Keys + o.Keys :: if k in o then MergedValue(d, o, k) else d[k]
  }

  /** `_deep_merge`: copy the defaults, then assign each override key in turn,
      recursing where both sides hold a mapping. */
  method DeepMerge(d: Dict, o: Dict) returns (merged: Dict)
    ensures merged == DeepMerged(d, o)
    decreases VDict(o)
  {
    merged := d;
    var todo := o.Keys;
    while todo != {}
      invariant todo <= o.Keys
      invariant merged.Keys == d.Keys + (o.Keys - todo)
      invariant forall k | k in merged :: merged[k] == if k in o && k !in todo then MergedValue(d, o, k) else d[k]
      decreases todo
    {
      var k :| k in todo;
      var value := o[k];
      if value.VDict? && k in merged && merged[k].VDict? {
        assert merged[k] == d[k];
        assert value in o.Values;
        var sub := DeepMerge(merged[k].m, value.m);
        merged := merged[k := VDict(sub)];
      } else {
        merged := merged[k := value];
      }
      todo := todo - {k};
    }
  }

  /** Merging nothing over the defaults leaves them as they are. */
  lemma MergeWithEmpty(d: Dict)
    ensures DeepMerged(d, map[]) == d
  {
  }

  /** Merging a mapping over itself gives it back, at every depth. */
  lemma {:induction false} MergeSelf(d: Dict)
    ensures DeepMerged(d, d) == d
    decreases VDict(d)
  {
    forall k | k in d
      ensures MergedValue(d, d, k) == d[k]
    {
      if d[k].VDict? {
        assert d[k] in d.Values;
        MergeSelf(d[k].m);
      }
    }
  }

  /** Applying the same override twice changes nothing after the first time. */
  lemma {:induction false} MergeIdempotent(d: Dict, o: Dict)
    ensures DeepMerged(DeepMerged(d, o), o) == DeepMerged(d, o)
    decreases VDict(o)
  {
    var once := DeepMerged(d, o);
    forall k | k in o
      ensures MergedValue(once, o, k) == once[k]
    {
      if o[k].VDict? {
        assert o[k] in o.Values;
        if k in d && d[k].VDict? {
          MergeIdempotent(d[k].m, o[k].m);
        } else {
          MergeSelf(o[k].m);
        }
      }
    }
  }

  // ---------------------------------------------------------------------
  // validate_config

  function Get(data: Dict, key: string): (r: Result<Value, ConfigError>)
    ensures r.Success? <==> key in data
    ensures r.Success? ==> r.value == data[key]
    ensures r.Failure? ==> r.error == MissingKey(key)
  {
    if key in data then Success(data[key]) else Failure(MissingKey(key))
  }

  /** Values Python can compare with a number: int, float and bool (an int). */
  predicate IsNumber(v: Value)
  {
    v.VInt? || v.VReal? || v.VBool?
  }

  function NumberOf(v: Value): real
    requires IsNumber(v)
  {
    match v
    case VInt(i) => i as real
    case VReal(r) => r
    case VBool(b) => if b then 1.0 else 0.0
  }

  function Num(key: string, v: Value): (r: Result<real, ConfigError>)
    ensures r.Success? <==> IsNumber(v)
    ensures r.Success? ==> r.value == NumberOf(v)
    ensures r.Failure? ==> r.error == WrongType(key)
  {
    if IsNumber(v) then Success(NumberOf(v)) else Failure(WrongType(key))
  }

  /** Python's `float(v)`: a number converts, text is read as a decimal
      literal (`ValueError` when it is not one), and anything else is a
      `TypeError`. */
  function ToFloat(key: string, v: Value): (r: Result<Numerals.Float, ConfigError>)
    ensures IsNumber(v) ==> r == Success(Numerals.Finite(NumberOf(v)))
    ensures v.VStr? ==> (r.Success? <==> Numerals.ParseFloat(v.s).Some?)
    ensures v.VStr? && r.Success? ==> r.value == Numerals.ParseFloat(v.s).value
    ensures r.Failure? ==> r.error == if v.VStr? then Invalid(key) else WrongType(key)
  {
    match v
    case VStr(s) =>
      (match Numerals.ParseFloat(s)
       case Some(f) => Success(f)
       case None => Failure(Invalid(key)))
    case _ => if IsNumber(v) then Success(Numerals.Finite(NumberOf(v))) else Failure(WrongType(key))
  }

  /** `0.2 <= x <= 1.0`: false for NaN and the infinities, as Python compares them. */
  predicate OpacityInRange(f: Numerals.Float)
  {
    f.Finite? && 0.2 <= f.r <= 1.0
  }

  /** An opacity setting `float()` reads and that lies in [0.2, 1.0]. */
  predicate OpacityOk(v: Value)
  {
    ToFloat("widget_opacity", v).Success? && OpacityInRange(ToFloat("widget_opacity", v).value)
  }

  /** `if data[key] <= 0: raise ValueError`. */
  function CheckPositive(data: Dict, key: string): Result<(), ConfigError>
  {
    var v :- Get(data, key);
    var x :- Num(key, v);
    if x <= 0.0 then Failure(Invalid(key)) else Success(())
  }

  /** `if data[key] not in allowed: raise ValueError`: a string is looked up,
      a list or mapping is unhashable, any other value is simply absent. */
  function CheckMember(data: Dict, key: string, allowed: set<string>): Result<(), ConfigError>
  {
    var v :- Get(data, key);
    match v
    case VStr(s) => if s in allowed then Success(()) else Failure(Invalid(key))
    case VList(_) => Failure(WrongType(key))
    case VDict(_) => Failure(WrongType(key))
    case _ => Failure(Invalid(key))
  }

  /** A membership rule passes exactly when the key holds one of the allowed strings;
      a list or mapping is a type error, anything else a value error. */
  lemma CheckMemberMeaning(data: Dict, key: string, allowed: set<string>)
    ensures CheckMember(data, key, allowed).Success? <==>
      key in data && data[key].VStr? && data[key].s in allowed
    ensures key in data && (data[key].VList? || data[key].VDict?) ==>
      CheckMember(data, key, allowed) == Failure(WrongType(key))
    ensures key in data && !data[key].VStr? && !data[key].VList? && !data[key].VDict? ==>
      CheckMember(data, key, allowed) == Failure(Invalid(key))
  {
  }

  /** `validate_config`: the rules in source order; the first that fails decides. */
  function Validate(data: Dict): Result<(), ConfigError>
  {
    var _ :- CheckPositive(data, "break_interval_minutes");
    var _ :- CheckPositive(data, "break_duration_minutes");
    var _ :- CheckPositive(data, "pomodoro_work_minutes");
    var _ :- CheckPositive(data, "pomodoro_break_minutes");
    var _ :- CheckPositive(data, "typing_fast_wpm");
    var _ :- CheckPositive(data, "rage_click_threshold");
    var _ :- CheckPositive(data, "dizzy_mouse_speed");
    var _ :- CheckPositive(data, "cheering_after_minutes");
    var cooldownValue :- Get(data, "state_cooldown_seconds");
    var cooldown :- Num("state_cooldown_seconds", cooldownValue);
    var _ :- if cooldown < 0.0 then Failure(Invalid("state_cooldown_seconds")) else Success(());
    var _ :- CheckPositive(data, "idle_timeout_seconds");
    var sleepValue :- Get(data, "sleep_timeout_seconds");
    var sleep :- Num("sleep_timeout_seconds", sleepValue);
    var idle := NumberOf(data["idle_timeout_seconds"]);
    var _ :- if sleep <= idle then Failure(Invalid("sleep_timeout_seconds")) else Success(());
    var _ :- CheckMember(data, "position", POSITION_VALUES);
    var _ :- CheckPositive(data, "character_scale");
    var opacityValue :- Get(data, "widget_opacity");
    var opacity :- ToFloat("widget_opacity", opacityValue);
    var _ :- if !OpacityInRange(opacity) then Failure(Invalid("widget_opacity")) else Success(());
    var _ :- CheckMember(data, "color_scheme", COLOR_SCHEMES);
    var _ :- CheckMember(data, "notifications", NOTIFICATION_LEVELS);
    var art :- Get(data, "custom_art");
    if art.VDict? then Success(()) else Failure(Invalid("custom_art"))
  }

  const POSITIVE_KEYS: set<string> := {
    "break_interval_minutes", "break_duration_minutes", "pomodoro_work_minutes",
    "pomodoro_break_minutes", "typing_fast_wpm", "rage_click_threshold",
    "dizzy_mouse_speed", "cheering_after_minutes", "idle_timeout_seconds", "character_scale"
  }

  predicate NumberAt(data: Dict, key: string)
  {
    key in data && IsNumber(data[key])
  }

  predicate StringIn(data: Dict, key: string, allowed: set<string>)
  {
    key in data && data[key].VStr? && data[key].s in allowed
  }

  /** The rules a configuration mapping must satisfy, stated all at once. */
  predicate Acceptable(data: Dict)
  {
    && (forall k | k in POSITIVE_KEYS :: NumberAt(data, k) && NumberOf(data[k]) > 0.0)
    && NumberAt(data, "state_cooldown_seconds") && NumberOf(data["state_cooldown_seconds"]) >= 0.0
    && NumberAt(data, "sleep_timeout_seconds")
    && NumberOf(data["sleep_timeout_seconds"]) > NumberOf(data["idle_timeout_seconds"])
    && StringIn(data, "position", POSITION_VALUES)
    && "widget_opacity" in data && OpacityOk(data["widget_opacity"])
    && StringIn(data, "color_scheme", COLOR_SCHEMES)
    && StringIn(data, "notifications", NOTIFICATION_LEVELS)
    && "custom_art" in data && data["custom_art"].VDict?
  }

  lemma CheckPositiveMeaning(data: Dict, key: string)
    ensures CheckPositive(data, key).Success? <==> NumberAt(data, key) && NumberOf(data[key]) > 0.0
  {
  }

  /** `validate_config` accepts exactly the mappings that satisfy every rule. */
  lemma ValidateExactly(data: Dict)
    ensures Validate(data).Success? <==> Acceptable(data)
  {
    if Acceptable(data) {
      AcceptableValidates(data);
    }
    if Validate(data).Success? {
      ValidatedAcceptable(data);
    }
  }

  lemma AcceptableValidates(data: Dict)
    requires Acceptable(data)
    ensures Validate(data).Success?
  {
    forall k | k in POSITIVE_KEYS
      ensures CheckPositive(data, k).Success?
    {
      CheckPositiveMeaning(data, k);
    }
    assert CheckPositive(data, "break_interval_minutes").Success?;
    assert CheckPositive(data, "break_duration_minutes").Success?;
    assert CheckPositive(data, "pomodoro_work_minutes").Success?;
    assert CheckPositive(data, "pomodoro_break_minutes").Success?;
    assert CheckPositive(data, "typing_fast_wpm").Success?;
    assert CheckPositive(data, "rage_click_threshold").Success?;
    assert CheckPositive(data, "dizzy_mouse_speed").Success?;
    assert CheckPositive(data, "cheering_after_minutes").Success?;
    assert CheckPositive(data, "idle_timeout_seconds").Success?;
    assert CheckPositive(data, "character_scale").Success?;
  }

  lemma ValidatedAcceptable(data: Dict)
    requires Validate(data).Success?
    ensures Acceptable(data)
  {
    assert CheckPositive(data, "break_interval_minutes").Success?;
    assert CheckPositive(data, "break_duration_minutes").Success?;
    assert CheckPositive(data, "pomodoro_work_minutes").Success?;
    assert CheckPositive(data, "pomodoro_break_minutes").Success?;
    assert CheckPositive(data, "typing_fast_wpm").Success?;
    assert CheckPositive(data, "rage_click_threshold").Success?;
    assert CheckPositive(data, "dizzy_mouse_speed").Success?;
    assert CheckPositive(data, "cheering_after_minutes").Success?;
    assert CheckPositive(data, "idle_timeout_seconds").Success?;
    assert CheckPositive(data, "character_scale").Success?;
    forall k | k in POSITIVE_KEYS
      ensures NumberAt(data, k) && NumberOf(data[k]) > 0.0
    {
      CheckPositiveMeaning(data, k);
    }
  }

  /** A sleep timeout that does not exceed the idle timeout is rejected. */
  lemma RejectsSleepNotAfterIdle(data: Dict)
    requires NumberAt(data, "sleep_timeout_seconds") && NumberAt(data, "idle_timeout_seconds")
    requires NumberOf(data["sleep_timeout_seconds"]) <= NumberOf(data["idle_timeout_seconds"])
    ensures Validate(data).Failure?
  {
    ValidateExactly(data);
  }

  /** A negative cooldown is rejected. */
  lemma RejectsNegativeCooldown(data: Dict)
    requires NumberAt(data, "state_cooldown_seconds") && NumberOf(data["state_cooldown_seconds"]) < 0.0
    ensures Validate(data).Failure?
  {
    ValidateExactly(data);
  }

  /** Any cooldown of 0 or more, 0 included, is accepted with the other defaults. */
  lemma AcceptsNonNegativeCooldown(x: real)
    requires x >= 0.0
    ensures Validate(DEFAULT_CONFIG["state_cooldown_seconds" := VReal(x)]).Success?
  {
    DefaultAcceptable();
    AcceptableWithCooldown(DEFAULT_CONFIG, x);
    ValidateExactly(DEFAULT_CONFIG["state_cooldown_seconds" := VReal(x)]);
  }

  /** The cooldown key is none of the other keys `Acceptable` reads. */
  lemma CooldownKeyApart()
    ensures "state_cooldown_seconds" !in POSITIVE_KEYS
    ensures "state_cooldown_seconds" !in {"sleep_timeout_seconds", "idle_timeout_seconds", "position",
      "widget_opacity", "color_scheme", "notifications", "custom_art"}
  {
  }

  /** Replacing the cooldown by another admissible number keeps a mapping acceptable. */
  lemma AcceptableWithCooldown(data: Dict, x: real)
    requires Acceptable(data)
    requires x >= 0.0
    ensures Acceptable(data["state_cooldown_seconds" := VReal(x)])
  {
    var updated := data["state_cooldown_seconds" := VReal(x)];
    CooldownKeyApart();
    forall k | k in POSITIVE_KEYS
      ensures updated[k] == data[k]
    {
    }
    assert updated["sleep_timeout_seconds"] == data["sleep_timeout_seconds"];
    assert updated["idle_timeout_seconds"] == data["idle_timeout_seconds"];
    assert updated["position"] == data["position"];
    assert updated["widget_opacity"] == data["widget_opacity"];
    assert updated["color_scheme"] == data["color_scheme"];
    assert updated["notifications"] == data["notifications"];
    assert updated["custom_art"] == data["custom_art"];
    assert updated["state_cooldown_seconds"] == VReal(x);
  }

  /** An opacity outside [0.2, 1.0] is rejected. */
  lemma RejectsOpacityOutOfRange(data: Dict)
    requires NumberAt(data, "widget_opacity")
    requires !(0.2 <= NumberOf(data["widget_opacity"]) <= 1.0)
    ensures Validate(data).Failure?
  {
    ValidateExactly(data);
  }

  /** Every opacity in [0.2, 1.0], both bounds included, is accepted with the other defaults. */
  lemma AcceptsOpacityInRange(x: real)
    requires 0.2 <= x <= 1.0
    ensures Validate(DEFAULT_CONFIG["widget_opacity" := VReal(x)]).Success?
  {
    DefaultAcceptable();
    AcceptableWithOpacity(DEFAULT_CONFIG, VReal(x));
    ValidateExactly(DEFAULT_CONFIG["widget_opacity" := VReal(x)]);
  }

  /** Text that `float()` reads as a number in [0.2, 1.0] is an accepted opacity too. */
  lemma AcceptsOpacityText(s: string)
    requires Numerals.ParseFloat(s).Some? && OpacityInRange(Numerals.ParseFloat(s).value)
    ensures Validate(DEFAULT_CONFIG["widget_opacity" := VStr(s)]).Success?
  {
    DefaultAcceptable();
    AcceptableWithOpacity(DEFAULT_CONFIG, VStr(s));
    ValidateExactly(DEFAULT_CONFIG["widget_opacity" := VStr(s)]);
  }

  /** For instance the text "0.5". */
  lemma AcceptsHalfOpacityText()
    ensures Validate(DEFAULT_CONFIG["widget_opacity" := VStr("0.5")]).Success?
  {
    Numerals.HalfSample();
    AcceptsOpacityText("0.5");
  }

  /** An opacity text `float()` cannot read is a `ValueError`, as is NaN or an infinity. */
  lemma RejectsOpacityText(data: Dict, s: string)
    requires "widget_opacity" in data && data["widget_opacity"] == VStr(s)
    requires Numerals.ParseFloat(s).None? || !OpacityInRange(Numerals.ParseFloat(s).value)
    ensures Validate(data).Failure?
  {
    ValidateExactly(data);
  }

  /** Replacing the opacity by another admissible value keeps a mapping acceptable. */
  lemma AcceptableWithOpacity(data: Dict, v: Value)
    requires Acceptable(data)
    requires OpacityOk(v)
    ensures Acceptable(data["widget_opacity" := v])
  {
    var updated := data["widget_opacity" := v];
    forall k | k in POSITIVE_KEYS
      ensures updated[k] == data[k]
    {
    }
    assert updated["state_cooldown_seconds"] == data["state_cooldown_seconds"];
    assert updated["sleep_timeout_seconds"] == data["sleep_timeout_seconds"];
    assert updated["idle_timeout_seconds"] == data["idle_timeout_seconds"];
    assert updated["position"] == data["position"];
    assert updated["color_scheme"] == data["color_scheme"];
    assert updated["notifications"] == data["notifications"];
    assert updated["custom_art"] == data["custom_art"];
    assert updated["widget_opacity"] == v;
  }

  /** Position, colour scheme and notification level must come from their fixed sets. */
  lemma RejectsUnknownChoices(data: Dict)
    requires !StringIn(data, "position", POSITION_VALUES)
      || !StringIn(data, "color_scheme", COLOR_SCHEMES)
      || !StringIn(data, "notifications", NOTIFICATION_LEVELS)
    ensures Validate(data).Failure?
  {
    ValidateExactly(data);
  }

  /** The numeric entries of the default mapping, in three groups. */
  lemma DefaultBreakNumbers()
    ensures "break_interval_minutes" in DEFAULT_CONFIG && DEFAULT_CONFIG["break_interval_minutes"] == VInt(25)
    ensures "break_duration_minutes" in DEFAULT_CONFIG && DEFAULT_CONFIG["break_duration_minutes"] == VInt(5)
    ensures "pomodoro_work_minutes" in DEFAULT_CONFIG && DEFAULT_CONFIG["pomodoro_work_minutes"] == VInt(25)
    ensures "pomodoro_break_minutes" in DEFAULT_CONFIG && DEFAULT_CONFIG["pomodoro_break_minutes"] == VInt(5)
  {
    DefaultIntervals();
    DefaultPomodoro();
  }

  lemma DefaultIntervals()
    ensures "break_interval_minutes" in DEFAULT_CONFIG && DEFAULT_CONFIG["break_interval_minutes"] == VInt(25)
    ensures "break_duration_minutes" in DEFAULT_CONFIG && DEFAULT_CONFIG["break_duration_minutes"] == VInt(5)
  {
  }

  lemma DefaultPomodoro()
    ensures "pomodoro_work_minutes" in DEFAULT_CONFIG && DEFAULT_CONFIG["pomodoro_work_minutes"] == VInt(25)
    ensures "pomodoro_break_minutes" in DEFAULT_CONFIG && DEFAULT_CONFIG["pomodoro_break_minutes"] == VInt(5)
  {
  }

  lemma DefaultActivityNumbers()
    ensures "typing_fast_wpm" in DEFAULT_CONFIG && DEFAULT_CONFIG["typing_fast_wpm"] == VInt(80)
    ensures "rage_click_threshold" in DEFAULT_CONFIG && DEFAULT_CONFIG["rage_click_threshold"] == VInt(5)
    ensures "dizzy_mouse_speed" in DEFAULT_CONFIG && DEFAULT_CONFIG["dizzy_mouse_speed"] == VInt(700)
    ensures "cheering_after_minutes" in DEFAULT_CONFIG && DEFAULT_CONFIG["cheering_after_minutes"] == VInt(45)
  {
    DefaultInputNumbers();
    DefaultPraiseNumbers();
  }

  lemma DefaultInputNumbers()
    ensures "typing_fast_wpm" in DEFAULT_CONFIG && DEFAULT_CONFIG["typing_fast_wpm"] == VInt(80)
    ensures "rage_click_threshold" in DEFAULT_CONFIG && DEFAULT_CONFIG["rage_click_threshold"] == VInt(5)
  {
  }

  lemma DefaultPraiseNumbers()
    ensures "dizzy_mouse_speed" in DEFAULT_CONFIG && DEFAULT_CONFIG["dizzy_mouse_speed"] == VInt(700)
    ensures "cheering_after_minutes" in DEFAULT_CONFIG && DEFAULT_CONFIG["cheering_after_minutes"] == VInt(45)
  {
  }

  lemma DefaultTimingNumbers()
    ensures "state_cooldown_seconds" in DEFAULT_CONFIG && DEFAULT_CONFIG["state_cooldown_seconds"] == VReal(2.0)
    ensures "idle_timeout_seconds" in DEFAULT_CONFIG && DEFAULT_CONFIG["idle_timeout_seconds"] == VInt(10)
    ensures "sleep_timeout_seconds" in DEFAULT_CONFIG && DEFAULT_CONFIG["sleep_timeout_seconds"] == VInt(120)
    ensures "character_scale" in DEFAULT_CONFIG && DEFAULT_CONFIG["character_scale"] == VReal(1.0)
    ensures "widget_opacity" in DEFAULT_CONFIG && DEFAULT_CONFIG["widget_opacity"] == VReal(0.95)
  {
    DefaultTimeouts();
    DefaultLookNumbers();
  }

  lemma DefaultTimeouts()
    ensures "state_cooldown_seconds" in DEFAULT_CONFIG && DEFAULT_CONFIG["state_cooldown_seconds"] == VReal(2.0)
    ensures "idle_timeout_seconds" in DEFAULT_CONFIG && DEFAULT_CONFIG["idle_timeout_seconds"] == VInt(10)
    ensures "sleep_timeout_seconds" in DEFAULT_CONFIG && DEFAULT_CONFIG["sleep_timeout_seconds"] == VInt(120)
  {
  }

  lemma DefaultLookNumbers()
    ensures "character_scale" in DEFAULT_CONFIG && DEFAULT_CONFIG["character_scale"] == VReal(1.0)
    ensures "widget_opacity" in DEFAULT_CONFIG && DEFAULT_CONFIG["widget_opacity"] == VReal(0.95)
  {
  }

  /** Every key with a `> 0` rule has a positive number by default. */
  lemma DefaultPositive()
    ensures forall k | k in POSITIVE_KEYS :: NumberAt(DEFAULT_CONFIG, k) && NumberOf(DEFAULT_CONFIG[k]) > 0.0
  {
    DefaultBreakNumbers();
    DefaultActivityNumbers();
    DefaultTimingNumbers();
  }

  /** Every key read with `int()` holds an integer by default. */
  lemma DefaultIntegers()
    ensures forall k | k in INT_KEYS :: k in DEFAULT_CONFIG && DEFAULT_CONFIG[k].VInt?
  {
    DefaultBreakNumbers();
    DefaultActivityNumbers();
    DefaultTimingNumbers();
  }

  lemma DefaultNumbers()
    ensures forall k | k in POSITIVE_KEYS :: NumberAt(DEFAULT_CONFIG, k) && NumberOf(DEFAULT_CONFIG[k]) > 0.0
    ensures forall k | k in INT_KEYS :: k in DEFAULT_CONFIG && DEFAULT_CONFIG[k].VInt?
    ensures "state_cooldown_seconds" in DEFAULT_CONFIG && DEFAULT_CONFIG["state_cooldown_seconds"] == VReal(2.0)
    ensures "idle_timeout_seconds" in DEFAULT_CONFIG && DEFAULT_CONFIG["idle_timeout_seconds"] == VInt(10)
    ensures "sleep_timeout_seconds" in DEFAULT_CONFIG && DEFAULT_CONFIG["sleep_timeout_seconds"] == VInt(120)
    ensures "widget_opacity" in DEFAULT_CONFIG && DEFAULT_CONFIG["widget_opacity"] == VReal(0.95)
  {
    DefaultPositive();
    DefaultIntegers();
    DefaultTimeouts();
    DefaultLookNumbers();
  }

  /** The defaults for where and how the widget shows. */
  lemma DefaultLooks()
    ensures "position" in DEFAULT_CONFIG && DEFAULT_CONFIG["position"] == VStr("bottom-right")
    ensures "color_scheme" in DEFAULT_CONFIG && DEFAULT_CONFIG["color_scheme"] == VStr("default")
    ensures "notifications" in DEFAULT_CONFIG && DEFAULT_CONFIG["notifications"] == VStr("gentle")
    ensures "custom_art" in DEFAULT_CONFIG && DEFAULT_CONFIG["custom_art"] == VDict(DEFAULT_CUSTOM_ART)
  {
  }

  /** The default on/off switches. */
  lemma DefaultSwitches()
    ensures "pomodoro_mode" in DEFAULT_CONFIG && DEFAULT_CONFIG["pomodoro_mode"] == VBool(false)
    ensures "widget_mode" in DEFAULT_CONFIG && DEFAULT_CONFIG["widget_mode"] == VBool(true)
    ensures "time_awareness_enabled" in DEFAULT_CONFIG && DEFAULT_CONFIG["time_awareness_enabled"] == VBool(false)
    ensures "system_resources_enabled" in DEFAULT_CONFIG && DEFAULT_CONFIG["system_resources_enabled"] == VBool(true)
  {
  }

  /** The default weather settings: off, no location, a 30-minute poll. */
  lemma DefaultWeather()
    ensures "weather_enabled" in DEFAULT_CONFIG && DEFAULT_CONFIG["weather_enabled"] == VBool(false)
    ensures "weather_location" in DEFAULT_CONFIG && DEFAULT_CONFIG["weather_location"] == VStr("")
    ensures "weather_poll_minutes" in DEFAULT_CONFIG && DEFAULT_CONFIG["weather_poll_minutes"] == VInt(30)
  {
  }

  /** The remaining entries of the default mapping. */
  lemma DefaultChoices()
    ensures "position" in DEFAULT_CONFIG && DEFAULT_CONFIG["position"] == VStr("bottom-right")
    ensures "color_scheme" in DEFAULT_CONFIG && DEFAULT_CONFIG["color_scheme"] == VStr("default")
    ensures "notifications" in DEFAULT_CONFIG && DEFAULT_CONFIG["notifications"] == VStr("gentle")
    ensures "custom_art" in DEFAULT_CONFIG && DEFAULT_CONFIG["custom_art"] == VDict(DEFAULT_CUSTOM_ART)
    ensures "pomodoro_mode" in DEFAULT_CONFIG && DEFAULT_CONFIG["pomodoro_mode"] == VBool(false)
    ensures "widget_mode" in DEFAULT_CONFIG && DEFAULT_CONFIG["widget_mode"] == VBool(true)
    ensures "weather_enabled" in DEFAULT_CONFIG && DEFAULT_CONFIG["weather_enabled"] == VBool(false)
    ensures "weather_location" in DEFAULT_CONFIG && DEFAULT_CONFIG["weather_location"] == VStr("")
    ensures "weather_poll_minutes" in DEFAULT_CONFIG && DEFAULT_CONFIG["weather_poll_minutes"] == VInt(30)
    ensures "time_awareness_enabled" in DEFAULT_CONFIG && DEFAULT_CONFIG["time_awareness_enabled"] == VBool(false)
    ensures "system_resources_enabled" in DEFAULT_CONFIG && DEFAULT_CONFIG["system_resources_enabled"] == VBool(true)
  {
    DefaultLooks();
    DefaultSwitches();
    DefaultWeather();
  }

  lemma DefaultAcceptable()
    ensures Acceptable(DEFAULT_CONFIG)
  {
    DefaultPositive();
    DefaultTimingsAllowed();
    DefaultChoicesAllowed();
  }

  /** The default cooldown, timeouts and opacity keep their rules. */
  lemma DefaultTimingsAllowed()
    ensures NumberAt(DEFAULT_CONFIG, "state_cooldown_seconds") && NumberOf(DEFAULT_CONFIG["state_cooldown_seconds"]) >= 0.0
    ensures NumberAt(DEFAULT_CONFIG, "sleep_timeout_seconds")
    ensures "idle_timeout_seconds" in DEFAULT_CONFIG && IsNumber(DEFAULT_CONFIG["idle_timeout_seconds"])
    ensures NumberOf(DEFAULT_CONFIG["sleep_timeout_seconds"]) > NumberOf(DEFAULT_CONFIG["idle_timeout_seconds"])
    ensures "widget_opacity" in DEFAULT_CONFIG && OpacityOk(DEFAULT_CONFIG["widget_opacity"])
  {
    DefaultTimeouts();
    DefaultLookNumbers();
  }

  /** The default position, scheme and notification level are allowed ones,
      and the custom art is a mapping. */
  lemma DefaultChoicesAllowed()
    ensures StringIn(DEFAULT_CONFIG, "position", POSITION_VALUES)
    ensures StringIn(DEFAULT_CONFIG, "color_scheme", COLOR_SCHEMES)
    ensures StringIn(DEFAULT_CONFIG, "notifications", NOTIFICATION_LEVELS)
    ensures "custom_art" in DEFAULT_CONFIG && DEFAULT_CONFIG["custom_art"].VDict?
  {
    DefaultLooks();
  }

  /** The shipped defaults pass validation. */
  lemma DefaultConfigValid()
    ensures Validate(DEFAULT_CONFIG).Success?
  {
    DefaultAcceptable();
    ValidateExactly(DEFAULT_CONFIG);
  }

  // ---------------------------------------------------------------------
  // Config.from_dict

  datatype Config = Config(
    breakIntervalMinutes: int,
    breakDurationMinutes: int,
    pomodoroMode: bool,
    pomodoroWorkMinutes: int,
    pomodoroBreakMinutes: int,
    typingFastWpm: int,
    rageClickThreshold: int,
    dizzyMouseSpeed: real,
    cheeringAfterMinutes: int,
    stateCooldownSeconds: real,
    idleTimeoutSeconds: int,
    sleepTimeoutSeconds: int,
    position: string,
    characterScale: real,
    widgetMode: bool,
    widgetOpacity: real,
    colorScheme: string,
    notifications: string,
    customArt: Dict,
    weatherEnabled: bool,
    weatherLocation: string,
    weatherPollMinutes: int,
    timeAwarenessEnabled: bool,
    systemResourcesEnabled: bool)

  /** Python's `int(v)`: an integer or bool as it is, a float truncated, text
      read as a decimal integer literal (`ValueError` when it is not one), and
      anything else a `TypeError`. */
  function ToInt(key: string, v: Value): (r: Result<int, ConfigError>)
    ensures IsNumber(v) ==> r == Success(IntOf(v))
    ensures v.VStr? ==> (r.Success? <==> Numerals.ParseInt(v.s).Some?)
    ensures v.VStr? && r.Success? ==> r.value == Numerals.ParseInt(v.s).value
    ensures r.Failure? ==> r.error == if v.VStr? then Invalid(key) else WrongType(key)
  {
    match v
    case VInt(i) => Success(i)
    case VBool(b) => Success(if b then 1 else 0)
    case VReal(r) => Success(Text.Trunc(r))
    case VStr(s) =>
      (match Numerals.ParseInt(s)
       case Some(n) => Success(n)
       case None => Failure(Invalid(key)))
    case _ => Failure(WrongType(key))
  }

  /** Python's `bool(v)`: truthiness. */
  function Truthy(v: Value): bool
  {
    match v
    case VNone => false
    case VBool(b) => b
    case VInt(i) => i != 0
    case VReal(r) => r != 0.0
    case VStr(s) => s != ""
    case VList(items) => items != []
    case VDict(m) => m != map[]
  }

  /** Python's `str(v)`, which never fails. Text, `None`, booleans, integers
      and integral floats below 10^16 are written as Python writes them; other
      floats, lists and mappings get a fixed stand-in text. */
  function ToStr(v: Value): (r: string)
    ensures v.VStr? ==> r == v.s
    ensures v.VInt? ==> Numerals.ParseInt(r) == Some(v.i)
    ensures v.VReal? && v.r == v.r.Floor as real && -1.0e16 < v.r < 1.0e16
      ==> r == Text.IntToString(v.r.Floor) + ".0"
  {
    match v
    case VStr(s) => s
    case VNone => "None"
    case VBool(b) => if b then "True" else "False"
    case VInt(i) => Numerals.IntRoundTrip(i); Text.IntToString(i)
    case VReal(x) =>
      if x == x.Floor as real && -1.0e16 < x < 1.0e16 then Text.IntToString(x.Floor) + ".0" else "<float>"
    case VList(_) => "<list>"
    case VDict(_) => "<dict>"
  }

  /** A field converted with `int()`: missing keys are reported by name. */
  function IntField(data: Dict, key: string): Result<int, ConfigError>
  {
    var v :- Get(data, key);
    ToInt(key, v)
  }

  /** A field converted with `bool()`: only a missing key fails. */
  function BoolField(data: Dict, key: string): Result<bool, ConfigError>
  {
    var v :- Get(data, key);
    Success(Truthy(v))
  }

  /** A field converted with `str()`: only a missing key fails, and text is kept. */
  function StrField(data: Dict, key: string): Result<string, ConfigError>
  {
    var v :- Get(data, key);
    Success(ToStr(v))
  }

  /** What the three field readers return: `int()`, `bool()` and `str()` of
      the setting, or the missing key. */
  lemma FieldReads(data: Dict, key: string)
    ensures key !in data ==> IntField(data, key) == Failure(MissingKey(key))
    ensures key in data ==> IntField(data, key) == ToInt(key, data[key])
    ensures key in data && IsNumber(data[key]) ==> IntField(data, key) == Success(IntOf(data[key]))
    ensures BoolField(data, key).Success? <==> key in data
    ensures BoolField(data, key).Success? ==> BoolField(data, key).value == Truthy(data[key])
    ensures BoolField(data, key).Failure? ==> BoolField(data, key).error == MissingKey(key)
    ensures StrField(data, key).Success? <==> key in data
    ensures StrField(data, key).Success? ==> StrField(data, key).value == ToStr(data[key])
    ensures StrField(data, key).Success? && data[key].VStr? ==> StrField(data, key).value == data[key].s
    ensures StrField(data, key).Failure? ==> StrField(data, key).error == MissingKey(key)
  {
  }

  /** The opacity `float()` reads from a setting validation has accepted. */
  function OpacityOf(v: Value): (x: real)
    requires OpacityOk(v)
    ensures 0.2 <= x <= 1.0
  {
    ToFloat("widget_opacity", v).value.r
  }

  /** `int(v)` of a value validation has already found to be a number. */
  function IntOf(v: Value): int
    requires IsNumber(v)
  {
    match v
    case VInt(i) => i
    case VBool(b) => if b then 1 else 0
    case VReal(r) => Text.Trunc(r)
  }

  /** `max(5, n)`. */
  function Max5(n: int): (r: int)
    ensures r >= 5 && r >= n
    ensures r == 5 || r == n
  {
    if n > 5 then n else 5
  }

  /** `Config.from_dict`: validate, then convert every field; the poll interval
      is raised to at least 5 minutes. Fields validation has checked cannot
      fail to convert; the others can still be missing or of the wrong kind. */
  function FromDict(data: Dict): (r: Result<Config, ConfigError>)
    ensures r.Success? ==> Validate(data).Success?
    ensures r.Success? ==> r.value.weatherPollMinutes >= 5
    ensures r.Success? ==> (r.value.position in POSITION_VALUES
      && r.value.colorScheme in COLOR_SCHEMES && r.value.notifications in NOTIFICATION_LEVELS)
    ensures r.Success? ==> (r.value.stateCooldownSeconds >= 0.0
      && 0.2 <= r.value.widgetOpacity <= 1.0 && r.value.characterScale > 0.0)
    ensures r.Success? ==> "weather_location" in data && r.value.weatherLocation == ToStr(data["weather_location"])
    ensures r.Success? ==> ("weather_poll_minutes" in data
      && ToInt("weather_poll_minutes", data["weather_poll_minutes"]).Success?
      && r.value.weatherPollMinutes == Max5(ToInt("weather_poll_minutes", data["weather_poll_minutes"]).value))
    ensures r.Success? ==> "weather_enabled" in data && r.value.weatherEnabled == Truthy(data["weather_enabled"])
    ensures r.Success? ==> ("widget_opacity" in data && OpacityOk(data["widget_opacity"])
      && r.value.widgetOpacity == ToFloat("widget_opacity", data["widget_opacity"]).value.r)
  {
    var _ :- Validate(data);
    ValidateExactly(data);
    assert "break_interval_minutes" in POSITIVE_KEYS && "character_scale" in POSITIVE_KEYS;
    var pomodoro :- BoolField(data, "pomodoro_mode");
    var widget :- BoolField(data, "widget_mode");
    var weather :- BoolField(data, "weather_enabled");
    var location :- StrField(data, "weather_location");
    var poll :- IntField(data, "weather_poll_minutes");
    var timeAware :- BoolField(data, "time_awareness_enabled");
    var resources :- BoolField(data, "system_resources_enabled");
    Success(Config(
      IntOf(data["break_interval_minutes"]),
      IntOf(data["break_duration_minutes"]),
      pomodoro,
      IntOf(data["pomodoro_work_minutes"]),
      IntOf(data["pomodoro_break_minutes"]),
      IntOf(data["typing_fast_wpm"]),
      IntOf(data["rage_click_threshold"]),
      NumberOf(data["dizzy_mouse_speed"]),
      IntOf(data["cheering_after_minutes"]),
      NumberOf(data["state_cooldown_seconds"]),
      IntOf(data["idle_timeout_seconds"]),
      IntOf(data["sleep_timeout_seconds"]),
      data["position"].s,
      NumberOf(data["character_scale"]),
      widget,
      OpacityOf(data["widget_opacity"]),
      data["color_scheme"].s,
      data["notifications"].s,
      data["custom_art"].m,
      weather,
      location,
      Max5(poll),
      timeAware,
      resources))
  }

  /** `from_dict` fails only where the program raises: a rejected mapping, a
      missing boolean, location or poll setting, or a poll interval `int()`
      cannot read. */
  lemma FromDictExactly(data: Dict)
    ensures FromDict(data).Success? <==>
      && Validate(data).Success?
      && "pomodoro_mode" in data && "widget_mode" in data && "weather_enabled" in data
      && "time_awareness_enabled" in data && "system_resources_enabled" in data
      && "weather_location" in data
      && "weather_poll_minutes" in data && ToInt("weather_poll_minutes", data["weather_poll_minutes"]).Success?
  {
  }

  /** A numeric text poll interval such as "30" is read as its number. */
  lemma PollFromText(data: Dict)
    requires FromDict(data).Success?
    requires data["weather_poll_minutes"] == VStr("30")
    ensures FromDict(data).value.weatherPollMinutes == 30
  {
    Numerals.IntSamples();
  }

  /** The typed configuration the rest of the widget relies on. */
  predicate WellFormed(c: Config)
  {
    && c.breakIntervalMinutes > 0 && c.breakDurationMinutes > 0
    && c.pomodoroWorkMinutes > 0 && c.pomodoroBreakMinutes > 0
    && c.typingFastWpm > 0 && c.rageClickThreshold > 0 && c.dizzyMouseSpeed > 0.0
    && c.cheeringAfterMinutes > 0 && c.stateCooldownSeconds >= 0.0
    && c.idleTimeoutSeconds > 0 && c.sleepTimeoutSeconds > c.idleTimeoutSeconds
    && c.position in POSITION_VALUES && c.characterScale > 0.0
    && 0.2 <= c.widgetOpacity <= 1.0
    && c.colorScheme in COLOR_SCHEMES && c.notifications in NOTIFICATION_LEVELS
    && c.weatherPollMinutes >= 5
  }

  const INT_KEYS: set<string> := {
    "break_interval_minutes", "break_duration_minutes", "pomodoro_work_minutes",
    "pomodoro_break_minutes", "typing_fast_wpm", "rage_click_threshold",
    "cheering_after_minutes", "idle_timeout_seconds", "sleep_timeout_seconds"
  }

  /** When the integer settings are written as integers, the built record keeps
      every validated bound. */
  lemma FromDictWellFormed(data: Dict)
    requires FromDict(data).Success?
    requires forall k | k in INT_KEYS :: k in data && data[k].VInt?
    ensures WellFormed(FromDict(data).value)
  {
    ValidateExactly(data);
    IntBounds(data);
    FromDictBreakNumbers(data);
    FromDictActivityNumbers(data);
  }

  /** The break and pomodoro fields of a built record are the integers of the
      mapping. */
  lemma FromDictBreakNumbers(data: Dict)
    requires FromDict(data).Success?
    ensures Acceptable(data)
    ensures
      var c := FromDict(data).value;
      && c.breakIntervalMinutes == IntOf(data["break_interval_minutes"])
      && c.breakDurationMinutes == IntOf(data["break_duration_minutes"])
      && c.pomodoroWorkMinutes == IntOf(data["pomodoro_work_minutes"])
      && c.pomodoroBreakMinutes == IntOf(data["pomodoro_break_minutes"])
  {
    ValidateExactly(data);
  }

  /** The activity thresholds, timeouts and scale of a built record are the
      numbers of the mapping. */
  lemma FromDictActivityNumbers(data: Dict)
    requires FromDict(data).Success?
    ensures Acceptable(data)
    ensures
      var c := FromDict(data).value;
      && c.typingFastWpm == IntOf(data["typing_fast_wpm"])
      && c.rageClickThreshold == IntOf(data["rage_click_threshold"])
      && c.dizzyMouseSpeed == NumberOf(data["dizzy_mouse_speed"])
      && c.cheeringAfterMinutes == IntOf(data["cheering_after_minutes"])
      && c.idleTimeoutSeconds == IntOf(data["idle_timeout_seconds"])
      && c.sleepTimeoutSeconds == IntOf(data["sleep_timeout_seconds"])
      && c.characterScale == NumberOf(data["character_scale"])
  {
    ValidateExactly(data);
  }

  /** The integer bounds validation establishes, for settings written as integers. */
  lemma IntBounds(data: Dict)
    requires Acceptable(data)
    requires forall k | k in INT_KEYS :: k in data && data[k].VInt?
    ensures forall k | k in INT_KEYS && k in POSITIVE_KEYS :: IntOf(data[k]) > 0
    ensures IntOf(data["sleep_timeout_seconds"]) > IntOf(data["idle_timeout_seconds"])
    ensures NumberOf(data["dizzy_mouse_speed"]) > 0.0 && NumberOf(data["character_scale"]) > 0.0
  {
    assert "idle_timeout_seconds" in INT_KEYS && "sleep_timeout_seconds" in INT_KEYS;
    assert "dizzy_mouse_speed" in POSITIVE_KEYS && "character_scale" in POSITIVE_KEYS;
    forall k | k in INT_KEYS && k in POSITIVE_KEYS
      ensures IntOf(data[k]) > 0
    {
    }
  }

  /** The default mapping builds the default record. */
  lemma DefaultFromDict()
    ensures FromDict(DEFAULT_CONFIG).Success?
    ensures WellFormed(FromDict(DEFAULT_CONFIG).value)
  {
    DefaultConfigValid();
    DefaultNumbers();
    DefaultChoices();
    FromDictExactly(DEFAULT_CONFIG);
    FromDictWellFormed(DEFAULT_CONFIG);
  }

  /** The pure part of `load_config`: a YAML document that is empty (or any
      falsy value) counts as `{}`; anything else must be a mapping; it is merged
      over the defaults and converted. */
  function ConfigFromYaml(loaded: Value): (r: Result<Config, ConfigError>)
    ensures !Truthy(loaded) ==> r == FromDict(DEFAULT_CONFIG)
    ensures Truthy(loaded) && !loaded.VDict? ==> r == Failure(NotMapping)
  {
    var document := if Truthy(loaded) then loaded else VDict(map[]);
    if !document.VDict? then Failure(NotMapping)
    else
      MergeWithEmpty(DEFAULT_CONFIG);
      FromDict(DeepMerged(DEFAULT_CONFIG, document.m))
  }
}
