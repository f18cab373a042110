/** Weather decorations (asciipal/weather.py): a WWO condition code, as
    served by wttr.in, maps to one of eight effect categories, and each
    category has a two-frame line above and below the character. The HTTP
    fetch and its polling thread are outside the model; only the step that
    stores the fetched code's category is kept. */
module Weather {
  import opened Wrappers
  import C = Config

  datatype WeatherEffect = WeatherEffect(above: seq<string>, below: seq<string>)

  /** The effect table, keyed by category name (`EFFECTS.get(name)`). */
  function EffectNamed(name: string): (r: Option<WeatherEffect>)
    ensures r.Some? ==> WellFormed(r.value)
  {
    if name == "clear" then
      Some(WeatherEffect(["\U{00B0} . \U{00B0} . \U{00B0}", ". \U{00B0} . \U{00B0} ."], ["", ""]))
    else if name == "cloudy" then
      Some(WeatherEffect(["~ \U{2591} ~ \U{2591} ~", "\U{2591} ~ \U{2591} ~ \U{2591}"], ["", ""]))
    else if name == "rain" then
      Some(WeatherEffect(["\U{2591} \U{257D} \U{2591} \U{257D} \U{2591}",
        "\U{257D} \U{2591} \U{257D} \U{2591} \U{257D}"], ["", ""]))
    else if name == "heavy_rain" then
      Some(WeatherEffect(["\U{257D}\U{257D} \U{257D}\U{257D} \U{257D}\U{257D}\U{257D}",
        "\U{257D}\U{257D}\U{257D} \U{257D}\U{257D} \U{257D}\U{257D}"], ["", ""]))
    else if name == "snow" then
      Some(WeatherEffect(["* + * + *", "+ * + * +"], ["", ""]))
    else if name == "thunder" then
      Some(WeatherEffect(["! \U{257D} ! \U{257D} !", "\U{257D} ! \U{257D} ! \U{257D}"], ["", ""]))
    else if name == "fog" then
      Some(WeatherEffect(["\U{2591}\U{2591}\U{2591}\U{2591}\U{2591}\U{2591}\U{2591}\U{2591}\U{2591}",
        "\U{2592}\U{2592}\U{2592}\U{2592}\U{2592}\U{2592}\U{2592}\U{2592}\U{2592}"], ["", ""]))
    else if name == "sleet" then
      Some(WeatherEffect(["\U{257D} * \U{257D} * \U{257D}", "* \U{257D} * \U{257D} *"], ["", ""]))
    else None
  }

  /** The eight category names that have an effect. */
  const CATEGORIES: seq<string> := ["clear", "cloudy", "rain", "heavy_rain", "snow", "thunder", "fog", "sleet"]

  /** Two frames per half, and the two frames of each half equally wide. */
  predicate WellFormed(e: WeatherEffect)
  {
    |e.above| == 2 && |e.below| == 2 && |e.above[0]| == |e.above[1]| && |e.below[0]| == |e.below[1]|
  }

  /** Exactly the eight categories have an effect. */
  lemma EffectsCoverCategories(name: string)
    ensures EffectNamed(name).Some? <==> name in CATEGORIES
  {
  }

  /** `code_to_effect`, that is `WWO_CODE_MAP.get(code)`: the table of WWO
      condition codes, written out one code per case. */
  function CodeToEffect(code: int): (r: Option<string>)
  {
    match code
    case 113 => Some("clear")
    case 116 => Some("cloudy")
    case 119 => Some("cloudy")
    case 122 => Some("cloudy")
    case 143 => Some("fog")
    case 176 => Some("rain")
    case 179 => Some("snow")
    case 182 => Some("sleet")
    case 185 => Some("sleet")
    case 200 => Some("thunder")
    case 227 => Some("snow")
    case 230 => Some("snow")
    case 248 => Some("fog")
    case 260 => Some("fog")
    case 263 => Some("rain")
    case 266 => Some("rain")
    case 281 => Some("sleet")
    case 284 => Some("sleet")
    case 293 => Some("rain")
    case 296 => Some("rain")
    case 299 => Some("rain")
    case 302 => Some("rain")
    case 305 => Some("heavy_rain")
    case 308 => Some("heavy_rain")
    case 311 => Some("sleet")
    case 314 => Some("sleet")
    case 317 => Some("sleet")
    case 320 => Some("sleet")
    case 323 => Some("snow")
    case 326 => Some("snow")
    case 329 => Some("snow")
    case 332 => Some("snow")
    case 335 => Some("snow")
    case 338 => Some("snow")
    case 350 => Some("sleet")
    case 353 => Some("rain")
    case 356 => Some("heavy_rain")
    case 359 => Some("heavy_rain")
    case 362 => Some("sleet")
    case 365 => Some("sleet")
    case 368 => Some("snow")
    case 371 => Some("snow")
    case 374 => Some("sleet")
    case 377 => Some("sleet")
    case 386 => Some("thunder")
    case 389 => Some("thunder")
    case 392 => Some("thunder")
    case 395 => Some("thunder")
    case _ => None
  }

  /** The codes the table knows: 48 of them, from 113 (clear) to 395 (thunder),
      in four groups of twelve. */
  const CODES_1: set<int> := {113, 116, 119, 122, 143, 176, 179, 182, 185, 200, 227, 230}
  const CODES_2: set<int> := {248, 260, 263, 266, 281, 284, 293, 296, 299, 302, 305, 308}
  const CODES_3: set<int> := {311, 314, 317, 320, 323, 326, 329, 332, 335, 338, 350, 353}
  const CODES_4: set<int> := {356, 359, 362, 365, 368, 371, 374, 377, 386, 389, 392, 395}
  const WWO_CODES: set<int> := CODES_1 + CODES_2 + CODES_3 + CODES_4

  /** A category comes back exactly for the known codes. */
  lemma CodeToEffectKnownCodes(code: int)
    ensures CodeToEffect(code).Some? <==> code in WWO_CODES
  {
    OnlyKnownCodes(code);
    if code in CODES_1 { KnownCodes1(code); }
    if code in CODES_2 { KnownCodes2(code); }
    if code in CODES_3 { KnownCodes3(code); }
    if code in CODES_4 { KnownCodes4(code); }
  }

  lemma OnlyKnownCodes(code: int)
    ensures CodeToEffect(code).Some? ==> code in CODES_1 || code in CODES_2 || code in CODES_3 || code in CODES_4
  {
  }

  lemma KnownCodes1(code: int)
    requires code in CODES_1
    ensures CodeToEffect(code).Some?
  {
  }

  lemma KnownCodes2(code: int)
    requires code in CODES_2
    ensures CodeToEffect(code).Some?
  {
  }

  lemma KnownCodes3(code: int)
    requires code in CODES_3
    ensures CodeToEffect(code).Some?
  {
  }

  lemma KnownCodes4(code: int)
    requires code in CODES_4
    ensures CodeToEffect(code).Some?
  {
  }

  /** Every category the code table names has an entry in the effect table. */
  lemma CodeMapCategoriesKnown(code: int)
    ensures CodeToEffect(code).Some? ==>
      (CodeToEffect(code).value in CATEGORIES && EffectNamed(CodeToEffect(code).value).Some?)
  {
  }

  lemma SampleCodes()
    ensures CodeToEffect(113) == Some("clear")
    ensures CodeToEffect(395) == Some("thunder")
    ensures CodeToEffect(9999) == None
    ensures CodeToEffect(0) == None
  {
  }

  /** `_poll_loop`'s pause between fetches, in seconds: never under five minutes. */
  function PollIntervalSeconds(c: C.Config): (s: int)
    ensures s >= 300
    ensures c.weatherPollMinutes >= 5 ==> s == c.weatherPollMinutes * 60
  {
    (if c.weatherPollMinutes >= 5 then c.weatherPollMinutes else 5) * 60
  }

  class WeatherManager {
    const config: C.Config
    var currentEffect: Option<string>

    constructor(config: C.Config)
      ensures this.config == config && currentEffect == None
    {
      this.config := config;
      currentEffect := None;
    }

    /** The store at the end of `_fetch_weather`: `fetched` is the condition
        code the service reported, or `None` when the request or its decoding
        raised before reaching the store. */
    method StoreFetched(fetched: Option<int>)
      modifies this
      ensures fetched.Some? ==> currentEffect == CodeToEffect(fetched.value)
      ensures fetched.None? ==> currentEffect == old(currentEffect)
    {
      if fetched.Some? {
        currentEffect := CodeToEffect(fetched.value);
      }
    }

    /** `clear_effect`. */
    method ClearEffect()
      modifies this
      ensures currentEffect == None
    {
      currentEffect := None;
    }

    /** `current_effect(frame)`: the stored category's frames when weather is on. */
    function CurrentEffect(frame: int): (r: Option<(string, string)>)
      reads this
      ensures !config.weatherEnabled || currentEffect.None? ==> r.None?
      ensures r.Some? <==> config.weatherEnabled && currentEffect.Some? && EffectNamed(currentEffect.value).Some?
      ensures r.Some? ==> var e := EffectNamed(currentEffect.value).value;
        r.value == (e.above[frame % 2], e.below[frame % 2])
    {
      if !config.weatherEnabled then None
      else if currentEffect.None? then None
      else
        match EffectNamed(currentEffect.value)
        case None => None
        case Some(effect) =>
          var idx := frame % 2;
          Some((effect.above[idx], effect.below[idx]))
    }
  }

  /** Every category the code table stores is shown while weather is on. */
  lemma FetchedEffectShown(code: int, w: WeatherManager, frame: int)
    requires w.config.weatherEnabled && code in WWO_CODES && w.currentEffect == CodeToEffect(code)
    ensures w.CurrentEffect(frame).Some?
  {
    CodeToEffectKnownCodes(code);
    CodeMapCategoriesKnown(code);
  }

  /** After `clear_effect`, nothing is shown whatever the frame. */
  lemma ClearedShowsNothing(w: WeatherManager, frame: int)
    requires w.currentEffect.None?
    ensures w.CurrentEffect(frame).None?
  {
  }

  /** A fetched code outside the table clears what was shown. */
  lemma UnknownCodeShowsNothing(code: int, w: WeatherManager, frame: int)
    requires code !in WWO_CODES && w.currentEffect == CodeToEffect(code)
    ensures w.CurrentEffect(frame).None?
  {
    CodeToEffectKnownCodes(code);
  }

  /** The stored effect animates with period two. */
  lemma CurrentEffectPeriodic(w: WeatherManager, frame: int)
    ensures w.CurrentEffect(frame) == w.CurrentEffect(frame + 2)
  {
    assert (frame + 2) % 2 == frame % 2;
  }
}
