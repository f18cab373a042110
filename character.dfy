/** The character renderer (asciipal/character.py): frames of ASCII art per
    mood, read from a custom file, a bundled asset or a built-in face, and
    padded so that every frame of a mood has the same width. File contents
    are given to the model as maps from path (or state) to text; a missing
    entry is a file that cannot be read. */
module Character {
  import opened Wrappers
  import Text
  import C = Config
  import Arith

  const FRAME_SEPARATOR: string := "\n---\n"

  /** The face used when nothing else is available. */
  const FALLBACK: string := "(\U{2022}_\U{2022})"

  const ALL_STATES: seq<string> := ["idle", "sleeping", "watching", "excited", "dizzy", "alarmed", "cheering"]

  const DEFAULT_ART: map<string, string> := map[
    "idle" := "(\U{2022}\U{203f}\U{2022})",
    "sleeping" := "(-\U{203f}-) zzZ",
    "watching" := "(\U{b0}\U{203f}\U{b0})",
    "excited" := "\\(\U{2605}\U{203f}\U{2605})/",
    "dizzy" := "(@\U{203f}@)~",
    "alarmed" := "(\U{256f}\U{b0}\U{25a1}\U{b0})\U{256f}",
    "cheering" := "\\(\U{b0}\U{25bd}\U{b0})/"
  ]

  // ---------------------------------------------------------------------
  // Parsing a frames file

  /** The chunks that hold something besides whitespace, in order. */
  function NonBlank(chunks: seq<string>): (r: seq<string>)
    ensures |r| <= |chunks|
    ensures forall i | 0 <= i < |r| :: !Text.IsBlank(r[i])
    ensures r == [] <==> forall i | 0 <= i < |chunks| :: Text.IsBlank(chunks[i])
  {
    if chunks == [] then []
    else
      var n := |chunks| - 1;
      var rest := NonBlank(chunks[..n]);
      assert forall i | 0 <= i < n :: chunks[..n][i] == chunks[i];
      rest + (if Text.IsBlank(chunks[n]) then [] else [chunks[n]])
  }

  /** The lines of a frame. */
  function Lines(frame: string): seq<string>
  {
    Text.Split(frame, '\n')
  }

  /** The longest line over all frames. */
  function Width(frames: seq<string>): (w: nat)
    ensures forall i | 0 <= i < |frames| :: Text.MaxLen(Lines(frames[i])) <= w
    ensures w == 0 || exists i | 0 <= i < |frames| :: Text.MaxLen(Lines(frames[i])) == w
  {
    if frames == [] then 0
    else
      var n := |frames| - 1;
      var rest := Width(frames[..n]);
      var own := Text.MaxLen(Lines(frames[n]));
      assert forall i | 0 <= i < n :: frames[..n][i] == frames[i];
      if own >= rest then own else rest
  }

  /** Every line of the frame left-justified to `w`, joined back with newlines. */
  function Pad(frame: string, w: int): string
  {
    Text.Join(PadLines(Lines(frame), w), "\n")
  }

  function PadLines(lines: seq<string>, w: int): (r: seq<string>)
    ensures |r| == |lines|
    ensures forall i | 0 <= i < |r| :: r[i] == Text.LJust(lines[i], w)
  {
    seq(|lines|, i requires 0 <= i < |lines| => Text.LJust(lines[i], w))
  }

  /** The non-blank chunks of a frames file. */
  function Chunks(text: string): seq<string>
  {
    NonBlank(Text.SplitOn(text, FRAME_SEPARATOR))
  }

  /** Each frame padded to `w`. */
  function PadAll(raw: seq<string>, w: nat): (r: seq<string>)
    ensures |r| == |raw|
    ensures forall i | 0 <= i < |raw| :: r[i] == Pad(raw[i], w)
  {
    if raw == [] then []
    else
      var n := |raw| - 1;
      PadAll(raw[..n], w) + [Pad(raw[n], w)]
  }

  /** The chunks padded to the width of the longest line, or the fallback face. */
  function Padded(raw: seq<string>): seq<string>
  {
    if raw == [] then [FALLBACK] else PadAll(raw, Width(raw))
  }

  /** What `_parse_frames` returns. */
  function ParsedFrames(text: string): seq<string>
  {
    Padded(Chunks(text))
  }

  /** `_parse_frames(text)`. */
  method ParseFrames(text: string) returns (frames: seq<string>)
    ensures frames == ParsedFrames(text)
  {
    frames := PadChunks(Chunks(text));
  }

  /** The padding part of `_parse_frames`, on the non-blank chunks. */
  method PadChunks(raw: seq<string>) returns (frames: seq<string>)
    ensures frames == Padded(raw)
  {
    if raw == [] {
      return [FALLBACK];
    }
    var maxW := ScanWidth(raw);
    frames := PadEach(raw, maxW);
  }

  /** The width scan over every line of every chunk. */
  method ScanWidth(raw: seq<string>) returns (maxW: nat)
    ensures maxW == Width(raw)
  {
    maxW := 0;
    var i := 0;
    while i < |raw|
      invariant 0 <= i <= |raw|
      invariant maxW == Width(raw[..i])
    {
      WidthStep(raw, i);
      maxW := Widen(Lines(raw[i]), maxW);
      i := i + 1;
    }
    assert raw[..i] == raw;
  }

  /** One more chunk widens the scan by that chunk's longest line. */
  lemma WidthStep(raw: seq<string>, i: nat)
    requires i < |raw|
    ensures Width(raw[..i + 1]) == Larger(Width(raw[..i]), Text.MaxLen(Lines(raw[i])))
  {
    assert raw[..i + 1][..i] == raw[..i];
    assert raw[..i + 1][i] == raw[i];
  }

  /** The loop that appends each padded chunk. */
  method PadEach(raw: seq<string>, w: nat) returns (frames: seq<string>)
    ensures frames == PadAll(raw, w)
  {
    frames := [];
    var k := 0;
    while k < |raw|
      invariant 0 <= k <= |raw|
      invariant frames == PadAll(raw[..k], w)
    {
      assert raw[..k + 1][..k] == raw[..k];
      frames := frames + [Pad(raw[k], w)];
      k := k + 1;
    }
    assert raw[..k] == raw;
  }

  /** The inner loop of the width scan: `max(w, len(line))` over the lines. */
  method Widen(lines: seq<string>, w: nat) returns (r: nat)
    ensures r == Larger(w, Text.MaxLen(lines))
  {
    r := w;
    var j := 0;
    while j < |lines|
      invariant 0 <= j <= |lines|
      invariant r == Larger(w, Text.MaxLen(lines[..j]))
    {
      assert lines[..j + 1][..j] == lines[..j];
      if |lines[j]| > r {
        r := |lines[j]|;
      }
      j := j + 1;
    }
    assert lines[..j] == lines;
  }

  function Larger(a: nat, b: nat): nat
  {
    if a < b then b else a
  }

  /** There is always a frame: the fallback face when every chunk is blank,
      and otherwise one padded frame per non-blank chunk. */
  lemma ParsedNeverEmpty(text: string)
    ensures |ParsedFrames(text)| >= 1
    ensures (forall i | 0 <= i < |Text.SplitOn(text, FRAME_SEPARATOR)| ::
      Text.IsBlank(Text.SplitOn(text, FRAME_SEPARATOR)[i])) ==> ParsedFrames(text) == [FALLBACK]
    ensures Chunks(text) != [] ==> ParsedFrames(text) == PadAll(Chunks(text), Width(Chunks(text)))
  {
  }

  lemma PadLinesKeepSeparatorFree(lines: seq<string>, w: int)
    requires forall i | 0 <= i < |lines| :: '\n' !in lines[i]
    ensures forall i | 0 <= i < |PadLines(lines, w)| :: '\n' !in PadLines(lines, w)[i]
  {
    forall i | 0 <= i < |lines|
      ensures '\n' !in PadLines(lines, w)[i]
    {
      var r := Text.LJust(lines[i], w);
      forall k | 0 <= k < |r|
        ensures r[k] != '\n'
      {
        if k < |lines[i]| {
          assert r[k] == r[..|lines[i]|][k];
        }
      }
    }
  }

  /** One frame per non-blank chunk, in order; each keeps its number of lines,
      and every line is the chunk's line followed only by spaces, up to the
      width of the longest line. */
  lemma ParsedShape(text: string)
    requires Chunks(text) != []
    ensures PaddedShape(Chunks(text), ParsedFrames(text))
  {
    PadAllShape(Chunks(text));
  }

  /** `frames` is `raw` with every line padded to the width of the longest. */
  predicate PaddedShape(raw: seq<string>, frames: seq<string>)
  {
    && |frames| == |raw|
    && forall i | 0 <= i < |raw| ::
      && |Lines(frames[i])| == |Lines(raw[i])|
      && forall j | 0 <= j < |Lines(raw[i])| ::
        var line := Lines(frames[i])[j];
        && |line| == Width(raw)
        && line[..|Lines(raw[i])[j]|] == Lines(raw[i])[j]
        && forall k | |Lines(raw[i])[j]| <= k < Width(raw) :: line[k] == ' '
  }

  lemma PadAllShape(raw: seq<string>)
    requires raw != []
    ensures PaddedShape(raw, Padded(raw))
  {
    var w := Width(raw);
    forall i | 0 <= i < |raw|
      ensures Lines(Padded(raw)[i]) == PadLines(Lines(raw[i]), w)
    {
      PadLinesKeepSeparatorFree(Lines(raw[i]), w);
      Text.SplitJoin(PadLines(Lines(raw[i]), w), '\n');
    }
    forall i, j | 0 <= i < |raw| && 0 <= j < |Lines(raw[i])|
      ensures |Lines(raw[i])[j]| <= w
    {
      assert Text.MaxLen(Lines(raw[i])) <= w;
    }
  }

  // ---------------------------------------------------------------------
  // Where a mood's frames come from

  /** The text a loader works on: the file's contents without leading and trailing newlines. */
  function Stripped(contents: string): string
  {
    Text.StripChar(contents, '\n')
  }

  /** The built-in face for the state, or the fallback face. */
  function DefaultFace(state: string): (r: string)
    ensures |r| > 0
    ensures state !in DEFAULT_ART ==> r == FALLBACK
  {
    if state in DEFAULT_ART then DEFAULT_ART[state] else FALLBACK
  }

  /** `_load_custom_frames`: `contents` is None when the file cannot be read. */
  function CustomFrames(contents: Option<string>, state: string): (r: seq<string>)
    ensures |r| >= 1
  {
    match contents
    case None => [DefaultFace(state)]
    case Some(text) =>
      if Text.IsBlank(Stripped(text)) then [DefaultFace(state)]
      else
        ParsedNeverEmpty(Stripped(text));
        ParsedFrames(Stripped(text))
  }

  /** `_load_bundled_frames`: None for a missing or blank asset. */
  function BundledFrames(contents: Option<string>): (r: Option<seq<string>>)
    ensures r.Some? ==> |r.value| >= 1
  {
    match contents
    case None => None
    case Some(text) =>
      if Text.IsBlank(Stripped(text)) then None
      else
        ParsedNeverEmpty(Stripped(text));
        Some(ParsedFrames(Stripped(text)))
  }

  /** The files the renderer can read: custom art by path, bundled assets by state. */
  datatype ArtFiles = ArtFiles(custom: map<string, string>, bundled: map<string, string>)

  function Lookup(m: map<string, string>, key: string): Option<string>
  {
    if key in m then Some(m[key]) else None
  }

  /** The custom art path configured for the state, if any. */
  function CustomPath(customArt: C.Dict, state: string): Option<string>
  {
    if state in customArt && customArt[state].VStr? && customArt[state].s != "" then Some(customArt[state].s)
    else None
  }

  /** `_frames_for(state)`: custom art, then the bundled asset, then the built-in face. */
  function FramesFor(customArt: C.Dict, files: ArtFiles, state: string): (r: seq<string>)
    ensures |r| >= 1
  {
    match CustomPath(customArt, state)
    case Some(path) => CustomFrames(Lookup(files.custom, path), state)
    case None =>
      match BundledFrames(Lookup(files.bundled, state))
      case Some(frames) => frames
      case None => [DefaultFace(state)]
  }

  /** The fallback order: a configured path always wins, a usable bundled
      asset comes next, and the built-in face only when neither applies. */
  lemma FramesForOrder(customArt: C.Dict, files: ArtFiles, state: string)
    ensures CustomPath(customArt, state).Some? ==>
      FramesFor(customArt, files, state) == CustomFrames(Lookup(files.custom, CustomPath(customArt, state).value), state)
    ensures CustomPath(customArt, state).None? && BundledFrames(Lookup(files.bundled, state)).Some? ==>
      FramesFor(customArt, files, state) == BundledFrames(Lookup(files.bundled, state)).value
    ensures CustomPath(customArt, state).None? && BundledFrames(Lookup(files.bundled, state)).None? ==>
      FramesFor(customArt, files, state) == [DefaultFace(state)]
    ensures state !in DEFAULT_ART && CustomPath(customArt, state).None? && state !in files.bundled ==>
      FramesFor(customArt, files, state) == [FALLBACK]
  {
  }

  /** `frame_count(state)`. */
  function FrameCount(customArt: C.Dict, files: ArtFiles, state: string): (n: nat)
    ensures n >= 1
  {
    |FramesFor(customArt, files, state)|
  }

  /** `art_for(state, frame)`. */
  function ArtFor(customArt: C.Dict, files: ArtFiles, state: string, frame: int): string
  {
    var frames := FramesFor(customArt, files, state);
    frames[frame % |frames|]
  }

  /** The animation repeats with the number of frames as its period. */
  lemma ArtForPeriodic(customArt: C.Dict, files: ArtFiles, state: string, frame: int)
    ensures ArtFor(customArt, files, state, frame + FrameCount(customArt, files, state))
      == ArtFor(customArt, files, state, frame)
    ensures ArtFor(customArt, files, state, frame)
      == FramesFor(customArt, files, state)[frame % FrameCount(customArt, files, state)]
  {
    Arith.ModShift(frame, FrameCount(customArt, files, state));
  }

  // ---------------------------------------------------------------------
  // The renderer

  class CharacterRenderer {
    const customArt: C.Dict
    const files: ArtFiles
    var globalMaxWidth: nat

    /** The constructor's preload: the longest line of any frame of any state. */
    constructor(customArt: C.Dict, files: ArtFiles)
      ensures this.customArt == customArt && this.files == files
      ensures Valid()
      ensures forall s | 0 <= s < |ALL_STATES| :: forall f | 0 <= f < |FramesFor(customArt, files, ALL_STATES[s])| ::
        forall l | l in Lines(FramesFor(customArt, files, ALL_STATES[s])[f]) :: |l| <= globalMaxWidth
      ensures globalMaxWidth == 0 || exists s | 0 <= s < |ALL_STATES| ::
        exists f | 0 <= f < |FramesFor(customArt, files, ALL_STATES[s])| ::
          exists l | l in Lines(FramesFor(customArt, files, ALL_STATES[s])[f]) :: |l| == globalMaxWidth
    {
      this.customArt := customArt;
      this.files := files;
      var w: nat := 0;
      var s := 0;
      while s < |ALL_STATES|
        invariant 0 <= s <= |ALL_STATES|
        invariant forall t | 0 <= t < s :: SeenAll(FramesFor(customArt, files, ALL_STATES[t]), w)
        invariant w == 0 || exists t | 0 <= t < s :: SeenOne(FramesFor(customArt, files, ALL_STATES[t]), w)
      {
        var frames := FramesFor(customArt, files, ALL_STATES[s]);
        var w1 := WidestLine(frames, w);
        w := w1;
        s := s + 1;
      }
      globalMaxWidth := w;
    }

    /** The preloaded width bounds every line of every state's frames, and
        some line attains it unless it is zero. */
    predicate Valid()
      reads this
    {
      && (forall s | 0 <= s < |ALL_STATES| :: SeenAll(FramesFor(customArt, files, ALL_STATES[s]), globalMaxWidth))
      && (globalMaxWidth == 0 || exists s | 0 <= s < |ALL_STATES| ::
            SeenOne(FramesFor(customArt, files, ALL_STATES[s]), globalMaxWidth))
    }

    /** `max_art_width`: the longest line of any frame of any state. */
    function MaxArtWidth(): (w: nat)
      requires Valid()
      reads this
      ensures forall s | 0 <= s < |ALL_STATES| :: forall f | 0 <= f < |FramesFor(customArt, files, ALL_STATES[s])| ::
        forall l | l in Lines(FramesFor(customArt, files, ALL_STATES[s])[f]) :: |l| <= w
      ensures w == 0 || exists s | 0 <= s < |ALL_STATES| ::
        exists f | 0 <= f < |FramesFor(customArt, files, ALL_STATES[s])| ::
          exists l | l in Lines(FramesFor(customArt, files, ALL_STATES[s])[f]) :: |l| == w
    {
      globalMaxWidth
    }

    /** `art_for(state, frame)` on this renderer: the frame's position in the
        state's frames, counted modulo their number. */
    function Art(state: string, frame: int): (r: string)
      ensures r == FramesFor(customArt, files, state)[frame % FrameCount(customArt, files, state)]
      ensures r in FramesFor(customArt, files, state)
    {
      ArtFor(customArt, files, state, frame)
    }
  }

  /** Every line of every frame is at most `w` long. */
  predicate SeenAll(frames: seq<string>, w: nat)
  {
    forall f | 0 <= f < |frames| :: forall l | l in Lines(frames[f]) :: |l| <= w
  }

  /** Some line of some frame is exactly `w` long. */
  predicate SeenOne(frames: seq<string>, w: nat)
  {
    exists f | 0 <= f < |frames| :: exists l | l in Lines(frames[f]) :: |l| == w
  }

  /** The two inner loops of the preload: widen `w` to the longest line of `frames`. */
  method WidestLine(frames: seq<string>, w: nat) returns (r: nat)
    ensures w <= r
    ensures SeenAll(frames, r)
    ensures r == w || SeenOne(frames, r)
  {
    r := w;
    var f := 0;
    while f < |frames|
      invariant 0 <= f <= |frames|
      invariant w <= r
      invariant SeenAll(frames[..f], r)
      invariant r == w || SeenOne(frames[..f], r)
    {
      r := LongestLine(Lines(frames[f]), r);
      assert frames[..f + 1] == frames[..f] + [frames[f]];
      f := f + 1;
    }
    assert frames[..f] == frames;
  }

  /** The innermost loop: widen `w` to the longest of `lines`. */
  method LongestLine(lines: seq<string>, w: nat) returns (r: nat)
    ensures w <= r
    ensures forall l | l in lines :: |l| <= r
    ensures r == w || exists l | l in lines :: |l| == r
  {
    r := w;
    var j := 0;
    while j < |lines|
      invariant 0 <= j <= |lines|
      invariant w <= r
      invariant forall l | l in lines[..j] :: |l| <= r
      invariant r == w || exists l | l in lines[..j] :: |l| == r
    {
      assert lines[..j + 1] == lines[..j] + [lines[j]];
      if |lines[j]| > r {
        r := |lines[j]|;
      }
      j := j + 1;
    }
    assert lines[..j] == lines;
  }
}
