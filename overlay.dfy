/** The arithmetic and loops of the overlay window (asciipal/overlay.py):
    the colour each region tag is drawn in, the runs of one tag that get a
    colour span, the placement of the window on the screen, the text width
    that only ever grows, and the drag threshold. Tk itself (windows, fonts,
    transparency, menus, the event loop) is outside the model: screen and
    window sizes and pointer positions come in as parameters. */
module Overlay {
  import opened Wrappers
  import Text
  import C = Config

  // ---------------------------------------------------------------------
  // Region colours
  // ---------------------------------------------------------------------

  const ALL_REGION_TAGS: seq<string> := [
    "dino", "plant", "border", "bubble", "firefly",
    "fish", "butterfly", "snail", "weather", "progress",
    "status", "achievement", "weather_panel", "sysinfo", "default"
  ]

  /** The per-scheme region tables. Every table has exactly the fifteen
      region tags as keys, so each is kept as its column of colours in the
      order of `ALL_REGION_TAGS`; `None` means "use the scheme's foreground". */
  const DEFAULT_REGION_COLORS: seq<Option<string>> := [
    Some("#4CAF50"), Some("#2E7D32"), Some("#9E9E9E"), Some("#42A5F5"), Some("#FFD54F"),
    Some("#FF7043"), Some("#CE93D8"), Some("#8D6E63"), Some("#90A4AE"), Some("#78909C"),
    None, Some("#FFA000"), Some("#90A4AE"), Some("#78909C"), None
  ]

  const GREEN_TERMINAL_REGION_COLORS: seq<Option<string>> := [
    Some("#00FF7F"), Some("#32CD32"), Some("#3A5F0B"), Some("#00FFFF"), Some("#FFFF00"),
    Some("#FF6347"), Some("#FF69B4"), Some("#CD853F"), Some("#66BB6A"), Some("#4CAF50"),
    None, Some("#FFD700"), Some("#66BB6A"), Some("#4CAF50"), None
  ]

  const PASTEL_REGION_COLORS: seq<Option<string>> := [
    Some("#6A994E"), Some("#A7C957"), Some("#B8A9C9"), Some("#89CFF0"), Some("#FDFD96"),
    Some("#FFB7C5"), Some("#DDA0DD"), Some("#C9ADA7"), Some("#A0C4FF"), Some("#C9ADA7"),
    None, Some("#F4A261"), Some("#A0C4FF"), Some("#B8C0D0"), None
  ]

  const AMBER_TERMINAL_REGION_COLORS: seq<Option<string>> := [
    Some("#FF6F00"), Some("#FFAB00"), Some("#8D6E00"), Some("#FFECB3"), Some("#FFFF8D"),
    Some("#FF8F00"), Some("#FFD700"), Some("#D2691E"), Some("#FFD54F"), Some("#FFC107"),
    None, Some("#FFE082"), Some("#FFD54F"), Some("#FFC107"), None
  ]

  const OCEAN_REGION_COLORS: seq<Option<string>> := [
    Some("#00E676"), Some("#66BB6A"), Some("#0277BD"), Some("#B3E5FC"), Some("#FFF59D"),
    Some("#FF8A65"), Some("#E040FB"), Some("#A1887F"), Some("#4FC3F7"), Some("#4DD0E1"),
    None, Some("#FFD54F"), Some("#4FC3F7"), Some("#26C6DA"), None
  ]

  const WIDGET_DEFAULT_REGION_COLORS: seq<Option<string>> := [
    Some("#66BB6A"), Some("#43A047"), Some("#B0BEC5"), Some("#64B5F6"), Some("#FFE082"),
    Some("#FF8A65"), Some("#CE93D8"), Some("#A1887F"), Some("#B0BEC5"), Some("#90A4AE"),
    None, Some("#FFB300"), Some("#B0BEC5"), Some("#90A4AE"), None
  ]

  /** Each table has one entry per region tag. */
  lemma TablesCoverTags()
    ensures |ALL_REGION_TAGS| == 15
    ensures |DEFAULT_REGION_COLORS| == 15 && |GREEN_TERMINAL_REGION_COLORS| == 15
    ensures |PASTEL_REGION_COLORS| == 15 && |AMBER_TERMINAL_REGION_COLORS| == 15
    ensures |OCEAN_REGION_COLORS| == 15 && |WIDGET_DEFAULT_REGION_COLORS| == 15
  {
  }

  /** The fifteen tags are all different. */
  lemma TagsDistinct()
    ensures forall i, j | 0 <= i < j < |ALL_REGION_TAGS| :: ALL_REGION_TAGS[i] != ALL_REGION_TAGS[j]
  {
  }

  /** The region table `_resolve_region_colors` reads: in widget mode the
      widget table (its only scheme is "default", which every scheme falls
      back to), otherwise the scheme's table, or the "default" one for a
      scheme it does not know. */
  function RegionTable(scheme: string, widgetMode: bool): (t: seq<Option<string>>)
    ensures |t| == |ALL_REGION_TAGS|
  {
    if widgetMode then WIDGET_DEFAULT_REGION_COLORS
    else if scheme == "green-terminal" then GREEN_TERMINAL_REGION_COLORS
    else if scheme == "pastel" then PASTEL_REGION_COLORS
    else if scheme == "amber-terminal" then AMBER_TERMINAL_REGION_COLORS
    else if scheme == "ocean" then OCEAN_REGION_COLORS
    else DEFAULT_REGION_COLORS
  }

  /** A scheme outside the five known ones is drawn like "default"; in
      widget mode the scheme does not matter. */
  lemma RegionTableFallbacks(scheme: string, other: string, widgetMode: bool)
    ensures scheme !in C.COLOR_SCHEMES ==> RegionTable(scheme, widgetMode) == RegionTable("default", widgetMode)
    ensures widgetMode ==> RegionTable(scheme, true) == RegionTable(other, true)
  {
  }

  /** `color if color is not None else fg`. */
  function ColorOr(color: Option<string>, fg: string): string
  {
    if color.Some? then color.value else fg
  }

  /** `_resolve_region_colors(scheme, fg, widget_mode)`: a colour for every
      region tag, the table's colour where it has one and `fg` otherwise. */
  method ResolveRegionColors(scheme: string, fg: string, widgetMode: bool) returns (result: map<string, string>)
    ensures result.Keys == set i | 0 <= i < |ALL_REGION_TAGS| :: ALL_REGION_TAGS[i]
    ensures forall i | 0 <= i < |ALL_REGION_TAGS| ::
      result[ALL_REGION_TAGS[i]] == ColorOr(RegionTable(scheme, widgetMode)[i], fg)
  {
    TagsDistinct();
    result := ColorEach(ALL_REGION_TAGS, RegionTable(scheme, widgetMode), fg);
  }

  /** The loop of `_resolve_region_colors`, over any list of distinct tags. */
  method ColorEach(tags: seq<string>, raw: seq<Option<string>>, fg: string) returns (result: map<string, string>)
    requires |raw| == |tags|
    requires forall i, j | 0 <= i < j < |tags| :: tags[i] != tags[j]
    ensures result.Keys == set i | 0 <= i < |tags| :: tags[i]
    ensures forall i | 0 <= i < |tags| :: result[tags[i]] == ColorOr(raw[i], fg)
  {
    result := map[];
    var k := 0;
    while k < |tags|
      invariant 0 <= k <= |tags|
      invariant result.Keys == set i | 0 <= i < k :: tags[i]
      invariant forall i | 0 <= i < k :: result[tags[i]] == ColorOr(raw[i], fg)
    {
      var color := raw[k];
      result := result[tags[k] := if color.Some? then color.value else fg];
      k := k + 1;
    }
  }

  /** The status and default tags are always drawn in the foreground colour;
      every other tag has its own colour in every table. */
  lemma ForegroundTags(scheme: string, widgetMode: bool)
    ensures forall i | 0 <= i < |ALL_REGION_TAGS| ::
      (RegionTable(scheme, widgetMode)[i].None? <==> ALL_REGION_TAGS[i] in {"status", "default"})
  {
  }

  /** The text colour the overlay passes as `fg`: the scheme's own, or in
      widget mode the light widget colour for it (white for an unknown one). */
  function Foreground(scheme: string, widgetMode: bool): string
  {
    if widgetMode then
      if scheme == "default" then "#FFFFFF"
      else if scheme == "green-terminal" then "#7CFC00"
      else if scheme == "pastel" then "#f4d6cc"
      else if scheme == "amber-terminal" then "#FFB000"
      else if scheme == "ocean" then "#00CED1"
      else "#FFFFFF"
    else
      if scheme == "green-terminal" then "#7CFC00"
      else if scheme == "pastel" then "#2d3142"
      else if scheme == "amber-terminal" then "#FFB000"
      else if scheme == "ocean" then "#00CED1"
      else "#111111"
  }

  /** An unknown scheme gets the "default" foreground in both modes. */
  lemma ForegroundFallback(scheme: string, widgetMode: bool)
    requires scheme !in C.COLOR_SCHEMES
    ensures Foreground(scheme, widgetMode) == Foreground("default", widgetMode)
  {
  }

  // ---------------------------------------------------------------------
  // Colour spans of update_colored
  // ---------------------------------------------------------------------

  /** A `tag_add(tag, row.start, row.end)` call, columns counted from 0. */
  datatype Span = Span(start: nat, end: nat, tag: string)

  /** The columns a row's tags apply to: those that have both a character
      and a tag. */
  function Limit(line: string, rowTags: seq<string>): (n: nat)
    ensures n <= |line| && n <= |rowTags|
    ensures n == |line| || n == |rowTags|
  {
    if |rowTags| < |line| then |rowTags| else |line|
  }

  /** `s` is a maximal non-empty run of one tag other than "default". */
  predicate IsRun(rowTags: seq<string>, limit: nat, s: Span)
    requires limit <= |rowTags|
  {
    && s.start < s.end <= limit
    && s.tag != "default"
    && (forall k | s.start <= k < s.end :: rowTags[k] == s.tag)
    && (s.start == 0 || rowTags[s.start - 1] != s.tag)
    && (s.end == limit || rowTags[s.end] != s.tag)
  }

  /** Every span is a maximal run, the spans go left to right without
      overlapping, and every tagged column left of `upTo` lies in one. */
  predicate SpansCover(rowTags: seq<string>, limit: nat, spans: seq<Span>, upTo: nat)
    requires limit <= |rowTags|
  {
    && (forall i | 0 <= i < |spans| :: IsRun(rowTags, limit, spans[i]))
    && (forall i | 0 <= i < |spans| - 1 :: spans[i].end <= spans[i + 1].start)
    && (forall c | 0 <= c < upTo && c < limit && rowTags[c] != "default" ::
          exists i | 0 <= i < |spans| :: spans[i].start <= c < spans[i].end)
  }

  /** The inner `while` of `update_colored` for one row. */
  method RowSpans(line: string, rowTags: seq<string>) returns (spans: seq<Span>)
    ensures SpansCover(rowTags, Limit(line, rowTags), spans, Limit(line, rowTags))
  {
    var limit := Limit(line, rowTags);
    spans := [];
    var col := 0;
    while col < |rowTags| && col < |line|
      invariant 0 <= col <= limit
      invariant SpansCover(rowTags, limit, spans, col)
      invariant forall i | 0 <= i < |spans| :: spans[i].end <= col
      invariant 0 < col < limit ==> rowTags[col - 1] == "default" || rowTags[col - 1] != rowTags[col]
    {
      var tag := rowTags[col];
      if tag == "default" {
        col := col + 1;
        continue;
      }
      var spanStart := col;
      while col < |rowTags| && col < |line| && rowTags[col] == tag
        invariant spanStart <= col <= limit
        invariant forall k | spanStart <= k < col :: rowTags[k] == tag
      {
        col := col + 1;
      }
      var s := Span(spanStart, col, tag);
      ExtendCover(rowTags, limit, spans, s);
      spans := spans + [s];
    }
  }

  /** Appending the next maximal run keeps the spans covering up to its end. */
  lemma ExtendCover(rowTags: seq<string>, limit: nat, before: seq<Span>, s: Span)
    requires limit <= |rowTags|
    requires IsRun(rowTags, limit, s)
    requires SpansCover(rowTags, limit, before, s.start)
    requires forall i | 0 <= i < |before| :: before[i].end <= s.start
    ensures SpansCover(rowTags, limit, before + [s], s.end)
    ensures forall i | 0 <= i < |before + [s]| :: (before + [s])[i].end <= s.end
  {
    var spans := before + [s];
    forall i | 0 <= i < |spans|
      ensures IsRun(rowTags, limit, spans[i]) && spans[i].end <= s.end
    {
      if i < |before| {
        assert spans[i] == before[i];
      }
    }
    forall i | 0 <= i < |spans| - 1
      ensures spans[i].end <= spans[i + 1].start
    {
      assert spans[i] == before[i];
      if i + 1 < |before| {
        assert spans[i + 1] == before[i + 1];
      }
    }
    ExtendCoverage(rowTags, limit, before, s);
  }

  /** The coverage half of `ExtendCover`. */
  lemma ExtendCoverage(rowTags: seq<string>, limit: nat, before: seq<Span>, s: Span)
    requires limit <= |rowTags|
    requires s.start <= s.end <= limit
    requires forall k | s.start <= k < s.end :: rowTags[k] == s.tag
    requires forall c | 0 <= c < s.start && c < limit && rowTags[c] != "default" ::
      exists i | 0 <= i < |before| :: before[i].start <= c < before[i].end
    ensures forall c | 0 <= c < s.end && c < limit && rowTags[c] != "default" ::
      exists i | 0 <= i < |before + [s]| :: (before + [s])[i].start <= c < (before + [s])[i].end
  {
    var spans := before + [s];
    forall c | 0 <= c < s.end && c < limit && rowTags[c] != "default"
      ensures exists i | 0 <= i < |spans| :: spans[i].start <= c < spans[i].end
    {
      if c < s.start {
        var i :| 0 <= i < |before| && before[i].start <= c < before[i].end;
        assert spans[i] == before[i];
      } else {
        assert spans[|spans| - 1] == s;
      }
    }
  }

  /** Spans further apart in the list are further right. */
  lemma {:induction false} SpansOrdered(rowTags: seq<string>, limit: nat, spans: seq<Span>, upTo: nat, i: nat, j: nat)
    requires limit <= |rowTags| && SpansCover(rowTags, limit, spans, upTo)
    requires i < j < |spans|
    ensures spans[i].end <= spans[j].start
    decreases j - i
  {
    if j > i + 1 {
      SpansOrdered(rowTags, limit, spans, upTo, i + 1, j);
      assert IsRun(rowTags, limit, spans[i + 1]);
    }
  }

  /** Every tagged column is covered by exactly one span. */
  lemma CoveredOnce(rowTags: seq<string>, limit: nat, spans: seq<Span>, c: nat, i: nat, j: nat)
    requires limit <= |rowTags| && SpansCover(rowTags, limit, spans, limit)
    requires i < |spans| && j < |spans|
    requires spans[i].start <= c < spans[i].end && spans[j].start <= c < spans[j].end
    ensures i == j
  {
    if i < j {
      SpansOrdered(rowTags, limit, spans, limit, i, j);
    } else if j < i {
      SpansOrdered(rowTags, limit, spans, limit, j, i);
    }
  }

  /** A row's spans touch only columns that have a character, a tag other
      than "default", and lie left of both ends. */
  lemma SpansInsideRow(rowTags: seq<string>, limit: nat, spans: seq<Span>, i: nat, c: nat)
    requires limit <= |rowTags| && SpansCover(rowTags, limit, spans, limit)
    requires i < |spans| && spans[i].start <= c < spans[i].end
    ensures c < limit && rowTags[c] == spans[i].tag && rowTags[c] != "default"
  {
    assert IsRun(rowTags, limit, spans[i]);
  }

  /** The row loop of `update_colored`: the spans of each row that has a line
      of text; rows past the last line are ignored. `rows[r]` holds the tags
      of Tk line `r + 1`. */
  method ColoredSpans(lines: seq<string>, regions: seq<seq<string>>) returns (rows: seq<seq<Span>>)
    ensures |rows| == if |regions| < |lines| then |regions| else |lines|
    ensures forall r | 0 <= r < |rows| ::
      SpansCover(regions[r], Limit(lines[r], regions[r]), rows[r], Limit(lines[r], regions[r]))
  {
    rows := [];
    var r := 0;
    while r < |regions|
      invariant 0 <= r <= |regions| && r <= |lines|
      invariant |rows| == r
      invariant forall q | 0 <= q < r ::
        SpansCover(regions[q], Limit(lines[q], regions[q]), rows[q], Limit(lines[q], regions[q]))
    {
      if r >= |lines| {
        break;
      }
      var spans := RowSpans(lines[r], regions[r]);
      ghost var done := rows;
      rows := rows + [spans];
      assert forall q | 0 <= q < r :: rows[q] == done[q];
      r := r + 1;
    }
  }

  // ---------------------------------------------------------------------
  // Window placement
  // ---------------------------------------------------------------------

  const MARGIN: int := 24

  /** `_place_window`: the top-left corner for a `w` by `h` window on an
      `sw` by `sh` screen; Python's `//` is floor division. */
  function PlaceWindow(position: string, sw: int, sh: int, w: int, h: int): (r: (int, int))
    ensures !Text.Contains(position, "left") && !Text.Contains(position, "right") ==>
      0 <= sw - w - 2 * r.0 <= 1
    ensures !Text.Contains(position, "top") && !Text.Contains(position, "bottom") ==>
      0 <= sh - h - 2 * r.1 <= 1
  {
    var x := if Text.Contains(position, "left") then MARGIN
      else if Text.Contains(position, "right") then sw - w - MARGIN
      else (sw - w) / 2;
    var y := if Text.Contains(position, "top") then MARGIN
      else if Text.Contains(position, "bottom") then sh - h - MARGIN
      else (sh - h) / 2;
    (x, y)
  }

  /** Each of the nine configured positions: a pinned side sits a margin
      in from that edge of the screen, and an axis with no pinned side is
      centred. */
  lemma PlaceTopLeft(position: string, sw: int, sh: int, w: int, h: int)
    requires position == "top-left"
    ensures PlaceWindow(position, sw, sh, w, h) == (24, 24)
  {
    assert Text.Contains(position, "left") by { Text.ContainedAt(position, "left", 4); }
    assert Text.Contains(position, "top") by { Text.ContainedAt(position, "top", 0); }
    assert !Text.Contains(position, "right") by { Text.MissingCharNotContained(position, "right", 0); }
    assert !Text.Contains(position, "bottom") by { Text.MissingCharNotContained(position, "bottom", 0); }
  }

  lemma PlaceTopCenter(position: string, sw: int, sh: int, w: int, h: int)
    requires position == "top-center"
    ensures PlaceWindow(position, sw, sh, w, h) == ((sw - w) / 2, 24)
  {
    assert Text.Contains(position, "top") by { Text.ContainedAt(position, "top", 0); }
    assert !Text.Contains(position, "left") by { Text.MissingCharNotContained(position, "left", 0); }
    assert !Text.Contains(position, "right") by { Text.MissingCharNotContained(position, "right", 1); }
    assert !Text.Contains(position, "bottom") by { Text.MissingCharNotContained(position, "bottom", 0); }
  }

  lemma PlaceTopRight(position: string, sw: int, sh: int, w: int, h: int)
    requires position == "top-right"
    ensures PlaceWindow(position, sw, sh, w, h) == (sw - w - 24, 24)
  {
    assert Text.Contains(position, "right") by { Text.ContainedAt(position, "right", 4); }
    assert Text.Contains(position, "top") by { Text.ContainedAt(position, "top", 0); }
    assert !Text.Contains(position, "left") by { Text.MissingCharNotContained(position, "left", 0); }
    assert !Text.Contains(position, "bottom") by { Text.MissingCharNotContained(position, "bottom", 0); }
  }

  lemma PlaceCenterLeft(position: string, sw: int, sh: int, w: int, h: int)
    requires position == "center-left"
    ensures PlaceWindow(position, sw, sh, w, h) == (24, (sh - h) / 2)
  {
    assert Text.Contains(position, "left") by { Text.ContainedAt(position, "left", 7); }
    assert !Text.Contains(position, "right") by { Text.MissingCharNotContained(position, "right", 1); }
    assert !Text.Contains(position, "top") by { Text.MissingCharNotContained(position, "top", 1); }
    assert !Text.Contains(position, "bottom") by { Text.MissingCharNotContained(position, "bottom", 0); }
  }

  lemma PlaceCenter(position: string, sw: int, sh: int, w: int, h: int)
    requires position == "center"
    ensures PlaceWindow(position, sw, sh, w, h) == ((sw - w) / 2, (sh - h) / 2)
  {

    assert !Text.Contains(position, "left") by { Text.MissingCharNotContained(position, "left", 0); }
    assert !Text.Contains(position, "right") by { Text.MissingCharNotContained(position, "right", 1); }
    assert !Text.Contains(position, "top") by { Text.MissingCharNotContained(position, "top", 1); }
    assert !Text.Contains(position, "bottom") by { Text.MissingCharNotContained(position, "bottom", 0); }
  }

  lemma PlaceCenterRight(position: string, sw: int, sh: int, w: int, h: int)
    requires position == "center-right"
    ensures PlaceWindow(position, sw, sh, w, h) == (sw - w - 24, (sh - h) / 2)
  {
    assert Text.Contains(position, "right") by { Text.ContainedAt(position, "right", 7); }
    assert !Text.Contains(position, "left") by { Text.MissingCharNotContained(position, "left", 0); }
    assert !Text.Contains(position, "top") by { Text.MissingCharNotContained(position, "top", 1); }
    assert !Text.Contains(position, "bottom") by { Text.MissingCharNotContained(position, "bottom", 0); }
  }

  lemma PlaceBottomLeft(position: string, sw: int, sh: int, w: int, h: int)
    requires position == "bottom-left"
    ensures PlaceWindow(position, sw, sh, w, h) == (24, sh - h - 24)
  {
    assert Text.Contains(position, "left") by { Text.ContainedAt(position, "left", 7); }
    assert Text.Contains(position, "bottom") by { Text.ContainedAt(position, "bottom", 0); }
    assert !Text.Contains(position, "right") by { Text.MissingCharNotContained(position, "right", 0); }
    assert !Text.Contains(position, "top") by { Text.MissingCharNotContained(position, "top", 2); }
  }

  lemma PlaceBottomCenter(position: string, sw: int, sh: int, w: int, h: int)
    requires position == "bottom-center"
    ensures PlaceWindow(position, sw, sh, w, h) == ((sw - w) / 2, sh - h - 24)
  {
    assert Text.Contains(position, "bottom") by { Text.ContainedAt(position, "bottom", 0); }
    assert !Text.Contains(position, "left") by { Text.MissingCharNotContained(position, "left", 0); }
    assert !Text.Contains(position, "right") by { Text.MissingCharNotContained(position, "right", 1); }
    assert !Text.Contains(position, "top") by { Text.MissingCharNotContained(position, "top", 2); }
  }

  lemma PlaceBottomRight(position: string, sw: int, sh: int, w: int, h: int)
    requires position == "bottom-right"
    ensures PlaceWindow(position, sw, sh, w, h) == (sw - w - 24, sh - h - 24)
  {
    assert Text.Contains(position, "right") by { Text.ContainedAt(position, "right", 7); }
    assert Text.Contains(position, "bottom") by { Text.ContainedAt(position, "bottom", 0); }
    assert !Text.Contains(position, "left") by { Text.MissingCharNotContained(position, "left", 0); }
    assert !Text.Contains(position, "top") by { Text.MissingCharNotContained(position, "top", 2); }
  }

  /** The right margin of a right-pinned window equals the left margin of a
      left-pinned one. */
  lemma RightMirrorsLeft(sw: int, sh: int, w: int, h: int)
    ensures sw - (PlaceWindow("bottom-right", sw, sh, w, h).0 + w) == PlaceWindow("bottom-left", sw, sh, w, h).0
  {
    PlaceBottomRight("bottom-right", sw, sh, w, h);
    PlaceBottomLeft("bottom-left", sw, sh, w, h);
  }

  // ---------------------------------------------------------------------
  // The overlay's own state
  // ---------------------------------------------------------------------

  /** The drag threshold: a motion of 3 pixels or more along either axis. */
  predicate FarEnough(dx: int, dy: int)
  {
    dx <= -3 || dx >= 3 || dy <= -3 || dy >= 3
  }

  class Overlay {
    const position: string
    const regionColors: map<string, string>
    var minTextWidth: int
    var userDragged: bool
    var dragStartX: int
    var dragStartY: int

    /** The state `__init__` leaves behind: colours resolved for the
        configured scheme, width 0, not dragged. */
    constructor(config: C.Config)
      ensures position == config.position
      ensures regionColors.Keys == set i | 0 <= i < |ALL_REGION_TAGS| :: ALL_REGION_TAGS[i]
      ensures forall i | 0 <= i < |ALL_REGION_TAGS| ::
        (regionColors[ALL_REGION_TAGS[i]]
          == ColorOr(RegionTable(config.colorScheme, config.widgetMode)[i],
                     Foreground(config.colorScheme, config.widgetMode)))
      ensures minTextWidth == 0 && !userDragged && dragStartX == 0 && dragStartY == 0
    {
      position := config.position;
      var colors := ResolveRegionColors(config.colorScheme, Foreground(config.colorScheme, config.widgetMode),
        config.widgetMode);
      regionColors := colors;
      minTextWidth := 0;
      userDragged := false;
      dragStartX := 0;
      dragStartY := 0;
    }

    /** `set_min_width(width)`: the width only ever grows. */
    method SetMinWidth(width: int)
      modifies this
      ensures minTextWidth == if width > old(minTextWidth) then width else old(minTextWidth)
      ensures minTextWidth >= old(minTextWidth) && minTextWidth >= width
      ensures userDragged == old(userDragged)
      ensures dragStartX == old(dragStartX) && dragStartY == old(dragStartY)
    {
      if width > minTextWidth {
        minTextWidth := width;
      }
    }

    /** The width step of `update_text` and `update_colored`: at least the
        longest line of `text`. */
    method FitText(text: string)
      modifies this
      ensures var maxW := Text.MaxLen(Text.Split(text, '\n'));
        minTextWidth == (if maxW > old(minTextWidth) then maxW else old(minTextWidth))
      ensures forall line | line in Text.Split(text, '\n') :: |line| <= minTextWidth
      ensures minTextWidth >= old(minTextWidth)
      ensures userDragged == old(userDragged)
      ensures dragStartX == old(dragStartX) && dragStartY == old(dragStartY)
    {
      var lines := Text.Split(text, '\n');
      var maxW := Text.MaxLen(lines);
      if maxW > minTextWidth {
        minTextWidth := maxW;
      }
    }

    /** `update_text(text)`: fit the width, then re-place the window unless
        the user has dragged it. */
    method UpdateText(text: string) returns (replaced: bool)
      modifies this
      ensures var maxW := Text.MaxLen(Text.Split(text, '\n'));
        minTextWidth == (if maxW > old(minTextWidth) then maxW else old(minTextWidth))
      ensures forall line | line in Text.Split(text, '\n') :: |line| <= minTextWidth
      ensures minTextWidth >= old(minTextWidth)
      ensures replaced <==> !userDragged
      ensures userDragged == old(userDragged)
      ensures dragStartX == old(dragStartX) && dragStartY == old(dragStartY)
    {
      FitText(text);
      replaced := !userDragged;
    }

    /** `update_colored(display)`: fit the width, tag each row's runs and
        re-place the window unless the user has dragged it. */
    method UpdateColored(text: string, regions: seq<seq<string>>) returns (rows: seq<seq<Span>>, replaced: bool)
      modifies this
      ensures var maxW := Text.MaxLen(Text.Split(text, '\n'));
        minTextWidth == (if maxW > old(minTextWidth) then maxW else old(minTextWidth))
      ensures forall line | line in Text.Split(text, '\n') :: |line| <= minTextWidth
      ensures minTextWidth >= old(minTextWidth)
      ensures var lines := Text.Split(text, '\n');
        && |rows| == (if |regions| < |lines| then |regions| else |lines|)
        && forall r | 0 <= r < |rows| ::
          SpansCover(regions[r], Limit(lines[r], regions[r]), rows[r], Limit(lines[r], regions[r]))
      ensures replaced <==> !userDragged
      ensures userDragged == old(userDragged)
      ensures dragStartX == old(dragStartX) && dragStartY == old(dragStartY)
    {
      FitText(text);
      rows := ColoredSpans(Text.Split(text, '\n'), regions);
      replaced := !userDragged;
    }

    /** `_on_drag_start(event)`. */
    method OnDragStart(x: int, y: int)
      modifies this
      ensures dragStartX == x && dragStartY == y
      ensures userDragged == old(userDragged) && minTextWidth == old(minTextWidth)
    {
      dragStartX := x;
      dragStartY := y;
    }

    /** `_on_drag_motion(event)`: the offset the window is moved by, if any.
        Small jitters do not start a drag; once dragging, every motion moves. */
    method OnDragMotion(x: int, y: int) returns (moved: Option<(int, int)>)
      modifies this
      ensures userDragged <==> old(userDragged) || FarEnough(x - dragStartX, y - dragStartY)
      ensures moved.Some? <==> userDragged
      ensures moved.Some? ==> moved.value == (x - dragStartX, y - dragStartY)
      ensures dragStartX == old(dragStartX) && dragStartY == old(dragStartY)
      ensures minTextWidth == old(minTextWidth)
    {
      var dx := x - dragStartX;
      var dy := y - dragStartY;
      if !userDragged && -3 < dx < 3 && -3 < dy < 3 {
        return None;
      }
      userDragged := true;
      return Some((dx, dy));
    }

    /** `_on_double_click(event)`: forget the drag, so the window snaps back
        to its configured position. */
    method OnDoubleClick()
      modifies this
      ensures !userDragged
      ensures minTextWidth == old(minTextWidth)
      ensures dragStartX == old(dragStartX) && dragStartY == old(dragStartY)
    {
      userDragged := false;
    }
  }

  /** The width ratchet over a sequence of updates never goes down. */
  method FitAll(o: Overlay, texts: seq<string>)
    modifies o
    ensures o.minTextWidth >= old(o.minTextWidth)
    ensures forall k, line | 0 <= k < |texts| && line in Text.Split(texts[k], '\n') :: |line| <= o.minTextWidth
  {
    var k := 0;
    while k < |texts|
      invariant 0 <= k <= |texts|
      invariant o.minTextWidth >= old(o.minTextWidth)
      invariant forall q, line | 0 <= q < k && line in Text.Split(texts[q], '\n') :: |line| <= o.minTextWidth
    {
      o.FitText(texts[k]);
      k := k + 1;
    }
  }
}
