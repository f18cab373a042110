/** The aquarium decoration (asciipal/aquarium.py): birds above the character
    whose number grows with input, and seaweed below it whose height grows
    with active time. Rows are built in character buffers. */
module Aquarium {
  import Text
  import ActivityTracker
  import Arith

  const BIRD_DOWN: string := "\\v/"
  const BIRD_UP: string := "/^\\"

  // ---------------------------------------------------------------------
  // Levels

  /** `_bird_count`: up to 3 for keys, 3 for clicks and 2 for mouse travel. */
  function BirdCount(t: ActivityTracker.ActivityTotals): (n: int)
    ensures n <= 8
    ensures t.totalKeypresses >= 0 && t.totalClicks >= 0 && t.totalMouseDistance >= 0.0 ==> n >= 0
  {
    var n := Min(t.totalKeypresses / 100, 3) + Min(t.totalClicks / 50, 3)
      + Min(Text.Trunc(t.totalMouseDistance) / 10000, 2);
    Min(n, 8)
  }

  function Min(a: int, b: int): int
  {
    if a < b then a else b
  }

  function Max(a: int, b: int): int
  {
    if a < b then b else a
  }

  /** Python's `int(x)` never decreases when `x` grows. */
  lemma TruncMonotone(x: real, y: real)
    requires x <= y
    ensures Text.Trunc(x) <= Text.Trunc(y)
  {
    if x < 0.0 && y >= 0.0 {
      assert Text.Trunc(x) <= 0;
    } else if x < 0.0 {
      assert (-y).Floor <= (-x).Floor;
    }
  }

  /** More keypresses, clicks or mouse travel never mean fewer birds. */
  lemma BirdCountMonotone(t: ActivityTracker.ActivityTotals, u: ActivityTracker.ActivityTotals)
    requires t.totalKeypresses <= u.totalKeypresses && t.totalClicks <= u.totalClicks
    requires t.totalMouseDistance <= u.totalMouseDistance
    ensures BirdCount(t) <= BirdCount(u)
  {
    Arith.DivMonotone(t.totalKeypresses, u.totalKeypresses, 100);
    Arith.DivMonotone(t.totalClicks, u.totalClicks, 50);
    TruncMonotone(t.totalMouseDistance, u.totalMouseDistance);
    Arith.DivMonotone(Text.Trunc(t.totalMouseDistance), Text.Trunc(u.totalMouseDistance), 10000);
  }

  /** `_plant_level`: the number of active-time thresholds 60, 180, 300 and 600 s reached. */
  function PlantLevel(t: ActivityTracker.ActivityTotals): (level: int)
  {
    var secs := t.totalActiveSeconds;
    if secs < 60.0 then 0
    else if secs < 180.0 then 1
    else if secs < 300.0 then 2
    else if secs < 600.0 then 3
    else 4
  }

  /** The level lies in [0, 4] and is reached exactly at its threshold. */
  lemma PlantLevelThresholds(t: ActivityTracker.ActivityTotals)
    ensures 0 <= PlantLevel(t) <= 4
    ensures PlantLevel(t) >= 1 <==> t.totalActiveSeconds >= 60.0
    ensures PlantLevel(t) >= 2 <==> t.totalActiveSeconds >= 180.0
    ensures PlantLevel(t) >= 3 <==> t.totalActiveSeconds >= 300.0
    ensures PlantLevel(t) >= 4 <==> t.totalActiveSeconds >= 600.0
  {
  }

  lemma PlantLevelMonotone(t: ActivityTracker.ActivityTotals, u: ActivityTracker.ActivityTotals)
    requires t.totalActiveSeconds <= u.totalActiveSeconds
    ensures PlantLevel(t) <= PlantLevel(u)
  {
  }

  // ---------------------------------------------------------------------
  // Painting a character buffer

  /** `buf` with `sprite` written from column `x` on, cells outside `buf` skipped. */
  function PaintSprite(buf: string, x: int, sprite: string): (r: string)
    ensures |r| == |buf|
  {
    seq(|buf|, c requires 0 <= c < |buf| => if x <= c < x + |sprite| then sprite[c - x] else buf[c])
  }

  /** `buf[x + j] = ch` for each in-range `j`. */
  method Paint(buf: array<char>, x: int, sprite: string)
    modifies buf
    ensures buf[..] == PaintSprite(old(buf[..]), x, sprite)
  {
    ghost var before := buf[..];
    var j := 0;
    while j < |sprite|
      invariant 0 <= j <= |sprite|
      invariant buf[..] == PaintSprite(before, x, sprite[..j])
    {
      if 0 <= x + j < buf.Length {
        buf[x + j] := sprite[j];
      }
      j := j + 1;
    }
    assert sprite[..j] == sprite;
  }

  // ---------------------------------------------------------------------
  // Birds

  /** The start column of bird `i`: evenly spaced, nudged by -1, 0 or 1 with the frame. */
  function BirdX(i: int, count: int, width: int, frame: int): (x: int)
    requires count >= 0 && width >= 4
    ensures 0 <= x <= width - 3
  {
    var gap := width / (count + 1);
    Max(0, Min(gap * (i + 1) + ((frame + i) % 3 - 1), width - 3))
  }

  /** Wings go down and up on alternate birds and alternate frames. */
  function BirdSprite(i: int, frame: int): (s: string)
    ensures |s| == 3
  {
    if (i + frame) % 2 == 0 then BIRD_DOWN else BIRD_UP
  }

  /** Neighbouring birds, and one bird on consecutive frames, show opposite
      wings; the pattern repeats every two birds and every two frames. */
  lemma WingsAlternate(i: int, frame: int)
    ensures BirdSprite(i, frame) != BirdSprite(i + 1, frame)
    ensures BirdSprite(i, frame) != BirdSprite(i, frame + 1)
    ensures BirdSprite(i, frame) == BirdSprite(i + 2, frame) == BirdSprite(i, frame + 2)
  {
    assert BIRD_DOWN[0] != BIRD_UP[0];
    var q := (i + frame) / 2;
    assert i + frame == 2 * q + (i + frame) % 2;
    assert i + 1 + frame == 2 * q + ((i + frame) % 2 + 1);
    assert i + 2 + frame == 2 * (q + 1) + (i + frame) % 2;
  }

  /** The buffer after the first `n` birds are drawn, later birds over earlier ones. */
  function Birds(n: nat, count: int, width: int, frame: int): (r: string)
    requires count >= 0 && width >= 4
    ensures |r| == width
  {
    if n == 0 then Text.Spaces(width)
    else PaintSprite(Birds(n - 1, count, width, frame), BirdX(n - 1, count, width, frame), BirdSprite(n - 1, frame))
  }

  /** What `_scatter_birds` returns. */
  function BirdLine(count: int, width: int, frame: int): string
  {
    if count <= 0 || width < 4 then "" else Birds(count, count, width, frame)
  }

  /** `_scatter_birds(count, width, frame)`. */
  method ScatterBirds(count: int, width: int, frame: int) returns (line: string)
    ensures line == BirdLine(count, width, frame)
  {
    if count <= 0 || width < 4 {
      return "";
    }
    var buf := new char[width](_ => ' ');
    assert buf[..] == Text.Spaces(width);
    var i := 0;
    while i < count
      invariant 0 <= i <= count
      invariant buf[..] == Birds(i, count, width, frame)
    {
      var x := BirdX(i, count, width, frame);
      var sprite := BirdSprite(i, frame);
      ghost var drawn := buf[..];
      Paint(buf, x, sprite);
      assert buf[..] == PaintSprite(drawn, x, sprite);
      assert Birds(i + 1, count, width, frame) == PaintSprite(drawn, x, sprite);
      i := i + 1;
    }
    line := buf[..];
  }

  predicate BirdChar(c: char)
  {
    c == ' ' || c == '\\' || c == 'v' || c == '/' || c == '^'
  }

  lemma {:induction false} BirdsChars(n: nat, count: int, width: int, frame: int)
    requires count >= 0 && width >= 4
    ensures forall c | 0 <= c < width :: BirdChar(Birds(n, count, width, frame)[c])
  {
    if n > 0 {
      BirdsChars(n - 1, count, width, frame);
    }
  }

  /** The bird line is empty without birds or room, and otherwise exactly
      `width` characters of spaces and wing strokes. */
  lemma BirdLineShape(count: int, width: int, frame: int)
    ensures count <= 0 || width < 4 <==> BirdLine(count, width, frame) == ""
    ensures count > 0 && width >= 4 ==> |BirdLine(count, width, frame)| == width
    ensures forall c | 0 <= c < |BirdLine(count, width, frame)| :: BirdChar(BirdLine(count, width, frame)[c])
  {
    if count > 0 && width >= 4 {
      BirdsChars(count, count, width, frame);
    }
  }

  /** Once a bird is drawn its cells stay wing strokes: later birds paint only wing strokes. */
  lemma {:induction false} BirdsKeepInk(n: nat, count: int, width: int, frame: int, c: int)
    requires count >= 0 && width >= 4 && 0 < n
    requires BirdX(0, count, width, frame) <= c < BirdX(0, count, width, frame) + 3
    ensures Birds(n, count, width, frame)[c] != ' '
  {
    if n > 1 {
      BirdsKeepInk(n - 1, count, width, frame, c);
    }
  }

  /** The last bird drawn is shown whole at its column. */
  lemma LastBirdOnTop(count: int, width: int, frame: int)
    requires count > 0 && width >= 4
    ensures var x := BirdX(count - 1, count, width, frame);
      BirdLine(count, width, frame)[x..x + 3] == BirdSprite(count - 1, frame)
  {
  }

  /** A bird line that is drawn at all is never blank. */
  lemma BirdLineNotBlank(count: int, width: int, frame: int)
    requires count > 0 && width >= 4
    ensures !Text.IsBlank(BirdLine(count, width, frame))
  {
    var x := BirdX(0, count, width, frame);
    BirdsKeepInk(count, count, width, frame, x);
    BirdsChars(count, count, width, frame);
    assert !Text.IsSpace(BirdLine(count, width, frame)[x]);
  }

  // ---------------------------------------------------------------------
  // Plants

  /** The five seaweed columns. */
  function Positions(width: int): seq<int>
  {
    [2, width / 4, width / 2, 3 * width / 4, width - 3]
  }

  /** The leaf at column `i` of row `row` leans one way or the other. */
  function Leaf(row: int, i: int, frame: int): char
  {
    if (row + i + frame) % 2 == 0 then '(' else ')'
  }

  /** With room for plants, every seaweed column lies inside the row, from
      column 2 to three before the right edge. */
  lemma PositionsInside(width: int)
    requires width >= 4
    ensures forall k | 0 <= k < 5 :: 0 <= Positions(width)[k] < width
    ensures Positions(width)[0] == 2 && Positions(width)[4] == width - 3
  {
  }

  /** The leaves flip on every frame and alternate between neighbouring rows
      and columns. */
  lemma LeavesAlternate(row: int, i: int, frame: int)
    ensures Leaf(row, i, frame) in "()"
    ensures Leaf(row, i, frame) != Leaf(row, i, frame + 1)
    ensures Leaf(row, i, frame) != Leaf(row + 1, i, frame)
    ensures Leaf(row, i, frame) != Leaf(row, i + 1, frame)
  {
    var q := (row + i + frame) / 2;
    var r := (row + i + frame) % 2;
    assert row + i + frame == 2 * q + r;
    assert row + i + frame + 1 == 2 * q + (r + 1);
    assert row + 1 + i + frame == 2 * q + (r + 1);
    assert row + (i + 1) + frame == 2 * q + (r + 1);
  }

  /** A row buffer after the first `n` seaweed columns are set. */
  function PlantRow(n: nat, row: int, width: int, frame: int): (r: string)
    requires n <= 5 && width >= 0
    ensures |r| == width
  {
    if n == 0 then Text.Spaces(width)
    else
      var prev := PlantRow(n - 1, row, width, frame);
      var pos := Positions(width)[n - 1];
      if 0 <= pos < width then prev[pos := Leaf(row, n - 1, frame)] else prev
  }

  /** What `_build_plants` returns. */
  function PlantLines(level: int, width: int, frame: int): (rows: seq<string>)
  {
    if level <= 0 || width < 4 then []
    else seq(level, row requires 0 <= row < level => PlantRow(Min(level + 1, 5), row, width, frame))
  }

  /** `_build_plants(level, width, frame)`. */
  method BuildPlants(level: int, width: int, frame: int) returns (lines: seq<string>)
    ensures lines == PlantLines(level, width, frame)
  {
    if level <= 0 || width < 4 {
      return [];
    }
    var positions := Positions(width);
    var numCols := Min(level + 1, |positions|);
    lines := [];
    var row := 0;
    while row < level
      invariant 0 <= row <= level
      invariant |lines| == row
      invariant forall k | 0 <= k < row :: lines[k] == PlantRow(numCols, k, width, frame)
    {
      var buf := new char[width](_ => ' ');
      assert buf[..] == Text.Spaces(width);
      var i := 0;
      while i < numCols
        invariant 0 <= i <= numCols
        invariant buf[..] == PlantRow(i, row, width, frame)
      {
        var pos := positions[i];
        if 0 <= pos < width {
          buf[pos] := Leaf(row, i, frame);
        }
        i := i + 1;
      }
      lines := lines + [buf[..]];
      row := row + 1;
    }
  }

  /** The number of non-space characters. */
  function Ink(s: string): nat
  {
    if s == [] then 0 else (if s[|s| - 1] == ' ' then 0 else 1) + Ink(s[..|s| - 1])
  }

  lemma {:induction false} InkOfSpaces(n: nat)
    ensures Ink(Text.Spaces(n)) == 0
  {
    if n > 0 {
      assert Text.Spaces(n)[..n - 1] == Text.Spaces(n - 1);
      InkOfSpaces(n - 1);
    }
  }

  /** Setting one cell adds at most one non-space character. */
  lemma {:induction false} InkAfterSet(s: string, p: nat, ch: char)
    requires p < |s|
    ensures Ink(s[p := ch]) <= Ink(s) + 1
    decreases |s|
  {
    var t := s[p := ch];
    if p < |s| - 1 {
      assert t[..|t| - 1] == s[..|s| - 1][p := ch];
      InkAfterSet(s[..|s| - 1], p, ch);
    } else {
      assert t[..|t| - 1] == s[..|s| - 1];
    }
  }

  lemma {:induction false} PlantRowFacts(n: nat, row: int, width: int, frame: int)
    requires n <= 5 && width >= 0
    ensures Ink(PlantRow(n, row, width, frame)) <= n
    ensures forall c | 0 <= c < width :: PlantRow(n, row, width, frame)[c] in {' ', '(', ')'}
  {
    if n == 0 {
      InkOfSpaces(width);
    } else {
      PlantRowFacts(n - 1, row, width, frame);
      var pos := Positions(width)[n - 1];
      if 0 <= pos < width {
        InkAfterSet(PlantRow(n - 1, row, width, frame), pos, Leaf(row, n - 1, frame));
      }
    }
  }

  /** No plants without a level or room; otherwise one row per level, each
      `width` wide, of spaces and leaves, with at most min(level + 1, 5) leaves. */
  lemma PlantLinesShape(level: int, width: int, frame: int)
    ensures level <= 0 || width < 4 <==> PlantLines(level, width, frame) == []
    ensures level > 0 && width >= 4 ==> |PlantLines(level, width, frame)| == level
    ensures forall row | 0 <= row < |PlantLines(level, width, frame)| ::
      && |PlantLines(level, width, frame)[row]| == width
      && Ink(PlantLines(level, width, frame)[row]) <= Min(level + 1, 5)
      && forall c | 0 <= c < width :: PlantLines(level, width, frame)[row][c] in {' ', '(', ')'}
  {
    if level > 0 && width >= 4 {
      forall row | 0 <= row < level
        ensures Ink(PlantLines(level, width, frame)[row]) <= Min(level + 1, 5)
        ensures forall c | 0 <= c < width :: PlantLines(level, width, frame)[row][c] in {' ', '(', ')'}
      {
        PlantRowFacts(Min(level + 1, 5), row, width, frame);
      }
    }
  }

  // ---------------------------------------------------------------------
  // The scene

  /** `build_aquarium_scene(totals, content_w, frame)`: the bird lines and the plant lines. */
  method BuildAquariumScene(t: ActivityTracker.ActivityTotals, contentW: int, frame: int)
    returns (birdLines: seq<string>, plantLines: seq<string>)
    ensures |birdLines| <= 1
    ensures forall k | 0 <= k < |birdLines| :: !Text.IsBlank(birdLines[k])
    ensures birdLines != [] <==> BirdCount(t) > 0 && contentW >= 4
    ensures birdLines != [] ==> birdLines[0] == BirdLine(BirdCount(t), contentW, frame)
    ensures plantLines == PlantLines(PlantLevel(t), contentW, frame)
  {
    birdLines := [];
    plantLines := [];
    var birds := BirdCount(t);
    var level := PlantLevel(t);
    if birds > 0 {
      var line := ScatterBirds(birds, contentW, frame);
      if contentW >= 4 {
        BirdLineNotBlank(birds, contentW, frame);
      } else {
        assert line == "";
        assert Text.IsBlank(line);
      }
      if !Text.IsBlank(line) {
        birdLines := birdLines + [line];
      }
    }
    if level > 0 {
      plantLines := BuildPlants(level, contentW, frame);
    }
  }
}
