/** The ambient effects of the aquarium (asciipal/effects.py): rising bubbles,
    blinking fireflies and companion creatures that unlock with activity.
    Each random draw of the source is an arbitrary choice within the range
    the source draws from. */
module Effects {
  import Text
  import ActivityTracker

  const BUBBLE_CHARS: seq<string> := ["\U{b7}", "\U{b0}", "o"]
  const FIREFLY_CHARS: seq<string> := ["\U{b7}", "\U{2d9}", "\U{b0}"]

  /** The most bubbles that may be afloat at once. */
  const MAX_BUBBLES: nat := 4

  datatype Particle = Particle(x: int, y: int, glyph: string)

  /** One `(row, col, char, region_tag)` overlay cell. */
  datatype Overlay = Overlay(row: int, col: int, glyph: string, tag: string)

  function Min(a: int, b: int): int
  {
    if a < b then a else b
  }

  function Max(a: int, b: int): int
  {
    if a < b then b else a
  }

  /** `max(0, min(v, hi))`. */
  function Clamp(v: int, hi: int): (r: int)
    ensures 0 <= r <= Max(0, hi)
    ensures 0 <= v <= hi ==> r == v
  {
    Max(0, Min(v, hi))
  }

  /** `v` moved by -1, 0 or +1 and clamped to [0, hi]. */
  predicate Drifted(v: int, w: int, hi: int)
  {
    w == Clamp(v - 1, hi) || w == Clamp(v, hi) || w == Clamp(v + 1, hi)
  }

  // ---------------------------------------------------------------------
  // Bubbles

  function MinReal(a: real, b: real): real
  {
    if a < b then a else b
  }

  /** `_spawn_rate`: keys, clicks and active time each add a capped share. */
  function SpawnRate(t: ActivityTracker.ActivityTotals): (r: real)
    ensures r <= 0.6
    ensures t.totalKeypresses >= 0 && t.totalClicks >= 0 && t.totalActiveSeconds >= 0.0 ==> r >= 0.0
    ensures t.totalKeypresses >= 0 && t.totalClicks >= 0 && t.totalActiveSeconds >= 0.0 ==>
      (r > 0.0 <==> t.totalKeypresses > 0 || t.totalClicks > 0 || t.totalActiveSeconds > 0.0)
  {
    var rate := MinReal(t.totalKeypresses as real / 200.0, 0.3) + MinReal(t.totalClicks as real / 100.0, 0.2)
      + MinReal(t.totalActiveSeconds / 300.0, 0.2);
    MinReal(rate, 0.6)
  }

  /** Without any activity no bubble is ever spawned. */
  lemma NoActivityNoBubbles(t: ActivityTracker.ActivityTotals)
    requires t.totalKeypresses == 0 && t.totalClicks == 0 && t.totalActiveSeconds == 0.0
    ensures SpawnRate(t) == 0.0
  {
  }

  /** Each bubble of `after` is the bubble of `before` one row higher, drifted sideways. */
  predicate Rose(before: seq<Particle>, after: seq<Particle>, width: int)
  {
    && |after| == |before|
    && forall i | 0 <= i < |after| ::
      && after[i].y == before[i].y - 1
      && after[i].glyph == before[i].glyph
      && Drifted(before[i].x, after[i].x, width - 1)
  }

  /** The bubbles still inside the area, in order. */
  function Afloat(s: seq<Particle>): (r: seq<Particle>)
    ensures |r| <= |s|
    ensures forall p :: p in r <==> p in s && p.y >= 0
  {
    if s == [] then []
    else Afloat(s[..|s| - 1]) + (if s[|s| - 1].y >= 0 then [s[|s| - 1]] else [])
  }

  /** A bubble just spawned at the bottom row. */
  predicate NewBubble(p: Particle, width: int, height: int)
  {
    1 <= p.x <= Max(1, width - 2) && p.y == height - 1 && p.glyph in BUBBLE_CHARS
  }

  /** One bubble update: every bubble rises (`risen`), those above the top are
      dropped, and with a positive spawn rate at most one new bubble joins. */
  predicate BubbleStep(before: seq<Particle>, risen: seq<Particle>, after: seq<Particle>,
                       t: ActivityTracker.ActivityTotals, width: int, height: int)
  {
    && Rose(before, risen, width)
    && (var kept := Afloat(risen);
        || after == kept
        || (&& SpawnRate(t) > 0.0 && |kept| < MAX_BUBBLES
            && |after| == |kept| + 1 && after[..|kept|] == kept
            && NewBubble(after[|kept|], width, height)))
    && (SpawnRate(t) <= 0.0 ==> after == Afloat(risen))
  }

  class BubbleSystem {
    var bubbles: seq<Particle>

    predicate Valid()
      reads this
    {
      |bubbles| <= MAX_BUBBLES
    }

    constructor()
      ensures bubbles == [] && Valid()
    {
      bubbles := [];
    }

    /** `update(totals, content_w, content_h, frame)`; `risen` is the list after
        the move and before the bubbles above the top are dropped. */
    method Update(t: ActivityTracker.ActivityTotals, width: int, height: int, frame: int)
      returns (shown: seq<Particle>, ghost risen: seq<Particle>)
      modifies this
      ensures BubbleStep(old(bubbles), risen, bubbles, t, width, height)
      ensures old(Valid()) ==> Valid()
      ensures shown == bubbles
    {
      var moved: seq<Particle> := [];
      var i := 0;
      while i < |bubbles|
        invariant 0 <= i <= |bubbles|
        invariant Rose(bubbles[..i], moved, width)
      {
        var b := bubbles[i];
        var drift :| drift in {-1, 0, 1};
        moved := moved + [Particle(Clamp(b.x + drift, width - 1), b.y - 1, b.glyph)];
        i := i + 1;
      }
      assert bubbles[..i] == bubbles;
      risen := moved;
      bubbles := Afloat(moved);
      var rate := SpawnRate(t);
      var chance: real :| 0.0 <= chance < 1.0;
      if rate > 0.0 && chance < rate && |bubbles| < MAX_BUBBLES {
        var x :| 1 <= x <= Max(1, width - 2);
        var k :| 0 <= k < |BUBBLE_CHARS|;
        var glyph := BUBBLE_CHARS[k];
        bubbles := bubbles + [Particle(x, height - 1, glyph)];
      }
      shown := bubbles;
    }
  }

  // ---------------------------------------------------------------------
  // Fireflies

  function MaxFlies(isNight: bool): nat
  {
    if isNight then 5 else 3
  }

  /** The particle lies in the area, or at its origin when the area is empty. */
  predicate InArea(p: Particle, width: int, height: int)
  {
    0 <= p.x <= Max(0, width - 1) && 0 <= p.y <= Max(0, height - 1)
  }

  /** A firefly is lit unless its offset lands on a multiple of four. */
  predicate Lit(frame: int, offset: int)
  {
    (frame + offset) % 4 != 0
  }

  /** 1 on a frame where the firefly is dark, 0 where it is lit. */
  function Dark(frame: int, offset: int): nat
  {
    if Lit(frame, offset) then 0 else 1
  }

  /** Each firefly blinks with period four: dark on exactly one frame in
      every four consecutive frames, lit on the other three. */
  lemma DarkOnceInFour(frame: int, offset: int)
    ensures Lit(frame + 4, offset) == Lit(frame, offset)
    ensures Dark(frame, offset) + Dark(frame + 1, offset) + Dark(frame + 2, offset) + Dark(frame + 3, offset) == 1
  {
    var n := frame + offset;
    ModFourNext(n);
    ModFourNext(n + 1);
    ModFourNext(n + 2);
    ModFourNext(n + 3);
  }

  /** The remainder by four steps around 0, 1, 2, 3. */
  lemma ModFourNext(n: int)
    ensures (n + 1) % 4 == if n % 4 == 3 then 0 else n % 4 + 1
  {
    var q := n / 4;
    assert n == 4 * q + n % 4;
    if n % 4 == 3 {
      assert n + 1 == 4 * (q + 1);
    } else {
      assert n + 1 == 4 * q + (n % 4 + 1);
    }
  }

  /** The lit fireflies, in order. */
  function Blink(flies: seq<Particle>, offsets: seq<int>, frame: int): (r: seq<Particle>)
    requires |flies| == |offsets|
    ensures |r| <= |flies|
    ensures forall p :: p in r <==> exists i | 0 <= i < |flies| :: flies[i] == p && Lit(frame, offsets[i])
  {
    if flies == [] then []
    else
      var n := |flies| - 1;
      var rest := Blink(flies[..n], offsets[..n], frame);
      assert forall i | 0 <= i < n :: flies[..n][i] == flies[i] && offsets[..n][i] == offsets[i];
      rest + (if Lit(frame, offsets[n]) then [flies[n]] else [])
  }

  /** The positions of the lit fireflies. */
  function LitIndices(offsets: seq<int>, frame: int): (ix: seq<nat>)
    ensures forall k | 0 <= k < |ix| :: ix[k] < |offsets|
  {
    if offsets == [] then []
    else
      var n := |offsets| - 1;
      LitIndices(offsets[..n], frame) + (if Lit(frame, offsets[n]) then [n] else [])
  }

  predicate Increasing(ix: seq<nat>)
  {
    forall j, k | 0 <= j < k < |ix| :: ix[j] < ix[k]
  }

  /** The lit positions are listed once each, in increasing order. */
  lemma {:induction false} LitIndicesExactly(offsets: seq<int>, frame: int)
    ensures Increasing(LitIndices(offsets, frame))
    ensures forall i | 0 <= i < |offsets| :: i in LitIndices(offsets, frame) <==> Lit(frame, offsets[i])
  {
    if offsets != [] {
      var n := |offsets| - 1;
      LitIndicesExactly(offsets[..n], frame);
      var before := LitIndices(offsets[..n], frame);
      var ix := LitIndices(offsets, frame);
      assert forall k | 0 <= k < |before| :: ix[k] == before[k] && before[k] < n;
      forall j, k | 0 <= j < k < |ix|
        ensures ix[j] < ix[k]
      {
        if k >= |before| {
          assert ix[k] == n;
        } else {
          assert before[j] < before[k];
        }
      }
      forall i | 0 <= i < n
        ensures offsets[..n][i] == offsets[i]
      {
      }
    }
  }

  /** `Blink` keeps exactly the fireflies at the lit positions, in their order:
      the visible list is the in-order subsequence of the lit fireflies. */
  lemma {:induction false} BlinkIsSubsequence(flies: seq<Particle>, offsets: seq<int>, frame: int)
    requires |flies| == |offsets|
    ensures var ix := LitIndices(offsets, frame);
      |Blink(flies, offsets, frame)| == |ix|
      && forall k | 0 <= k < |ix| :: Blink(flies, offsets, frame)[k] == flies[ix[k]]
  {
    if flies != [] {
      var n := |flies| - 1;
      BlinkIsSubsequence(flies[..n], offsets[..n], frame);
      var ix := LitIndices(offsets[..n], frame);
      forall k | 0 <= k < |ix|
        ensures flies[..n][ix[k]] == flies[ix[k]]
      {
      }
    }
  }

  /** Every firefly blinks out on exactly one frame in four. */
  lemma OneDarkFrameInFour(frame: int, offset: int)
    ensures Lit(frame, offset) <==> (frame + offset) % 4 in {1, 2, 3}
    ensures !Lit(frame, offset) ==> Lit(frame + 1, offset) && Lit(frame + 2, offset) && Lit(frame + 3, offset)
  {
  }

  /** One firefly update: outside night and flow everything is cleared;
      otherwise the swarm is topped up to its size, each old firefly drifts by
      at most one cell and keeps its glyph, and every firefly ends in the area. */
  predicate FireflyStep(flies0: seq<Particle>, offsets0: seq<int>, flies: seq<Particle>, offsets: seq<int>,
                        isNight: bool, isFlow: bool, width: int, height: int)
  {
    && |flies| == |offsets|
    && (!(isNight || isFlow) ==> flies == [] && offsets == [])
    && (isNight || isFlow ==>
      && |flies0| <= |flies| && |offsets0| <= |offsets|
      && |flies| == Max(|flies0|, MaxFlies(isNight))
      && offsets[..|offsets0|] == offsets0
      && (forall i | 0 <= i < |flies| :: InArea(flies[i], width, height))
      && (forall i | 0 <= i < |flies0| ::
        && Drifted(flies0[i].x, flies[i].x, width - 1)
        && Drifted(flies0[i].y, flies[i].y, height - 1)
        && flies[i].glyph == flies0[i].glyph)
      && (forall i | |flies0| <= i < |flies| :: flies[i].glyph in FIREFLY_CHARS && 0 <= offsets[i] <= 3))
  }

  class FireflySystem {
    var fireflies: seq<Particle>
    var blinkOffsets: seq<int>

    predicate Valid()
      reads this
    {
      |fireflies| == |blinkOffsets|
    }

    constructor()
      ensures fireflies == [] && blinkOffsets == [] && Valid()
    {
      fireflies := [];
      blinkOffsets := [];
    }

    /** `update(is_night, is_flow, content_w, content_h, frame)`. */
    method Update(isNight: bool, isFlow: bool, width: int, height: int, frame: int)
      returns (visible: seq<Particle>)
      requires Valid()
      modifies this
      ensures Valid()
      ensures FireflyStep(old(fireflies), old(blinkOffsets), fireflies, blinkOffsets, isNight, isFlow, width, height)
      ensures visible == if isNight || isFlow then Blink(fireflies, blinkOffsets, frame) else []
    {
      if !(isNight || isFlow) {
        fireflies := [];
        blinkOffsets := [];
        return [];
      }
      var maxFlies := MaxFlies(isNight);
      while |fireflies| < maxFlies
        invariant |fireflies| == |blinkOffsets|
        invariant |old(fireflies)| <= |fireflies| <= Max(|old(fireflies)|, maxFlies)
        invariant fireflies[..|old(fireflies)|] == old(fireflies)
        invariant blinkOffsets[..|old(blinkOffsets)|] == old(blinkOffsets)
        invariant forall i | |old(fireflies)| <= i < |fireflies| ::
          && 1 <= fireflies[i].x <= Max(1, width - 2) && 0 <= fireflies[i].y <= Max(0, height - 1)
          && fireflies[i].glyph in FIREFLY_CHARS && 0 <= blinkOffsets[i] <= 3
        decreases maxFlies - |fireflies|
      {
        var x :| 1 <= x <= Max(1, width - 2);
        var y :| 0 <= y <= Max(0, height - 1);
        var k :| 0 <= k < |FIREFLY_CHARS|;
        var glyph := FIREFLY_CHARS[k];
        var offset :| 0 <= offset <= 3;
        fireflies := fireflies + [Particle(x, y, glyph)];
        blinkOffsets := blinkOffsets + [offset];
      }
      ghost var spawned := fireflies;
      ghost var offsets := blinkOffsets;
      var i := 0;
      while i < |fireflies|
        invariant 0 <= i <= |fireflies| == |spawned|
        invariant blinkOffsets == offsets
        invariant forall k | i <= k < |fireflies| :: fireflies[k] == spawned[k]
        invariant forall k | 0 <= k < i ::
          && Drifted(spawned[k].x, fireflies[k].x, width - 1)
          && Drifted(spawned[k].y, fireflies[k].y, height - 1)
          && fireflies[k].glyph == spawned[k].glyph
          && InArea(fireflies[k], width, height)
      {
        var f := fireflies[i];
        var dx :| dx in {-1, 0, 1};
        var dy :| dy in {-1, 0, 1};
        fireflies := fireflies[i := Particle(Clamp(f.x + dx, width - 1), Clamp(f.y + dy, height - 1), f.glyph)];
        i := i + 1;
      }
      assert forall k | 0 <= k < |old(fireflies)| :: spawned[k] == old(fireflies)[k];
      visible := LitFireflies(fireflies, blinkOffsets, frame);
    }
  }

  /** The filtering loop at the end of the fireflies' `update`. */
  method LitFireflies(flies: seq<Particle>, offsets: seq<int>, frame: int) returns (visible: seq<Particle>)
    requires |flies| == |offsets|
    ensures visible == Blink(flies, offsets, frame)
  {
    visible := [];
    var j := 0;
    while j < |flies|
      invariant 0 <= j <= |flies|
      invariant visible == Blink(flies[..j], offsets[..j], frame)
    {
      if Lit(frame, offsets[j]) {
        visible := visible + [flies[j]];
      }
      assert flies[..j + 1][..j] == flies[..j] && offsets[..j + 1][..j] == offsets[..j];
      j := j + 1;
    }
    assert flies[..j] == flies && offsets[..j] == offsets;
  }

  // ---------------------------------------------------------------------
  // Creatures

  datatype CreatureDef = CreatureDef(
    name: string,
    rightSprites: seq<string>,
    leftSprites: seq<string>,
    minKeypresses: int,
    minActiveSeconds: real,
    minBreaks: int)

  const CREATURE_DEFS: seq<CreatureDef> := [
    CreatureDef("fish", ["><>"], ["<><"], 500, 0.0, 0),
    CreatureDef("butterfly", ["}{", ")("], ["}{", ")("], 0, 1800.0, 0),
    CreatureDef("snail", ["@/"], ["\\@"], 0, 0.0, 3),
    CreatureDef("cat", ["=^.^="], ["=^.^="], 2000, 0.0, 0),
    CreatureDef("crab", ["V(;,;)V", "v(;,;)v"], ["V(;,;)V", "v(;,;)v"], 0, 5000.0, 0),
    CreatureDef("seahorse", ["S~", "~S"], ["S~", "~S"], 0, 0.0, 10)
  ]

  /** A creature on screen: which def it shows, where it is, which way it walks. */
  datatype ActiveCreature = ActiveCreature(kind: nat, x: int, y: int, dx: int)

  function Name(kind: nat): string
    requires kind < |CREATURE_DEFS|
  {
    CREATURE_DEFS[kind].name
  }

  /** The six creatures have six different names. */
  lemma NamesDistinct(a: nat, b: nat)
    requires a < |CREATURE_DEFS| && b < |CREATURE_DEFS| && a != b
    ensures Name(a) != Name(b)
  {
    assert Name(0)[0] == 'f' && Name(1)[0] == 'b' && Name(2)[0] == 's' && Name(3)[0] == 'c';
    assert Name(4)[0] == 'c' && Name(5)[0] == 's';
    assert Name(3)[1] == 'a' && Name(4)[1] == 'r' && Name(2)[1] == 'n' && Name(5)[1] == 'e';
  }

  /** All three minimums of the def are met. */
  predicate Meets(kind: nat, t: ActivityTracker.ActivityTotals, breaksTaken: int)
    requires kind < |CREATURE_DEFS|
  {
    var d := CREATURE_DEFS[kind];
    t.totalKeypresses >= d.minKeypresses && t.totalActiveSeconds >= d.minActiveSeconds && breaksTaken >= d.minBreaks
  }

  /** The unlocked set after def `i` is considered: the defs before `i + 1`
      are unlocked exactly when they were or their minimums are met, the rest
      are as they were. */
  lemma UnlockedStep(i: nat, u0: set<string>, u: set<string>, u1: set<string>,
                     t: ActivityTracker.ActivityTotals, breaksTaken: int)
    requires i < |CREATURE_DEFS|
    requires forall k | 0 <= k < i :: Name(k) in u <==> Name(k) in u0 || Meets(k, t, breaksTaken)
    requires forall k | i <= k < |CREATURE_DEFS| :: Name(k) in u <==> Name(k) in u0
    requires u1 == u + (if Name(i) !in u && Meets(i, t, breaksTaken) then {Name(i)} else {})
    ensures forall k | 0 <= k < i + 1 :: Name(k) in u1 <==> Name(k) in u0 || Meets(k, t, breaksTaken)
    ensures forall k | i + 1 <= k < |CREATURE_DEFS| :: Name(k) in u1 <==> Name(k) in u0
  {
    forall k | 0 <= k < |CREATURE_DEFS| && k != i
      ensures Name(k) in u1 <==> Name(k) in u
    {
      NamesDistinct(k, i);
    }
  }

  /** The row a creature of this kind walks on: its share of the area's height. */
  function Row(kind: nat, height: int): int
  {
    Max(0, Min(Text.Trunc((kind + 1) as real / (|CREATURE_DEFS| + 1) as real * height as real), height - 1))
  }

  /** The row lies inside the area, and is the top row when the area has none. */
  lemma RowInside(kind: nat, height: int)
    ensures 0 <= Row(kind, height)
    ensures height > 0 ==> Row(kind, height) < height
    ensures height <= 0 ==> Row(kind, height) == 0
  {
  }

  /** The state of a creature just unlocked. */
  predicate Fresh(c: ActiveCreature, width: int, height: int)
  {
    c.kind < |CREATURE_DEFS| && c.y == Row(c.kind, height) && 0 <= c.x <= Max(0, width - 4) && c.dx in {-1, 1}
  }

  /** The names of the creatures, as a set. */
  function Names(cs: seq<ActiveCreature>): set<string>
    requires forall i | 0 <= i < |cs| :: cs[i].kind < |CREATURE_DEFS|
  {
    if cs == [] then {} else Names(cs[..|cs| - 1]) + {Name(cs[|cs| - 1].kind)}
  }

  lemma {:induction false} InNames(cs: seq<ActiveCreature>, kind: nat)
    requires forall i | 0 <= i < |cs| :: cs[i].kind < |CREATURE_DEFS|
    requires kind < |CREATURE_DEFS|
    ensures Name(kind) in Names(cs) <==> exists i | 0 <= i < |cs| :: cs[i].kind == kind
  {
    if cs != [] {
      var n := |cs| - 1;
      InNames(cs[..n], kind);
      assert forall i | 0 <= i < n :: cs[..n][i] == cs[i];
      if cs[n].kind != kind {
        NamesDistinct(cs[n].kind, kind);
      }
    }
  }

  /** No two creatures show the same def. */
  predicate DistinctKinds(cs: seq<ActiveCreature>)
  {
    forall i, j | 0 <= i < j < |cs| :: cs[i].kind != cs[j].kind
  }

  /** With distinct kinds there are as many names as creatures. */
  lemma {:induction false} NamesCount(cs: seq<ActiveCreature>)
    requires forall i | 0 <= i < |cs| :: cs[i].kind < |CREATURE_DEFS|
    requires DistinctKinds(cs)
    ensures |Names(cs)| == |cs|
  {
    if cs != [] {
      var n := |cs| - 1;
      NamesCount(cs[..n]);
      InNames(cs[..n], cs[n].kind);
    }
  }

  /** Appending a creature whose name is not yet taken keeps kinds distinct
      and adds exactly its name. */
  lemma {:induction false} JoinKeepsDistinct(cs: seq<ActiveCreature>, c: ActiveCreature)
    requires forall i | 0 <= i < |cs| :: cs[i].kind < |CREATURE_DEFS|
    requires c.kind < |CREATURE_DEFS| && DistinctKinds(cs) && Name(c.kind) !in Names(cs)
    ensures DistinctKinds(cs + [c])
    ensures (cs + [c])[..|cs|] == cs
    ensures Names(cs + [c]) == Names(cs) + {Name(c.kind)}
  {
    InNames(cs, c.kind);
    assert (cs + [c])[..|cs|] == cs;
  }

  /** The part of the sprite list a creature walking in direction `dx` uses. */
  function Sprite(kind: nat, dx: int, frame: int): (s: string)
    requires kind < |CREATURE_DEFS|
  {
    var d := CREATURE_DEFS[kind];
    var sprites := if dx > 0 then d.rightSprites else d.leftSprites;
    sprites[frame % |sprites|]
  }

  /** Walking left or right, a creature is as wide on every frame. */
  lemma SpriteWidthSameBothWays(kind: nat, dx: int, frame: int)
    requires kind < |CREATURE_DEFS|
    ensures |Sprite(kind, dx, frame)| == |Sprite(kind, 1, frame)|
  {
  }

  /** One creature's step: walk on even frames, pick the sprite for the way it
      walks, and bounce off either edge. */
  function Move(c: ActiveCreature, frame: int, width: int): (r: (ActiveCreature, string))
    requires c.kind < |CREATURE_DEFS|
    ensures r.0.kind == c.kind && r.0.y == c.y
    ensures r.1 == Sprite(c.kind, c.dx, frame)
    ensures 0 <= r.0.x <= Max(0, width - |r.1|)
    ensures c.dx in {-1, 1} ==> r.0.dx in {-1, 1}
  {
    var x := if frame % 2 == 0 then c.x + c.dx else c.x;
    var sprite := Sprite(c.kind, c.dx, frame);
    if x <= 0 then (c.(x := 0, dx := 1), sprite)
    else if x + |sprite| >= width then (c.(x := Max(0, width - |sprite|), dx := -1), sprite)
    else (c.(x := x), sprite)
  }

  /** The cells of the first `n` characters of a sprite drawn at (y, x): blanks
      and columns outside the area skipped. */
  function SpriteCells(y: int, x: int, sprite: string, n: nat, width: int, tag: string): (r: seq<Overlay>)
    requires n <= |sprite|
    ensures |r| <= n
    ensures forall k | 0 <= k < |r| ::
      && r[k].row == y && 0 <= r[k].col < width && x <= r[k].col < x + n
      && r[k].glyph != " " && |r[k].glyph| == 1 && r[k].tag == tag
  {
    if n == 0 then []
    else
      var j := n - 1;
      SpriteCells(y, x, sprite, j, width, tag)
      + (if sprite[j] != ' ' && 0 <= x + j < width then [Overlay(y, x + j, [sprite[j]], tag)] else [])
  }

  /** The cells all creatures emit on this frame, in list order. */
  function AllCells(cs: seq<ActiveCreature>, frame: int, width: int): (r: seq<Overlay>)
    requires forall i | 0 <= i < |cs| :: cs[i].kind < |CREATURE_DEFS|
    ensures forall k | 0 <= k < |r| :: 0 <= r[k].col < width && r[k].glyph != " " && |r[k].glyph| == 1
    ensures forall k | 0 <= k < |r| :: exists i | 0 <= i < |cs| :: r[k].tag == Name(cs[i].kind)
  {
    if cs == [] then []
    else
      var n := |cs| - 1;
      var rest := AllCells(cs[..n], frame, width);
      var m := Move(cs[n], frame, width);
      var own := SpriteCells(m.0.y, m.0.x, m.1, |m.1|, width, Name(cs[n].kind));
      assert forall k | 0 <= k < |rest| :: exists i | 0 <= i < |cs| :: rest[k].tag == Name(cs[i].kind) by {
        forall k | 0 <= k < |rest|
          ensures exists i | 0 <= i < |cs| :: rest[k].tag == Name(cs[i].kind)
        {
          var i :| 0 <= i < n && rest[k].tag == Name(cs[..n][i].kind);
          assert cs[..n][i] == cs[i];
        }
      }
      rest + own
  }

  /** One more creature adds its own cells after the earlier ones'. */
  lemma AllCellsStep(cs: seq<ActiveCreature>, i: nat, frame: int, width: int)
    requires i < |cs|
    requires forall k | 0 <= k < |cs| :: cs[k].kind < |CREATURE_DEFS|
    ensures AllCells(cs[..i + 1], frame, width) == AllCells(cs[..i], frame, width)
      + SpriteCells(Move(cs[i], frame, width).0.y, Move(cs[i], frame, width).0.x, Move(cs[i], frame, width).1,
                    |Move(cs[i], frame, width).1|, width, Name(cs[i].kind))
  {
    assert cs[..i + 1][..i] == cs[..i];
    assert cs[..i + 1][i] == cs[i];
  }

  /** One creature update: the defs newly met join after the old creatures
      (`joined`), a name is unlocked exactly when it was or its minimums are now
      met, and then every creature moves. */
  predicate CreatureStep(before: seq<ActiveCreature>, unlocked0: set<string>, joined: seq<ActiveCreature>,
                         after: seq<ActiveCreature>, unlocked: set<string>,
                         t: ActivityTracker.ActivityTotals, breaksTaken: int, width: int, height: int, frame: int)
  {
    && |before| <= |joined| && joined[..|before|] == before
    && (forall j | |before| <= j < |joined| :: Fresh(joined[j], width, height) && Meets(joined[j].kind, t, breaksTaken))
    && (forall k | 0 <= k < |CREATURE_DEFS| :: Name(k) in unlocked <==> Name(k) in unlocked0 || Meets(k, t, breaksTaken))
    && (forall i | 0 <= i < |joined| :: joined[i].kind < |CREATURE_DEFS|)
    && |after| == |joined|
    && (forall i | 0 <= i < |after| :: after[i] == Move(joined[i], frame, width).0)
  }

  class CreatureSystem {
    var creatures: seq<ActiveCreature>
    var unlocked: set<string>

    predicate Valid()
      reads this
    {
      && (forall i | 0 <= i < |creatures| :: creatures[i].kind < |CREATURE_DEFS| && creatures[i].dx in {-1, 1})
      && DistinctKinds(creatures)
      && unlocked == Names(creatures)
    }

    constructor()
      ensures creatures == [] && unlocked == {} && Valid()
    {
      creatures := [];
      unlocked := {};
    }

    /** The unlock loop of `update`: each def not yet unlocked whose minimums
        are met joins at the end, in def order. */
    method Unlock(t: ActivityTracker.ActivityTotals, breaksTaken: int, width: int, height: int)
      requires Valid()
      modifies this
      ensures Valid()
      ensures |old(creatures)| <= |creatures| && creatures[..|old(creatures)|] == old(creatures)
      ensures forall k | 0 <= k < |CREATURE_DEFS| ::
        Name(k) in unlocked <==> Name(k) in old(unlocked) || Meets(k, t, breaksTaken)
      ensures forall j | |old(creatures)| <= j < |creatures| ::
        && Fresh(creatures[j], width, height)
        && Meets(creatures[j].kind, t, breaksTaken)
        && Name(creatures[j].kind) !in old(unlocked)
    {
      var i := 0;
      while i < |CREATURE_DEFS|
        invariant 0 <= i <= |CREATURE_DEFS|
        invariant Valid()
        invariant |old(creatures)| <= |creatures| && creatures[..|old(creatures)|] == old(creatures)
        invariant forall k | 0 <= k < i :: Name(k) in unlocked <==> Name(k) in old(unlocked) || Meets(k, t, breaksTaken)
        invariant forall k | i <= k < |CREATURE_DEFS| :: Name(k) in unlocked <==> Name(k) in old(unlocked)
        invariant forall j | |old(creatures)| <= j < |creatures| ::
          && Fresh(creatures[j], width, height) && creatures[j].kind < i
          && Meets(creatures[j].kind, t, breaksTaken) && Name(creatures[j].kind) !in old(unlocked)
      {
        ghost var u, before := unlocked, creatures;
        Consider(i, t, breaksTaken, width, height);
        UnlockedStep(i, old(unlocked), u, unlocked, t, breaksTaken);
        assert creatures[..|old(creatures)|] == old(creatures) by {
          assert creatures[..|before|][..|old(creatures)|] == before[..|old(creatures)|];
        }
        i := i + 1;
      }
    }

    /** One pass of the unlock loop, at def `i`: the def joins exactly when its
        name is not yet unlocked and its minimums are met. */
    method Consider(i: nat, t: ActivityTracker.ActivityTotals, breaksTaken: int, width: int, height: int)
      requires Valid() && i < |CREATURE_DEFS|
      modifies this
      ensures Valid()
      ensures unlocked == old(unlocked) + (if Name(i) !in old(unlocked) && Meets(i, t, breaksTaken) then {Name(i)} else {})
      ensures |creatures| == |old(creatures)| + (if Name(i) !in old(unlocked) && Meets(i, t, breaksTaken) then 1 else 0)
      ensures creatures[..|old(creatures)|] == old(creatures)
      ensures |creatures| > |old(creatures)| ==>
        creatures[|old(creatures)|].kind == i && Fresh(creatures[|old(creatures)|], width, height)
    {
      var cd := CREATURE_DEFS[i];
      if cd.name in unlocked {
        return;
      }
      if t.totalKeypresses >= cd.minKeypresses && t.totalActiveSeconds >= cd.minActiveSeconds
        && breaksTaken >= cd.minBreaks
      {
        Join(i, width, height);
      }
    }

    /** One step of the unlock loop: def `kind` joins at the end, on its row,
        at a random column and heading. */
    method Join(kind: nat, width: int, height: int)
      requires Valid() && kind < |CREATURE_DEFS| && Name(kind) !in unlocked
      modifies this
      ensures Valid()
      ensures unlocked == old(unlocked) + {Name(kind)}
      ensures |creatures| == |old(creatures)| + 1 && creatures[..|old(creatures)|] == old(creatures)
      ensures creatures[|old(creatures)|].kind == kind && Fresh(creatures[|old(creatures)|], width, height)
    {
      var y := Row(kind, height);
      var x :| 0 <= x <= Max(0, width - 4);
      var dx :| dx in {-1, 1};
      var c := ActiveCreature(kind, x, y, dx);
      JoinKeepsDistinct(creatures, c);
      creatures := creatures + [c];
      unlocked := unlocked + {Name(kind)};
    }

    /** The move-and-render loop of `update`. */
    method MoveAll(frame: int, width: int) returns (cells: seq<Overlay>)
      requires Valid()
      modifies this
      ensures Valid()
      ensures unlocked == old(unlocked) && |creatures| == |old(creatures)|
      ensures forall i | 0 <= i < |creatures| :: creatures[i] == Move(old(creatures)[i], frame, width).0
      ensures cells == AllCells(old(creatures), frame, width)
    {
      ghost var before := creatures;
      cells := [];
      var i := 0;
      while i < |creatures|
        invariant 0 <= i <= |creatures| == |before|
        invariant unlocked == old(unlocked)
        invariant forall k | i <= k < |creatures| :: creatures[k] == before[k]
        invariant forall k | 0 <= k < i :: creatures[k] == Move(before[k], frame, width).0
        invariant cells == AllCells(before[..i], frame, width)
      {
        var moved, own := Step(creatures[i], frame, width);
        AllCellsStep(before, i, frame, width);
        cells := cells + own;
        creatures := creatures[i := moved];
        i := i + 1;
      }
      assert before[..i] == before;
      KindsKept(before, creatures, frame, width);
    }

    /** `update(totals, breaks_taken, content_w, content_h, frame)`; `joined` is
        the list after the unlock loop and before the moves. */
    method Update(t: ActivityTracker.ActivityTotals, breaksTaken: int, width: int, height: int, frame: int)
      returns (cells: seq<Overlay>, ghost joined: seq<ActiveCreature>)
      requires Valid()
      modifies this
      ensures Valid() && |creatures| == |unlocked|
      ensures CreatureStep(old(creatures), old(unlocked), joined, creatures, unlocked, t, breaksTaken, width, height, frame)
      ensures cells == AllCells(joined, frame, width)
    {
      Unlock(t, breaksTaken, width, height);
      joined := creatures;
      cells := MoveAll(frame, width);
      NamesCount(creatures);
    }
  }

  /** One pass of the move-and-render loop over a single creature. */
  method Step(c: ActiveCreature, frame: int, width: int) returns (moved: ActiveCreature, own: seq<Overlay>)
    requires c.kind < |CREATURE_DEFS|
    ensures moved == Move(c, frame, width).0
    ensures own == SpriteCells(moved.y, moved.x, Move(c, frame, width).1, |Move(c, frame, width).1|, width, Name(c.kind))
  {
    moved := c;
    if frame % 2 == 0 {
      moved := moved.(x := moved.x + moved.dx);
    }
    var sprite := Sprite(c.kind, c.dx, frame);
    if moved.x <= 0 {
      moved := moved.(dx := 1, x := 0);
    } else if moved.x + |sprite| >= width {
      moved := moved.(dx := -1, x := Max(0, width - |sprite|));
    }
    own := Render(moved.y, moved.x, sprite, width, Name(c.kind));
  }

  /** The inner loop over the sprite's characters. */
  method Render(y: int, x: int, sprite: string, width: int, tag: string) returns (own: seq<Overlay>)
    ensures own == SpriteCells(y, x, sprite, |sprite|, width, tag)
  {
    own := [];
    var j := 0;
    while j < |sprite|
      invariant 0 <= j <= |sprite|
      invariant own == SpriteCells(y, x, sprite, j, width, tag)
    {
      if sprite[j] != ' ' && 0 <= x + j < width {
        own := own + [Overlay(y, x + j, [sprite[j]], tag)];
      }
      j := j + 1;
    }
  }

  lemma KindsKept(before: seq<ActiveCreature>, after: seq<ActiveCreature>, frame: int, width: int)
    requires forall i | 0 <= i < |before| :: before[i].kind < |CREATURE_DEFS| && before[i].dx in {-1, 1}
    requires DistinctKinds(before)
    requires |after| == |before|
    requires forall i | 0 <= i < |after| :: after[i] == Move(before[i], frame, width).0
    ensures forall i | 0 <= i < |after| :: after[i].kind < |CREATURE_DEFS| && after[i].dx in {-1, 1}
    ensures DistinctKinds(after)
    ensures Names(after) == Names(before)
  {
    SameKindsSameNames(before, after);
  }

  lemma {:induction false} SameKindsSameNames(a: seq<ActiveCreature>, b: seq<ActiveCreature>)
    requires |a| == |b|
    requires forall i | 0 <= i < |a| :: a[i].kind < |CREATURE_DEFS| && b[i].kind == a[i].kind
    ensures Names(a) == Names(b)
  {
    if a != [] {
      var n := |a| - 1;
      SameKindsSameNames(a[..n], b[..n]);
    }
  }

  // ---------------------------------------------------------------------
  // The manager

  function Tagged(ps: seq<Particle>, tag: string): (r: seq<Overlay>)
    ensures |r| == |ps|
    ensures forall k | 0 <= k < |r| :: r[k] == Overlay(ps[k].y, ps[k].x, ps[k].glyph, tag)
  {
    seq(|ps|, k requires 0 <= k < |ps| => Overlay(ps[k].y, ps[k].x, ps[k].glyph, tag))
  }

  class EffectsManager {
    const bubbles: BubbleSystem
    const fireflies: FireflySystem
    const creatures: CreatureSystem

    predicate Valid()
      reads this, bubbles, fireflies, creatures
    {
      bubbles.Valid() && fireflies.Valid() && creatures.Valid()
    }

    constructor()
      ensures Valid() && fresh(bubbles) && fresh(fireflies) && fresh(creatures)
      ensures bubbles.bubbles == [] && fireflies.fireflies == [] && creatures.creatures == []
    {
      bubbles := new BubbleSystem();
      fireflies := new FireflySystem();
      creatures := new CreatureSystem();
    }

    /** `update(...)`: the bubbles, then the lit fireflies, then the creature cells. */
    method Update(t: ActivityTracker.ActivityTotals, breaksTaken: int, width: int, height: int, frame: int,
                  isNight: bool, isFlow: bool)
      returns (overlays: seq<Overlay>, ghost risen: seq<Particle>, ghost joined: seq<ActiveCreature>)
      requires Valid()
      modifies bubbles, fireflies, creatures
      ensures Valid()
      ensures BubbleStep(old(bubbles.bubbles), risen, bubbles.bubbles, t, width, height)
      ensures FireflyStep(old(fireflies.fireflies), old(fireflies.blinkOffsets), fireflies.fireflies,
                          fireflies.blinkOffsets, isNight, isFlow, width, height)
      ensures CreatureStep(old(creatures.creatures), old(creatures.unlocked), joined, creatures.creatures,
                           creatures.unlocked, t, breaksTaken, width, height, frame)
      ensures overlays == Tagged(bubbles.bubbles, "bubble")
        + Tagged(if isNight || isFlow then Blink(fireflies.fireflies, fireflies.blinkOffsets, frame) else [], "firefly")
        + AllCells(joined, frame, width)
      ensures var nb := |bubbles.bubbles|;
        var lit := if isNight || isFlow then Blink(fireflies.fireflies, fireflies.blinkOffsets, frame) else [];
        && nb + |lit| <= |overlays|
        && overlays[..nb] == Tagged(bubbles.bubbles, "bubble")
        && overlays[nb..nb + |lit|] == Tagged(lit, "firefly")
        && forall k | nb + |lit| <= k < |overlays| :: 0 <= overlays[k].col < width
    {
      var shown;
      shown, risen := bubbles.Update(t, width, height, frame);
      assert shown == bubbles.bubbles;
      var lit := fireflies.Update(isNight, isFlow, width, height, frame);
      assert lit == if isNight || isFlow then Blink(fireflies.fireflies, fireflies.blinkOffsets, frame) else [];
      var cells;
      cells, joined := creatures.Update(t, breaksTaken, width, height, frame);
      overlays := Tagged(shown, "bubble") + Tagged(lit, "firefly") + cells;
      Layers(Tagged(shown, "bubble"), Tagged(lit, "firefly"), cells, width);
    }
  }

  /** The three layers of the manager's output can be read back from it. */
  lemma Layers(a: seq<Overlay>, b: seq<Overlay>, c: seq<Overlay>, width: int)
    requires forall k | 0 <= k < |c| :: 0 <= c[k].col < width
    ensures (a + b + c)[..|a|] == a && (a + b + c)[|a|..|a| + |b|] == b
    ensures forall k | |a| + |b| <= k < |a + b + c| :: 0 <= (a + b + c)[k].col < width
  {
    var all := a + b + c;
    assert all[..|a|] == a;
    assert all[|a|..|a| + |b|] == b;
    forall k | |a| + |b| <= k < |all|
      ensures 0 <= all[k].col < width
    {
      assert all[k] == c[k - |a| - |b|];
    }
  }
}
