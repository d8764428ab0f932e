/** Prior boxes: the boxes written for each cell, and the separately computed number of them. */
module PriorBox {
  import opened Numbers
  import opened Wrappers

  // ---- aspect ratios ----

  const RATIO_TOLERANCE: real := 0.000001
  const FLOAT_EPSILON: real := 1.0 / 8388608.0

  type NonZero = r: real | r != 0.0 witness 1.0

  predicate Near(a: real, b: real) { Abs(a - b) < RATIO_TOLERANCE }

  predicate NearAny(x: real, xs: seq<real>) {
    exists i :: 0 <= i < |xs| && Near(x, xs[i])
  }

  /** The ratios boxes are made for: 1, then each source ratio that is new, each followed by its inverse if
      flipping.  Inverses are added without looking. */
  function Ratios(src: seq<NonZero>, flip: bool): (dst: seq<NonZero>)
    ensures |dst| > 0 && dst[0] == 1.0
  {
    if src == [] then [1.0] else
    var before, r := Ratios(src[..|src| - 1], flip), src[|src| - 1];
    if NearAny(r, before) then before else before + [r] + if flip then [1.0 / r] else []
  }

  predicate AllProper(src: seq<real>) {
    forall i | 0 <= i < |src| :: Abs(src[i]) >= FLOAT_EPSILON
  }

  lemma ProperExactly(src: seq<real>)
    ensures AllProper(src) <==> forall i | 0 <= i < |src| :: src[i] * 8388608.0 >= 1.0 || src[i] * 8388608.0 <= -1.0
  {
  }

  method Listed(ratio: real, dst: seq<NonZero>) returns (exist: bool)
    ensures exist == NearAny(ratio, dst)
  {
    for j := 0 to |dst|
      invariant forall k | 0 <= k < j :: !Near(ratio, dst[k])
    {
      if Near(ratio, dst[j]) {
        return true;
      }
    }
    return false;
  }

  method BuildRatios(src: seq<real>, flip: bool) returns (r: Result<seq<NonZero>, PriorError>)
    ensures r.Ok? <==> AllProper(src)
    ensures r.Ok? ==> r.value == Ratios(src, flip)
  {
    var dst: seq<NonZero> := [1.0];
    for i := 0 to |src|
      invariant AllProper(src[..i])
      invariant dst == Ratios(src[..i], flip)
    {
      assert src[..i + 1][..i] == src[..i];
      var ratio := src[i];
      if Abs(ratio) < FLOAT_EPSILON {
        return Err(ZeroAspectRatio);
      }
      var exist := Listed(ratio, dst);
      if exist {
        continue;
      }
      dst := dst + [ratio];
      if flip {
        dst := dst + [1.0 / ratio];
      }
    }
    assert src[..|src|] == src;
    return Ok(dst);
  }

  function Pair(r: NonZero, flip: bool): seq<NonZero> {
    [r] + if flip then [1.0 / r] else []
  }

  /** A ratio that is near none listed is listed, with its inverse behind it if flipping. */
  lemma RatiosNext(src: seq<NonZero>, r: NonZero, flip: bool)
    ensures Ratios(src + [r], flip) == Ratios(src, flip) + if NearAny(r, Ratios(src, flip)) then [] else Pair(r, flip)
  {
    assert (src + [r])[..|src|] == src;
  }

  lemma {:induction false} TwoIsListed(flip: bool)
    ensures Ratios([2.0], flip) == [1.0, 2.0] + if flip then [0.5] else []
  {
    RatiosNext([], 2.0, flip);
    assert [] + [2.0] == [2.0];
    assert !NearAny(2.0, [1.0]);
  }

  /** 0.5 is listed once, whether it comes as the inverse of 2 or by itself. */
  lemma {:induction false} HalfIsListedOnce(flip: bool)
    ensures Ratios([2.0, 0.5], flip) == [1.0, 2.0, 0.5]
  {
    TwoIsListed(flip);
    RatiosNext([2.0], 0.5, flip);
    assert [2.0] + [0.5] == [2.0, 0.5];
    var listed := Ratios([2.0], flip);
    if flip {
      assert Near(0.5, listed[2]);
    } else {
      assert !NearAny(0.5, listed);
    }
  }

  /** How many of the ratios count as 1; no box of their own is written for these. */
  function NearOnes(ratios: seq<real>): nat {
    if ratios == [] then 0
    else NearOnes(ratios[..|ratios| - 1]) + if Near(ratios[|ratios| - 1], 1.0) then 1 else 0
  }

  lemma {:induction false} NearOnesAppend(a: seq<real>, b: seq<real>)
    ensures NearOnes(a + b) == NearOnes(a) + NearOnes(b) <= |a| + |b|
  {
    if b == [] {
      NearOnesBounded(a);
      assert a + b == a;
    } else {
      NearOnesAppend(a, b[..|b| - 1]);
      assert (a + b)[..|a + b| - 1] == a + b[..|b| - 1];
    }
  }

  lemma {:induction false} NearOnesBounded(a: seq<real>)
    ensures NearOnes(a) <= |a|
  {
    if a != [] {
      NearOnesBounded(a[..|a| - 1]);
    }
  }

  /** A ratio that is not near 1 has an inverse near 1 only in one tiny window just above 1. */
  lemma InverseNearOne(r: real)
    requires r != 0.0 && !Near(r, 1.0)
    ensures Near(1.0 / r, 1.0) <==> 1.0 < r && r - 1.0 < 0.000001 * r
  {
    assert (1.0 / r - 1.0) * r == 1.0 - r;
    var d := 1.0 / r - 1.0;
    if r > 1.0 {
      assert d < 0.0 && -d * r == r - 1.0;
      assert -d < RATIO_TOLERANCE <==> -d * r < RATIO_TOLERANCE * r;
    } else if r > 0.0 {
      assert r <= 1.0 - RATIO_TOLERANCE;
      assert d > 0.0 && d >= d * r >= RATIO_TOLERANCE;
    }
  }

  /** Whether some source ratio that survives has its inverse in that window. */
  predicate FlipsOntoOne(src: seq<NonZero>, flip: bool) {
    src != [] && (FlipsOntoOne(src[..|src| - 1], flip)
                  || (flip && !NearAny(src[|src| - 1], Ratios(src[..|src| - 1], flip))
                      && Near(1.0 / src[|src| - 1], 1.0)))
  }

  lemma NearOnesOfPair(r: NonZero, flip: bool)
    ensures NearOnes(Pair(r, flip))
            == (if Near(r, 1.0) then 1 else 0) + (if flip && Near(1.0 / r, 1.0) then 1 else 0)
  {
    assert [r][..0] == [] && NearOnes([r]) == if Near(r, 1.0) then 1 else 0;
    if flip {
      assert Pair(r, flip)[..1] == [r];
    } else {
      assert Pair(r, flip) == [r];
    }
  }

  /** 1 itself is the only ratio that counts as 1, unless flipping brings another one there. */
  lemma {:induction false} OnlyOneIsNearOne(src: seq<NonZero>, flip: bool)
    ensures 1 <= NearOnes(Ratios(src, flip)) <= |Ratios(src, flip)|
    ensures NearOnes(Ratios(src, flip)) == 1 <==> !FlipsOntoOne(src, flip)
  {
    NearOnesBounded(Ratios(src, flip));
    if src == [] {
      assert [1.0][..0] == [];
    } else {
      var before, r := Ratios(src[..|src| - 1], flip), src[|src| - 1];
      OnlyOneIsNearOne(src[..|src| - 1], flip);
      if !NearAny(r, before) {
        assert !Near(r, before[0]);
        NearOnesAppend(before, Pair(r, flip));
        NearOnesOfPair(r, flip);
        assert Ratios(src, flip) == before + Pair(r, flip);
      }
    }
  }

  datatype PriorError = ZeroAspectRatio | NegativeVariance | WrongVarianceCount | WritesOutside

  // ---- what is written for one cell ----

  /** Grid points on a side of the grid a density asks for: its whole part, none below 1. */
  function Points(density: real): (n: nat)
    ensures density < 1.0 ==> n == 0
    ensures density >= 1.0 ==> n as real <= density < n as real + 1.0
  {
    if density < 1.0 then 0 else density.Floor
  }

  /** What a density counts for: the whole part of its square. */
  function Counted(density: real): (n: int)
    ensures n >= 0
  {
    assert density * density >= 0.0;
    (density * density).Floor
  }

  /** The parameters of the layer without fixed ratios. */
  datatype Params = Params(
    offset: real, step: real, minSizes: seq<real>, maxSizes: seq<real>, flip: bool, clip: bool, scaleAllSizes: bool,
    fixedSizes: seq<real>, densities: seq<real>, srcRatios: seq<real>, srcVariance: seq<real>,
    W: nat, H: nat, IW: nat, IH: nat, channel: nat, size: nat,  // values in a plane of the output, and in all of it
    sqrt: real -> real, ratioRoot: NonZero -> NonZero)  // the square root, of sizes and of ratios
  {
    /** Every fixed size has its density. */
    predicate DensitiesMatch() { |densities| >= |fixedSizes| }

    /** The grids of the fixed sizes. */
    function Used(): seq<nat>
      requires DensitiesMatch()
    {
      seq(|fixedSizes|, s requires 0 <= s < |fixedSizes| => assert s < |densities|; Points(densities[s]))
    }
  }

  datatype Box = Box(xmin: real, ymin: real, xmax: real, ymax: real)

  /** Where the boxes of each kind lie.  Which boxes are written, and how many, does not depend on it. */
  datatype Geometry = Geometry(
    minSquare: (nat, nat, real) -> Box,              // cell, minimum size
    maxSquare: (nat, nat, real, real) -> Box,        // cell, minimum and maximum size
    minRatio: (nat, nat, real, NonZero) -> Box,      // cell, minimum size, ratio
    gridSquare: (nat, nat, real, nat, nat, nat) -> Box,          // cell, fixed size, density, grid point
    gridRatio: (nat, nat, real, nat, NonZero, nat, nat) -> Box)  // cell, fixed size, density, ratio, grid point

  datatype Cell = Cell(cx: real, cy: real, iwi: real, ihi: real)

  function Min(a: real, b: real): (r: real)
    ensures r <= a && r <= b && (r == a || r == b)
  {
    if a < b then a else b
  }

  function Max(a: real, b: real): (r: real)
    ensures a <= r && b <= r && (r == a || r == b)
  {
    if a > b then a else b
  }

  /** The C++ conversion of a number to an integer. */
  function Truncate(x: real): (n: int)
    ensures x >= 0.0 ==> n as real <= x < n as real + 1.0
    ensures x <= 0.0 ==> n as real - 1.0 < x <= n as real
  {
    if x < 0.0 then -((-x).Floor) else x.Floor
  }

  function CellAt(p: Params, h: nat, w: nat): Cell
    requires p.W > 0 && p.H > 0 && p.IW > 0 && p.IH > 0
  {
    if p.step == 0.0 then
      Cell((w as real + 0.5) * (p.IW as real / p.W as real), (h as real + 0.5) * (p.IH as real / p.H as real),
           1.0 / p.IW as real, 1.0 / p.IH as real)
    else
      Cell((p.offset + w as real) * p.step, (p.offset + h as real) * p.step, 1.0 / p.IW as real, 1.0 / p.IH as real)
  }

  function Around(c: Cell, halfW: real, halfH: real): Box {
    Box((c.cx - halfW) * c.iwi, (c.cy - halfH) * c.ihi, (c.cx + halfW) * c.iwi, (c.cy + halfH) * c.ihi)
  }

  /** Grid boxes are cut off at the borders of the image. */
  function ClippedAround(c: Cell, halfW: real, halfH: real): Box {
    var b := Around(c, halfW, halfH);
    Box(Max(b.xmin, 0.0), Max(b.ymin, 0.0), Min(b.xmax, 1.0), Min(b.ymax, 1.0))
  }

  /** Point (r, k) of the density grid around the centre of a cell. */
  function GridPoint(c: Cell, size: real, density: nat, r: nat, k: nat): Cell {
    var shift := if density == 0 then 0 else Truncate(size / density as real);
    var base := -((Truncate(size) / 2) as real) + shift as real / 2.0;
    c.(cx := c.cx + base + (k * shift) as real, cy := c.cy + base + (r * shift) as real)
  }

  function HalfBetween(p: Params, size: real, max: real): real { p.sqrt(size * max) * 0.5 }

  function HalfWidth(p: Params, size: real, ar: NonZero): real { size * 0.5 * p.ratioRoot(ar) }

  function HalfHeight(p: Params, size: real, ar: NonZero): real { size * 0.5 / p.ratioRoot(ar) }

  /** The positions the layer gives its boxes. */
  function LayerGeometry(p: Params): Geometry
    requires p.W > 0 && p.H > 0 && p.IW > 0 && p.IH > 0
  {
    Geometry(
      (h: nat, w: nat, size: real) => Around(CellAt(p, h, w), size * 0.5, size * 0.5),
      (h: nat, w: nat, size: real, max: real) =>
        Around(CellAt(p, h, w), HalfBetween(p, size, max), HalfBetween(p, size, max)),
      (h: nat, w: nat, size: real, ar: NonZero) =>
        Around(CellAt(p, h, w), HalfWidth(p, size, ar), HalfHeight(p, size, ar)),
      (h: nat, w: nat, size: real, density: nat, r: nat, k: nat) =>
        var half := Truncate(size) as real * 0.5;
        ClippedAround(GridPoint(CellAt(p, h, w), size, density, r, k), half, half),
      (h: nat, w: nat, size: real, density: nat, ar: NonZero, r: nat, k: nat) =>
        ClippedAround(GridPoint(CellAt(p, h, w), size, density, r, k), HalfWidth(p, size, ar), HalfHeight(p, size, ar)))
  }

  /** A box in pixels of the image: its centre doubled, and its sides. */
  predicate Spans(b: Box, iw: nat, ih: nat, cx: real, cy: real, width: real, height: real) {
    && (b.xmin + b.xmax) * iw as real == 2.0 * cx && (b.ymin + b.ymax) * ih as real == 2.0 * cy
    && (b.xmax - b.xmin) * iw as real == width && (b.ymax - b.ymin) * ih as real == height
  }

  lemma ScaledBack(x: real, y: real, scale: real, n: real)
    requires n * scale == 1.0
    ensures ((x - y) * scale + (x + y) * scale) * n == 2.0 * x && ((x + y) * scale - (x - y) * scale) * n == 2.0 * y
  {
    assert (x - y) * scale + (x + y) * scale == 2.0 * x * scale;
    assert (x + y) * scale - (x - y) * scale == 2.0 * y * scale;
    assert 2.0 * x * scale * n == 2.0 * x * (n * scale) && 2.0 * y * scale * n == 2.0 * y * (n * scale);
  }

  lemma AroundSpans(c: Cell, iw: nat, ih: nat, halfW: real, halfH: real)
    requires iw as real * c.iwi == 1.0 && ih as real * c.ihi == 1.0
    ensures Spans(Around(c, halfW, halfH), iw, ih, c.cx, c.cy, 2.0 * halfW, 2.0 * halfH)
  {
    ScaledBack(c.cx, halfW, c.iwi, iw as real);
    ScaledBack(c.cy, halfH, c.ihi, ih as real);
  }

  /** In pixels of the image: the middle of cell (h, w) when the image is divided into cells, and otherwise a whole
      number of steps from the offset. */
  predicate AtCentre(p: Params, h: nat, w: nat, cx: real, cy: real) {
    if p.step == 0.0 then
      && cx * p.W as real == (w as real + 0.5) * p.IW as real
      && cy * p.H as real == (h as real + 0.5) * p.IH as real
    else
      cx == (p.offset + w as real) * p.step && cy == (p.offset + h as real) * p.step
  }

  lemma QuotientIs(x: real, n: real, a: real, m: real)
    requires n != 0.0 && x * n == a * m
    ensures x == a * (m / n)
  {
    assert a * (m / n) * n == a * m;
  }

  lemma CellIsAtCentre(p: Params, h: nat, w: nat, cx: real, cy: real)
    requires p.W > 0 && p.H > 0 && p.IW > 0 && p.IH > 0 && AtCentre(p, h, w, cx, cy)
    ensures var c := CellAt(p, h, w);
            c.cx == cx && c.cy == cy && p.IW as real * c.iwi == 1.0 && p.IH as real * c.ihi == 1.0
  {
    if p.step == 0.0 {
      QuotientIs(cx, p.W as real, w as real + 0.5, p.IW as real);
      QuotientIs(cy, p.H as real, h as real + 0.5, p.IH as real);
    }
  }

  /** The box of a minimum size is a square of that size around the cell's centre ... */
  lemma MinSquareIsPlaced(p: Params, h: nat, w: nat, size: real, cx: real, cy: real)
    requires p.W > 0 && p.H > 0 && p.IW > 0 && p.IH > 0 && AtCentre(p, h, w, cx, cy)
    ensures Spans(LayerGeometry(p).minSquare(h, w, size), p.IW, p.IH, cx, cy, size, size)
  {
    CellIsAtCentre(p, h, w, cx, cy);
    AroundSpans(CellAt(p, h, w), p.IW, p.IH, size * 0.5, size * 0.5);
  }

  /** ... that between a minimum and a maximum size is a square with the area of the two sides' rectangle ... */
  lemma MaxSquareIsPlaced(p: Params, h: nat, w: nat, size: real, max: real, cx: real, cy: real) returns (side: real)
    requires p.W > 0 && p.H > 0 && p.IW > 0 && p.IH > 0 && AtCentre(p, h, w, cx, cy)
    requires p.sqrt(size * max) * p.sqrt(size * max) == size * max
    ensures Spans(LayerGeometry(p).maxSquare(h, w, size, max), p.IW, p.IH, cx, cy, side, side)
    ensures side * side == size * max
  {
    CellIsAtCentre(p, h, w, cx, cy);
    side := p.sqrt(size * max);
    AroundSpans(CellAt(p, h, w), p.IW, p.IH, HalfBetween(p, size, max), HalfBetween(p, size, max));
  }

  lemma SidesOfRatio(p: Params, size: real, ar: NonZero) returns (width: real, height: real)
    requires p.ratioRoot(ar) * p.ratioRoot(ar) == ar
    ensures width == 2.0 * HalfWidth(p, size, ar) && height == 2.0 * HalfHeight(p, size, ar)
    ensures width == size * p.ratioRoot(ar) && width == ar * height && width * height == size * size
  {
    var root := p.ratioRoot(ar);
    width, height := 2.0 * HalfWidth(p, size, ar), 2.0 * HalfHeight(p, size, ar);
    TwiceHalf(size, root);
    HalvesOfRatio(size, root, ar, HalfWidth(p, size, ar), HalfHeight(p, size, ar));
  }

  lemma TwiceHalf(size: real, root: real)
    ensures 2.0 * (size * 0.5 * root) == size * root
  {
  }

  /** ... and that of a ratio is as much wider than high as its ratio says, and has the area of the square. */
  lemma RatioBoxIsPlaced(p: Params, h: nat, w: nat, size: real, ar: NonZero, cx: real, cy: real)
      returns (width: real, height: real)
    requires p.W > 0 && p.H > 0 && p.IW > 0 && p.IH > 0 && AtCentre(p, h, w, cx, cy)
    requires p.ratioRoot(ar) * p.ratioRoot(ar) == ar
    ensures Spans(LayerGeometry(p).minRatio(h, w, size, ar), p.IW, p.IH, cx, cy, width, height)
    ensures width == size * p.ratioRoot(ar) && width == ar * height && width * height == size * size
  {
    CellIsAtCentre(p, h, w, cx, cy);
    width, height := SidesOfRatio(p, size, ar);
    AroundSpans(CellAt(p, h, w), p.IW, p.IH, HalfWidth(p, size, ar), HalfHeight(p, size, ar));
  }

  lemma HalvesOfRatio(size: real, root: NonZero, ar: real, halfW: real, halfH: real)
    requires root * root == ar && halfW == size * 0.5 * root && halfH == size * 0.5 / root
    ensures halfW == ar * halfH && 2.0 * halfW * (2.0 * halfH) == size * size
  {
    var half := size * 0.5;
    assert halfH * root == half;
    assert ar * halfH == root * (halfH * root);
    assert 2.0 * (half * root) * (2.0 * halfH) == 4.0 * half * (halfH * root);
  }

  /** The part of a box that is inside the image. */
  predicate IsCutOff(b: Box, whole: Box) {
    && b.xmin == (if whole.xmin < 0.0 then 0.0 else whole.xmin)
    && b.ymin == (if whole.ymin < 0.0 then 0.0 else whole.ymin)
    && b.xmax == (if whole.xmax > 1.0 then 1.0 else whole.xmax)
    && b.ymax == (if whole.ymax > 1.0 then 1.0 else whole.ymax)
  }

  /** Grid points are one shift apart, column `k` of row `r` being `k` shifts to the right of the first column and
      `r` shifts below the first row. */
  predicate OnGrid(size: real, density: nat, r: nat, k: nat, cx: real, cy: real, x: real, y: real) {
    var shift := if density == 0 then 0 else Truncate(size / density as real);
    && x == cx - (Truncate(size) / 2) as real + shift as real * (k as real + 0.5)
    && y == cy - (Truncate(size) / 2) as real + shift as real * (r as real + 0.5)
  }

  lemma GridPointIsOnGrid(c: Cell, size: real, density: nat, r: nat, k: nat)
    ensures var g := GridPoint(c, size, density, r, k);
            OnGrid(size, density, r, k, c.cx, c.cy, g.cx, g.cy) && g.iwi == c.iwi && g.ihi == c.ihi
  {
    var shift := if density == 0 then 0 else Truncate(size / density as real);
    ShiftsFrom(c.cx, Truncate(size) / 2, shift, k);
    ShiftsFrom(c.cy, Truncate(size) / 2, shift, r);
  }

  lemma ShiftsFrom(c: real, half: int, shift: int, k: nat)
    ensures c + (-(half as real) + shift as real / 2.0) + (k * shift) as real
            == c - half as real + shift as real * (k as real + 0.5)
  {
    RealProduct(k, shift);
    assert shift as real * (k as real + 0.5) == shift as real * k as real + shift as real / 2.0;
  }

  lemma RealProduct(k: int, n: int)
    ensures (k * n) as real == n as real * k as real
  {
  }

  lemma GridCell(p: Params, h: nat, w: nat, size: real, density: nat, r: nat, k: nat, cx: real, cy: real)
      returns (g: Cell)
    requires p.W > 0 && p.H > 0 && p.IW > 0 && p.IH > 0 && AtCentre(p, h, w, cx, cy)
    ensures g == GridPoint(CellAt(p, h, w), size, density, r, k)
    ensures OnGrid(size, density, r, k, cx, cy, g.cx, g.cy)
    ensures p.IW as real * g.iwi == 1.0 && p.IH as real * g.ihi == 1.0
  {
    CellIsAtCentre(p, h, w, cx, cy);
    g := GridPoint(CellAt(p, h, w), size, density, r, k);
    GridPointIsOnGrid(CellAt(p, h, w), size, density, r, k);
  }

  lemma CutOffAround(c: Cell, iw: nat, ih: nat, halfW: real, halfH: real)
    requires iw as real * c.iwi == 1.0 && ih as real * c.ihi == 1.0
    ensures Spans(Around(c, halfW, halfH), iw, ih, c.cx, c.cy, 2.0 * halfW, 2.0 * halfH)
    ensures IsCutOff(ClippedAround(c, halfW, halfH), Around(c, halfW, halfH))
  {
    AroundSpans(c, iw, ih, halfW, halfH);
  }

  lemma GridBoxIsPlaced(p: Params, h: nat, w: nat, size: real, density: nat, r: nat, k: nat, cx: real, cy: real,
                        halfW: real, halfH: real)
      returns (whole: Box, x: real, y: real)
    requires p.W > 0 && p.H > 0 && p.IW > 0 && p.IH > 0 && AtCentre(p, h, w, cx, cy)
    ensures OnGrid(size, density, r, k, cx, cy, x, y)
    ensures Spans(whole, p.IW, p.IH, x, y, 2.0 * halfW, 2.0 * halfH)
    ensures IsCutOff(ClippedAround(GridPoint(CellAt(p, h, w), size, density, r, k), halfW, halfH), whole)
  {
    var g := GridCell(p, h, w, size, density, r, k, cx, cy);
    whole, x, y := Around(g, halfW, halfH), g.cx, g.cy;
    CutOffAround(g, p.IW, p.IH, halfW, halfH);
  }

  /** A box of the grid is a square of the fixed size's whole part around its grid point, cut off at the borders. */
  lemma GridSquareIsPlaced(p: Params, h: nat, w: nat, size: real, density: nat, r: nat, k: nat, cx: real, cy: real)
      returns (whole: Box, x: real, y: real)
    requires p.W > 0 && p.H > 0 && p.IW > 0 && p.IH > 0 && AtCentre(p, h, w, cx, cy)
    ensures OnGrid(size, density, r, k, cx, cy, x, y)
    ensures Spans(whole, p.IW, p.IH, x, y, Truncate(size) as real, Truncate(size) as real)
    ensures IsCutOff(LayerGeometry(p).gridSquare(h, w, size, density, r, k), whole)
  {
    var half := Truncate(size) as real * 0.5;
    whole, x, y := GridBoxIsPlaced(p, h, w, size, density, r, k, cx, cy, half, half);
  }

  /** That of a ratio is a box of the ratio and of the square's area, around the same point and cut off too. */
  lemma GridRatioIsPlaced(p: Params, h: nat, w: nat, size: real, density: nat, ar: NonZero, r: nat, k: nat,
                          cx: real, cy: real)
      returns (whole: Box, x: real, y: real, width: real, height: real)
    requires p.W > 0 && p.H > 0 && p.IW > 0 && p.IH > 0 && AtCentre(p, h, w, cx, cy)
    requires p.ratioRoot(ar) * p.ratioRoot(ar) == ar
    ensures OnGrid(size, density, r, k, cx, cy, x, y)
    ensures Spans(whole, p.IW, p.IH, x, y, width, height)
    ensures width == size * p.ratioRoot(ar) && width == ar * height && width * height == size * size
    ensures IsCutOff(LayerGeometry(p).gridRatio(h, w, size, density, ar, r, k), whole)
  {
    whole, x, y := GridBoxIsPlaced(p, h, w, size, density, r, k, cx, cy,
                                   HalfWidth(p, size, ar), HalfHeight(p, size, ar));
    width, height := SidesOfRatio(p, size, ar);
  }

  /** f(0) + f(1) + ... + f(n - 1). */
  function Concat(f: nat -> seq<Box>, n: nat): seq<Box> {
    if n == 0 then [] else Concat(f, n - 1) + f(n - 1)
  }

  function GridRow(point: (nat, nat) -> Box, r: nat, density: nat): (q: seq<Box>)
    ensures |q| == density
  {
    seq(density, k requires 0 <= k => point(r, k))
  }

  function RowsOf(point: (nat, nat) -> Box, density: nat): nat -> seq<Box> {
    (r: nat) => GridRow(point, r, density)
  }

  function Grid(point: (nat, nat) -> Box, density: nat): seq<Box> {
    Concat(RowsOf(point, density), density)
  }

  function RatioPoints(g: Geometry, h: nat, w: nat, size: real, density: nat, ar: NonZero): (nat, nat) -> Box {
    (r: nat, k: nat) => g.gridRatio(h, w, size, density, ar, r, k)
  }

  function SquarePoints(g: Geometry, h: nat, w: nat, size: real, density: nat): (nat, nat) -> Box {
    (r: nat, k: nat) => g.gridSquare(h, w, size, density, r, k)
  }

  /** One grid for each ratio that does not count as 1. */
  function RatioGrid(g: Geometry, h: nat, w: nat, size: real, density: nat, ratios: seq<NonZero>): nat -> seq<Box> {
    (i: nat) => if i < |ratios| && !Near(ratios[i], 1.0)
                then Grid(RatioPoints(g, h, w, size, density, ratios[i]), density) else []
  }

  function RatioBox(g: Geometry, h: nat, w: nat, size: real, ratios: seq<NonZero>): nat -> seq<Box> {
    (i: nat) => if i < |ratios| && !Near(ratios[i], 1.0) then [g.minRatio(h, w, size, ratios[i])] else []
  }

  /** What one fixed size contributes: its grid of squares, then a grid for each ratio. */
  function FixedSize(p: Params, g: Geometry, h: nat, w: nat, ratios: seq<NonZero>): nat -> seq<Box> {
    (s: nat) =>
      if s < |p.fixedSizes| && s < |p.densities|
      then SizeBoxes(g, h, w, p.fixedSizes[s], Points(p.densities[s]), ratios)
      else []
  }

  function SizeBoxes(g: Geometry, h: nat, w: nat, size: real, density: nat, ratios: seq<NonZero>): seq<Box> {
    Grid(SquarePoints(g, h, w, size, density), density) + Concat(RatioGrid(g, h, w, size, density, ratios), |ratios|)
  }

  /** What one minimum size contributes: its square, the square between it and its maximum, the ratio boxes. */
  function MinSize(p: Params, g: Geometry, h: nat, w: nat, ratios: seq<NonZero>): nat -> seq<Box> {
    (ms: nat) =>
      if ms < |p.minSizes| then
        [g.minSquare(h, w, p.minSizes[ms])]
        + (if |p.maxSizes| > ms then [g.maxSquare(h, w, p.minSizes[ms], p.maxSizes[ms])] else [])
        + (if p.scaleAllSizes || ms == |p.minSizes| - 1
           then Concat(RatioBox(g, h, w, p.minSizes[if p.scaleAllSizes then ms else 0], ratios), |ratios|) else [])
      else []
  }

  function CellBoxes(p: Params, g: Geometry, h: nat, w: nat, ratios: seq<NonZero>): seq<Box> {
    Concat(FixedSize(p, g, h, w, ratios), |p.fixedSizes|) + Concat(MinSize(p, g, h, w, ratios), |p.minSizes|)
  }

  // ---- how many that is ----

  /** Points of the square grids with these sides. */
  function SumSquares(sides: seq<nat>): nat {
    if sides == [] then 0 else SumSquares(sides[..|sides| - 1]) + sides[|sides| - 1] * sides[|sides| - 1]
  }

  function SumCounted(densities: seq<real>): nat {
    if densities == [] then 0 else SumCounted(densities[..|densities| - 1]) + Counted(densities[|densities| - 1])
  }

  /** The separately computed number of boxes per cell. */
  function NumPriors(p: Params, ratios: nat): int {
    var byMin := if p.scaleAllSizes then ratios * |p.minSizes| else ratios + |p.minSizes| - 1;
    var base := if |p.fixedSizes| > 0 then ratios * |p.fixedSizes| else byMin;
    base + ratios * (SumCounted(p.densities) - |p.densities|) + |p.maxSizes|
  }

  method ComputeNumPriors(p: Params, ratios: nat) returns (n: int)
    ensures n == NumPriors(p, ratios)
  {
    if p.scaleAllSizes {
      n := ratios * |p.minSizes|;
    } else {
      n := ratios + |p.minSizes| - 1;
    }
    if |p.fixedSizes| > 0 {
      n := ratios * |p.fixedSizes|;
    }
    ghost var base := n;
    if |p.densities| > 0 {
      for i := 0 to |p.densities|
        invariant n == base + ratios * (SumCounted(p.densities[..i]) - i)
      {
        assert p.densities[..i + 1][..i] == p.densities[..i];
        var squares: int := (p.densities[i] * p.densities[i]).Floor;
        ghost var sum: int := SumCounted(p.densities[..i]);
        Distribute(ratios, sum - i, squares - 1);
        n := n + ratios * (squares - 1);
      }
      assert p.densities[..|p.densities|] == p.densities;
    }
    ghost var sofar := n;
    for i := 0 to |p.maxSizes|
      invariant n == sofar + i
    {
      n := n + 1;
    }
  }

  lemma Distribute(a: int, b: int, c: int)
    ensures a * (b + c) == a * b + a * c && (b + c) * a == b * a + c * a
  {
  }

  lemma ProductPositive(a: int, b: int)
    requires a > 0 && b > 0
    ensures a * b > 0
  {
  }

  /** Boxes written for the ratios, when each that does not count as 1 gets `each`. */
  function RatioGridsCount(each: nat, ratios: seq<NonZero>): nat {
    if ratios == [] then 0
    else RatioGridsCount(each, ratios[..|ratios| - 1]) + if Near(ratios[|ratios| - 1], 1.0) then 0 else each
  }

  /** Boxes written for fixed sizes with grids of these sides. */
  function FixedCount(sides: seq<nat>, ratios: seq<NonZero>): nat {
    if sides == [] then 0 else
    var squares := sides[|sides| - 1] * sides[|sides| - 1];
    FixedCount(sides[..|sides| - 1], ratios) + (squares + RatioGridsCount(squares, ratios))
  }

  lemma {:induction false} ConcatLength(f: nat -> seq<Box>, n: nat, each: nat)
    requires forall i: nat | i < n :: |f(i)| == each
    ensures |Concat(f, n)| == n * each
  {
    if n > 0 {
      ConcatLength(f, n - 1, each);
      Distribute(each, n - 1, 1);
    }
  }

  lemma {:induction false} ConcatRatiosLength(f: nat -> seq<Box>, ratios: seq<NonZero>, n: nat, each: nat)
    requires n <= |ratios| && forall i: nat | i < n :: |f(i)| == if Near(ratios[i], 1.0) then 0 else each
    ensures |Concat(f, n)| == RatioGridsCount(each, ratios[..n])
  {
    if n > 0 {
      ConcatRatiosLength(f, ratios, n - 1, each);
      assert ratios[..n][..n - 1] == ratios[..n - 1];
    }
  }

  lemma GridLength(point: (nat, nat) -> Box, density: nat)
    ensures |Grid(point, density)| == density * density
  {
    ConcatLength(RowsOf(point, density), density, density);
  }

  lemma FixedSizeLength(p: Params, g: Geometry, h: nat, w: nat, ratios: seq<NonZero>, s: nat)
    requires p.DensitiesMatch() && s < |p.fixedSizes|
    ensures var squares := p.Used()[s] * p.Used()[s];
            |FixedSize(p, g, h, w, ratios)(s)| == squares + RatioGridsCount(squares, ratios)
  {
    var size, density := p.fixedSizes[s], Points(p.densities[s]);
    GridLength(SquarePoints(g, h, w, size, density), density);
    forall i: nat | i < |ratios|
      ensures |RatioGrid(g, h, w, size, density, ratios)(i)| == if Near(ratios[i], 1.0) then 0 else density * density
    {
      GridLength(RatioPoints(g, h, w, size, density, ratios[i]), density);
    }
    ConcatRatiosLength(RatioGrid(g, h, w, size, density, ratios), ratios, |ratios|, density * density);
    assert ratios[..|ratios|] == ratios;
  }

  lemma {:induction false} RatioGridsCountIs(squares: nat, ratios: seq<NonZero>)
    ensures NearOnes(ratios) <= |ratios|
    ensures RatioGridsCount(squares, ratios) == squares * (|ratios| - NearOnes(ratios))
  {
    if ratios != [] {
      var before := ratios[..|ratios| - 1];
      RatioGridsCountIs(squares, before);
      Distribute(squares, |before| - NearOnes(before), 1);
    }
  }

  lemma {:induction false} FixedCountIs(sides: seq<nat>, ratios: seq<NonZero>)
    ensures NearOnes(ratios) <= |ratios|
    ensures FixedCount(sides, ratios) == SumSquares(sides) * (1 + (|ratios| - NearOnes(ratios)))
  {
    NearOnesBounded(ratios);
    if sides != [] {
      var before, squares := sides[..|sides| - 1], sides[|sides| - 1] * sides[|sides| - 1];
      FixedCountIs(before, ratios);
      RatioGridsCountIs(squares, ratios);
      Distribute(1 + (|ratios| - NearOnes(ratios)), SumSquares(before), squares);
      Distribute(squares, 1, |ratios| - NearOnes(ratios));
    }
  }

  /** Boxes written for the first `upto` minimum sizes. */
  function MinCount(p: Params, k: int, upto: nat): int {
    upto + (if upto < |p.maxSizes| then upto else |p.maxSizes|)
    + if p.scaleAllSizes then k * upto else if upto == |p.minSizes| && upto > 0 then k else 0
  }

  lemma RatioBoxLengths(g: Geometry, h: nat, w: nat, size: real, ratios: seq<NonZero>)
    ensures NearOnes(ratios) <= |ratios|
    ensures |Concat(RatioBox(g, h, w, size, ratios), |ratios|)| == |ratios| - NearOnes(ratios)
  {
    ConcatRatiosLength(RatioBox(g, h, w, size, ratios), ratios, |ratios|, 1);
    assert ratios[..|ratios|] == ratios;
    RatioGridsCountIs(1, ratios);
  }

  lemma MinSizeLength(p: Params, g: Geometry, h: nat, w: nat, ratios: seq<NonZero>, ms: nat, k: nat)
    requires ms < |p.minSizes| && k == |ratios| - NearOnes(ratios)
    ensures |MinSize(p, g, h, w, ratios)(ms)|
            == 1 + (if |p.maxSizes| > ms then 1 else 0) + (if p.scaleAllSizes || ms == |p.minSizes| - 1 then k else 0)
  {
    RatioBoxLengths(g, h, w, p.minSizes[if p.scaleAllSizes then ms else 0], ratios);
  }

  lemma {:induction false} ConcatMinLength(p: Params, f: nat -> seq<Box>, k: nat, n: nat)
    requires n <= |p.minSizes|
    requires forall ms: nat | ms < n ::
               |f(ms)| == 1 + (if |p.maxSizes| > ms then 1 else 0)
                          + (if p.scaleAllSizes || ms == |p.minSizes| - 1 then k else 0)
    ensures |Concat(f, n)| == MinCount(p, k, n)
  {
    if n > 0 {
      ConcatMinLength(p, f, k, n - 1);
      MinCountNext(p, k, n);
    }
  }

  lemma MinCountNext(p: Params, k: nat, upto: nat)
    requires 0 < upto <= |p.minSizes|
    ensures MinCount(p, k, upto)
            == MinCount(p, k, upto - 1)
               + (1 + (if |p.maxSizes| > upto - 1 then 1 else 0)
                  + (if p.scaleAllSizes || upto - 1 == |p.minSizes| - 1 then k else 0))
  {
    Distribute(k, upto - 1, 1);
  }

  /** Boxes written for a cell. */
  function CellCount(p: Params, ratios: seq<NonZero>): int
    requires p.DensitiesMatch()
  {
    FixedCount(p.Used(), ratios) + MinCount(p, |ratios| - NearOnes(ratios), |p.minSizes|)
  }

  lemma FixedCountNext(sides: seq<nat>, ratios: seq<NonZero>, n: nat)
    requires n < |sides|
    ensures var squares := sides[n] * sides[n];
            FixedCount(sides[..n + 1], ratios)
            == FixedCount(sides[..n], ratios) + (squares + RatioGridsCount(squares, ratios))
  {
    assert sides[..n + 1][..n] == sides[..n];
  }

  lemma {:induction false} ConcatFixedLength(f: nat -> seq<Box>, sides: seq<nat>, ratios: seq<NonZero>, n: nat)
    requires n <= |sides|
    requires forall s: nat | s < n :: |f(s)| == sides[s] * sides[s] + RatioGridsCount(sides[s] * sides[s], ratios)
    ensures |Concat(f, n)| == FixedCount(sides[..n], ratios)
  {
    if n > 0 {
      ConcatFixedLength(f, sides, ratios, n - 1);
      FixedCountNext(sides, ratios, n - 1);
    }
  }

  lemma FixedPartLength(p: Params, g: Geometry, h: nat, w: nat, ratios: seq<NonZero>)
    requires p.DensitiesMatch()
    ensures |Concat(FixedSize(p, g, h, w, ratios), |p.fixedSizes|)| == FixedCount(p.Used(), ratios)
  {
    var f, sides := FixedSize(p, g, h, w, ratios), p.Used();
    forall s: nat | s < |sides| ensures |f(s)| == sides[s] * sides[s] + RatioGridsCount(sides[s] * sides[s], ratios) {
      FixedSizeLength(p, g, h, w, ratios, s);
    }
    ConcatFixedLength(f, sides, ratios, |sides|);
    assert sides[..|sides|] == sides;
  }

  lemma MinPartLength(p: Params, g: Geometry, h: nat, w: nat, ratios: seq<NonZero>, k: nat)
    requires k == |ratios| - NearOnes(ratios)
    ensures |Concat(MinSize(p, g, h, w, ratios), |p.minSizes|)| == MinCount(p, k, |p.minSizes|)
  {
    var f := MinSize(p, g, h, w, ratios);
    forall ms: nat | ms < |p.minSizes|
      ensures |f(ms)| == 1 + (if |p.maxSizes| > ms then 1 else 0)
                         + (if p.scaleAllSizes || ms == |p.minSizes| - 1 then k else 0)
    {
      MinSizeLength(p, g, h, w, ratios, ms, k);
    }
    ConcatMinLength(p, f, k, |p.minSizes|);
  }

  lemma CellBoxesLength(p: Params, g: Geometry, h: nat, w: nat, ratios: seq<NonZero>, k: nat, count: int)
    requires p.DensitiesMatch() && k == |ratios| - NearOnes(ratios)
    requires count == FixedCount(p.Used(), ratios) + MinCount(p, k, |p.minSizes|)
    ensures |CellBoxes(p, g, h, w, ratios)| == count
  {
    FixedPartLength(p, g, h, w, ratios);
    MinPartLength(p, g, h, w, ratios, k);
  }

  // ---- how far the count is off ----

  /** What a fixed size is counted for and never gets: a grid has no more points than its density counts for. */
  function Lost(densities: seq<real>): nat {
    if densities == [] then 0 else
    var last := densities[|densities| - 1];
    GridWithinCount(last);
    Lost(densities[..|densities| - 1]) + (Counted(last) - Points(last) * Points(last))
  }

  lemma GridWithinCount(density: real)
    ensures Points(density) * Points(density) <= Counted(density)
  {
    if density >= 1.0 {
      var whole := density.Floor as real;
      assert density * density == whole * whole + (density - whole) * (density + whole);
      assert (density - whole) * (density + whole) >= 0.0;
      assert whole * whole == (density.Floor * density.Floor) as real;
    }
  }

  /** Densities without a fixed size are counted and get nothing; one between -1 and 1 takes one off the count. */
  function Extra(densities: seq<real>): int {
    if densities == [] then 0 else Extra(densities[..|densities| - 1]) + Counted(densities[|densities| - 1]) - 1
  }

  predicate Whole(densities: seq<real>) {
    forall i | 0 <= i < |densities| :: Counted(densities[i]) == Points(densities[i]) * Points(densities[i])
  }

  lemma {:induction false} NothingLost(densities: seq<real>)
    ensures Lost(densities) == 0 <==> Whole(densities)
  {
    if densities != [] {
      var before, last := densities[..|densities| - 1], densities[|densities| - 1];
      NothingLost(before);
      GridWithinCount(last);
      assert densities == before + [last];
    }
  }

  /** Only densities between -1 and 1 subtract, and when there is none nothing is added exactly when all count for 1. */
  lemma {:induction false} ExtraSubtracts(densities: seq<real>)
    ensures Extra(densities) >= -|densities|
    ensures (forall i | 0 <= i < |densities| :: Counted(densities[i]) >= 1) ==>
              && Extra(densities) >= 0
              && (Extra(densities) == 0 <==> forall i | 0 <= i < |densities| :: Counted(densities[i]) == 1)
  {
    if densities != [] {
      ExtraSubtracts(densities[..|densities| - 1]);
    }
  }

  lemma BelowOneCountsNothing(density: real)
    ensures Counted(density) == 0 <==> -1.0 < density < 1.0
  {
    if -1.0 < density < 1.0 {
      assert density * density == 1.0 - (1.0 - density) * (1.0 + density);
      assert (1.0 - density) * (1.0 + density) > 0.0;
    } else if density >= 1.0 {
      assert density * density == 1.0 + (density - 1.0) * (density + 1.0);
    } else {
      assert density * density == 1.0 + (-density - 1.0) * (-density + 1.0);
    }
  }

  /** Counted for the densities, for each ratio, beyond what the grids get. */
  function Spare(p: Params): int
    requires p.DensitiesMatch()
  {
    Lost(p.densities[..|p.fixedSizes|]) + Extra(p.densities[|p.fixedSizes|..])
  }

  lemma {:induction false} SumsOfPrefix(p: Params, n: nat)
    requires p.DensitiesMatch() && n <= |p.fixedSizes|
    ensures SumCounted(p.densities[..n]) == SumSquares(p.Used()[..n]) + Lost(p.densities[..n])
  {
    if n > 0 {
      SumsOfPrefix(p, n - 1);
      assert p.densities[..n][..n - 1] == p.densities[..n - 1] && p.Used()[..n][..n - 1] == p.Used()[..n - 1];
    }
  }

  lemma {:induction false} SumsOfMore(densities: seq<real>, n: nat)
    requires n <= |densities|
    ensures SumCounted(densities) == SumCounted(densities[..n]) + Extra(densities[n..]) + |densities| - n
  {
    if n == |densities| {
      assert densities[..n] == densities;
    } else {
      var before := densities[..|densities| - 1];
      SumsOfMore(before, n);
      assert before[..n] == densities[..n] && densities[n..][..|densities[n..]| - 1] == before[n..];
    }
  }

  lemma SpareAddsUp(p: Params)
    requires p.DensitiesMatch()
    ensures SumCounted(p.densities) - |p.densities| == SumSquares(p.Used()) - |p.fixedSizes| + Spare(p)
  {
    var n := |p.fixedSizes|;
    SumsOfPrefix(p, n);
    SumsOfMore(p.densities, n);
    assert p.Used()[..n] == p.Used();
  }

  /** When it subtracts, and when it is nothing: unless there is a density without a fixed size between -1 and 1,
      the densities count for no less than their grids, and for as much exactly when none is fractional in its
      grid and each without a fixed size counts for 1. */
  lemma SpareIsNotNegative(p: Params)
    requires p.DensitiesMatch()
    requires forall i | |p.fixedSizes| <= i < |p.densities| :: !(-1.0 < p.densities[i] < 1.0)
    ensures Spare(p) >= 0
    ensures Spare(p) == 0 <==>
            && Whole(p.densities[..|p.fixedSizes|])
            && forall i | |p.fixedSizes| <= i < |p.densities| :: Counted(p.densities[i]) == 1
  {
    var n := |p.fixedSizes|;
    var used, more := p.densities[..n], p.densities[n..];
    NothingLost(used);
    forall i | 0 <= i < |more| ensures Counted(more[i]) >= 1 {
      BelowOneCountsNothing(more[i]);
      assert more[i] == p.densities[n + i];
    }
    ExtraSubtracts(more);
    assert forall i | n <= i < |p.densities| :: p.densities[i] == more[i - n];
  }

  /** What a cell gets, for minimum sizes, beyond the maximum sizes that are counted anyway. */
  function MinPart(p: Params, k: int): int {
    |p.minSizes| + if p.scaleAllSizes then k * |p.minSizes| else if p.minSizes != [] then k else 0
  }

  /** Counted for maximum sizes without a minimum size, which get nothing. */
  function Surplus(p: Params): nat {
    if |p.maxSizes| > |p.minSizes| then |p.maxSizes| - |p.minSizes| else 0
  }

  /** Counted for ratios that get nothing, in a layer without fixed sizes: those after the first that count as 1,
      and all but one if there is no minimum size at all. */
  function RatiosNotDrawn(p: Params, d: nat, z: nat): int {
    if p.minSizes != [] then (z - 1) * (if p.scaleAllSizes then |p.minSizes| else 1)
    else if p.scaleAllSizes then 0 else d - 1
  }

  /** The number of boxes counted for a cell but not drawn; negative if more are drawn than are counted. */
  function Slack(p: Params, ratios: seq<NonZero>): int
    requires p.DensitiesMatch()
  {
    var d, z := |ratios|, NearOnes(ratios);
    (if p.fixedSizes != [] then SumSquares(p.Used()) * (z - 1) - MinPart(p, d - z) else RatiosNotDrawn(p, d, z))
    + Surplus(p) + d * Spare(p)
  }

  lemma CountWithSpare(p: Params, d: nat)
    requires p.DensitiesMatch()
    ensures var base := if p.scaleAllSizes then d * |p.minSizes| else d + |p.minSizes| - 1;
            NumPriors(p, d)
            == (if p.fixedSizes != [] then d * SumSquares(p.Used()) else base) + d * Spare(p) + |p.maxSizes|
  {
    var s, f := SumSquares(p.Used()), |p.fixedSizes|;
    SpareAddsUp(p);
    Distribute(d, s - f, Spare(p));
    Distribute(d, s - f, f);
    if f == 0 {
      assert p.Used() == [] && d * (s - f) == 0;
    }
  }

  lemma MinSizeArithmetic(p: Params, d: nat, z: nat)
    ensures var base := if p.scaleAllSizes then d * |p.minSizes| else d + |p.minSizes| - 1;
            base + |p.maxSizes| == MinCount(p, d - z, |p.minSizes|) + RatiosNotDrawn(p, d, z) + Surplus(p)
  {
    Distribute(|p.minSizes|, d - z, z);
    Distribute(|p.minSizes|, z - 1, 1);
  }

  /** For every layer, exactly how far the count for a cell is from the boxes it gets. */
  lemma CountAgrees(p: Params, ratios: seq<NonZero>)
    requires p.DensitiesMatch()
    ensures NumPriors(p, |ratios|) - CellCount(p, ratios) == Slack(p, ratios)
  {
    var d: int, z: int, s: int := |ratios|, NearOnes(ratios), SumSquares(p.Used());
    CountWithSpare(p, d);
    FixedCountIs(p.Used(), ratios);
    if p.fixedSizes == [] {
      assert p.Used() == [];
      MinSizeArithmetic(p, d, z);
    } else {
      Distribute(s, 1 + d - z, z - 1);
    }
  }

  lemma SignOfProduct(d: nat, a: int)
    requires d > 0
    ensures d * a >= 0 <==> a >= 0
    ensures d * a == 0 <==> a == 0
    ensures a < 0 ==> d * a + d <= 0
  {
    if a > 0 {
      ProductPositive(d, a);
    } else if a < 0 {
      ProductPositive(d, -a);
      Distribute(d, -a - 1, 1);
      NotNegative(d, -a - 1);
    }
  }

  /** Without fixed sizes, but with minimum sizes: a cell gets no more boxes than counted exactly when what spare
      densities take off the count is made up for.  So it never gets more unless a density is between -1 and 1;
      and when one is, it does, unless a maximum size has no minimum size or all sizes are scaled and several
      ratios count as 1. */
  lemma MinSizeCountAgrees(p: Params, ratios: seq<NonZero>)
    requires p.DensitiesMatch() && p.fixedSizes == [] && p.minSizes != [] && 1 <= NearOnes(ratios) <= |ratios|
    ensures CellCount(p, ratios) <= NumPriors(p, |ratios|) <==>
            (NearOnes(ratios) - 1) * (if p.scaleAllSizes then |p.minSizes| else 1)
            + Surplus(p) + |ratios| * Spare(p) >= 0
    ensures Spare(p) >= 0 ==>
              && CellCount(p, ratios) <= NumPriors(p, |ratios|)
              && (CellCount(p, ratios) == NumPriors(p, |ratios|) <==>
                  Spare(p) == 0 && NearOnes(ratios) == 1 && |p.maxSizes| <= |p.minSizes|)
    ensures |p.maxSizes| <= |p.minSizes| && (NearOnes(ratios) == 1 || !p.scaleAllSizes) ==>
              (CellCount(p, ratios) <= NumPriors(p, |ratios|) <==> Spare(p) >= 0)
  {
    var z, m := NearOnes(ratios), |p.minSizes|;
    CountAgrees(p, ratios);
    SignOfProduct(|ratios|, Spare(p));
    NotNegative(z - 1, m);
    if z > 1 {
      ProductPositive(z - 1, m);
    }
  }

  /** With neither, no cell gets a box, and room is left or missing as the densities, maximum sizes and ratios say. */
  lemma NoSizesNoBoxes(p: Params, ratios: seq<NonZero>)
    requires p.DensitiesMatch() && p.fixedSizes == [] && p.minSizes == []
    ensures CellCount(p, ratios) == 0
    ensures NumPriors(p, |ratios|) == (if p.scaleAllSizes then 0 else |ratios| - 1) + |p.maxSizes| + |ratios| * Spare(p)
  {
    CountAgrees(p, ratios);
    assert p.Used() == [];
  }

  /** With fixed sizes, alone or with others: a cell gets no more boxes than counted exactly when its minimum sizes
      take no more than fixed sizes leave undrawn. */
  lemma {:induction false} FixedSizeCountAgrees(p: Params, ratios: seq<NonZero>)
    requires p.DensitiesMatch() && p.fixedSizes != [] && 1 <= NearOnes(ratios) <= |ratios|
    ensures var undrawn := SumSquares(p.Used()) * (NearOnes(ratios) - 1) + |ratios| * Spare(p) + Surplus(p);
            var forMins := MinPart(p, |ratios| - NearOnes(ratios));
            && (CellCount(p, ratios) <= NumPriors(p, |ratios|) <==> forMins <= undrawn)
            && (CellCount(p, ratios) == NumPriors(p, |ratios|) <==> forMins == undrawn)
            && forMins >= |p.minSizes| && (p.minSizes == [] ==> forMins == 0)
            && (Spare(p) >= 0 ==> undrawn >= 0)
            && (Spare(p) >= 0 ==> (undrawn == 0 <==>
                  && (NearOnes(ratios) == 1 || SumSquares(p.Used()) == 0)
                  && Spare(p) == 0 && |p.maxSizes| <= |p.minSizes|))
  {
    var d, z, s := |ratios|, NearOnes(ratios), SumSquares(p.Used());
    CountAgrees(p, ratios);
    SignOfProduct(d, Spare(p));
    NotNegative(s, z - 1);
    NotNegative(d - z, |p.minSizes|);
    if z > 1 && s > 0 {
      ProductPositive(s, z - 1);
    }
  }

  // ---- collecting a cell ----

  method BuildGrid(point: (nat, nat) -> Box, density: nat) returns (boxes: seq<Box>)
    ensures boxes == Grid(point, density)
  {
    boxes := [];
    for r := 0 to density
      invariant boxes == Concat(RowsOf(point, density), r)
    {
      var row := [];
      for k := 0 to density
        invariant row == GridRow(point, r, density)[..k]
      {
        row := row + [point(r, k)];
      }
      boxes := boxes + row;
    }
  }

  lemma ConcatNext(f: nat -> seq<Box>, n: nat, next: seq<Box>)
    requires f(n) == next
    ensures Concat(f, n + 1) == Concat(f, n) + next
  {
  }

  method BuildRatioGrids(g: Geometry, h: nat, w: nat, size: real, density: nat, ratios: seq<NonZero>)
      returns (boxes: seq<Box>)
    ensures boxes == Concat(RatioGrid(g, h, w, size, density, ratios), |ratios|)
  {
    ghost var f := RatioGrid(g, h, w, size, density, ratios);
    boxes := [];
    for i := 0 to |ratios|
      invariant boxes == Concat(f, i)
    {
      var grid := [];
      if !Near(ratios[i], 1.0) {
        grid := BuildGrid(RatioPoints(g, h, w, size, density, ratios[i]), density);
      }
      ConcatNext(f, i, grid);
      boxes := boxes + grid;
    }
  }

  method BuildRatioBoxes(g: Geometry, h: nat, w: nat, size: real, ratios: seq<NonZero>) returns (boxes: seq<Box>)
    ensures boxes == Concat(RatioBox(g, h, w, size, ratios), |ratios|)
  {
    boxes := [];
    for i := 0 to |ratios|
      invariant boxes == Concat(RatioBox(g, h, w, size, ratios), i)
    {
      if Near(ratios[i], 1.0) {
        continue;
      }
      boxes := boxes + [g.minRatio(h, w, size, ratios[i])];
    }
  }

  method BuildFixedSize(p: Params, g: Geometry, h: nat, w: nat, ratios: seq<NonZero>, s: nat) returns (boxes: seq<Box>)
    requires p.DensitiesMatch() && s < |p.fixedSizes|
    ensures boxes == FixedSize(p, g, h, w, ratios)(s)
  {
    var density := Points(p.densities[s]);
    var square := BuildGrid(SquarePoints(g, h, w, p.fixedSizes[s], density), density);
    var rest := BuildRatioGrids(g, h, w, p.fixedSizes[s], density, ratios);
    boxes := square + rest;
  }

  method BuildFixed(p: Params, g: Geometry, h: nat, w: nat, ratios: seq<NonZero>) returns (boxes: seq<Box>)
    requires p.DensitiesMatch()
    ensures boxes == Concat(FixedSize(p, g, h, w, ratios), |p.fixedSizes|)
  {
    ghost var f := FixedSize(p, g, h, w, ratios);
    boxes := [];
    var s := 0;
    while s < |p.fixedSizes|
      invariant 0 <= s <= |p.fixedSizes| && boxes == Concat(f, s)
    {
      var more := BuildFixedSize(p, g, h, w, ratios, s);
      ConcatNext(f, s, more);
      boxes := boxes + more;
      s := s + 1;
    }
  }

  method BuildMinSize(p: Params, g: Geometry, h: nat, w: nat, ratios: seq<NonZero>, ms: nat) returns (boxes: seq<Box>)
    requires ms < |p.minSizes|
    ensures boxes == MinSize(p, g, h, w, ratios)(ms)
  {
    ghost var square := [g.minSquare(h, w, p.minSizes[ms])];
    boxes := [g.minSquare(h, w, p.minSizes[ms])];
    ghost var between := [];
    if |p.maxSizes| > ms {
      between := [g.maxSquare(h, w, p.minSizes[ms], p.maxSizes[ms])];
      boxes := boxes + [g.maxSquare(h, w, p.minSizes[ms], p.maxSizes[ms])];
    }
    assert boxes == square + between;
    ghost var ratioBoxes := [];
    if p.scaleAllSizes || ms == |p.minSizes| - 1 {
      var rest := BuildRatioBoxes(g, h, w, p.minSizes[if p.scaleAllSizes then ms else 0], ratios);
      ratioBoxes := rest;
      boxes := boxes + rest;
    }
    assert boxes == square + between + ratioBoxes;
  }

  method BuildMins(p: Params, g: Geometry, h: nat, w: nat, ratios: seq<NonZero>) returns (boxes: seq<Box>)
    ensures boxes == Concat(MinSize(p, g, h, w, ratios), |p.minSizes|)
  {
    ghost var f := MinSize(p, g, h, w, ratios);
    boxes := [];
    for ms := 0 to |p.minSizes|
      invariant boxes == Concat(f, ms)
    {
      var more := BuildMinSize(p, g, h, w, ratios, ms);
      ConcatNext(f, ms, more);
      boxes := boxes + more;
    }
  }

  method BuildCell(p: Params, g: Geometry, ratios: seq<NonZero>, h: nat, w: nat) returns (cell: seq<Box>)
    requires p.DensitiesMatch()
    ensures cell == CellsOfRow(p, g, ratios, h)(w)
  {
    var fixed := BuildFixed(p, g, h, w, ratios);
    var mins := BuildMins(p, g, h, w, ratios);
    cell := fixed + mins;
  }

  method BuildRow(p: Params, g: Geometry, ratios: seq<NonZero>, h: nat) returns (row: seq<Box>)
    requires p.DensitiesMatch()
    ensures row == Rows(p, g, ratios)(h)
  {
    ghost var f := CellsOfRow(p, g, ratios, h);
    row := [];
    for w := 0 to p.W
      invariant row == Concat(f, w)
    {
      var cell := BuildCell(p, g, ratios, h, w);
      ConcatNext(f, w, cell);
      row := row + cell;
    }
  }

  // ---- the two planes ----

  function CellsOfRow(p: Params, g: Geometry, ratios: seq<NonZero>, h: nat): nat -> seq<Box> {
    (w: nat) => CellBoxes(p, g, h, w, ratios)
  }

  function Rows(p: Params, g: Geometry, ratios: seq<NonZero>): nat -> seq<Box> {
    (h: nat) => Concat(CellsOfRow(p, g, ratios, h), p.W)
  }

  /** Everything the layer writes, in order: row by row, cell by cell. */
  function AllBoxes(p: Params, g: Geometry, ratios: seq<NonZero>): seq<Box> {
    Concat(Rows(p, g, ratios), p.H)
  }

  lemma RowLength(p: Params, g: Geometry, ratios: seq<NonZero>, h: nat, count: nat)
    requires p.DensitiesMatch() && count == CellCount(p, ratios)
    ensures |Rows(p, g, ratios)(h)| == p.W * count
  {
    NearOnesBounded(ratios);
    forall w: nat | w < p.W ensures |CellsOfRow(p, g, ratios, h)(w)| == count {
      CellBoxesLength(p, g, h, w, ratios, |ratios| - NearOnes(ratios), count);
    }
    ConcatLength(CellsOfRow(p, g, ratios, h), p.W, count);
  }

  lemma AllBoxesLength(p: Params, g: Geometry, ratios: seq<NonZero>, count: nat)
    requires p.DensitiesMatch() && count == CellCount(p, ratios)
    ensures |AllBoxes(p, g, ratios)| == p.H * (p.W * count)
  {
    var row := p.W * count;
    forall h: nat | h < p.H ensures |Rows(p, g, ratios)(h)| == row {
      RowLength(p, g, ratios, h, count);
    }
    ConcatLength(Rows(p, g, ratios), p.H, row);
  }

  // ---- where each box is ----

  lemma {:induction false} PieceFollows(f: nat -> seq<Box>, n: nat, i: nat)
    requires i < n
    ensures Concat(f, i) + f(i) <= Concat(f, n)
  {
    if i < n - 1 {
      PieceFollows(f, n - 1, i);
    }
  }

  lemma {:induction false} NestedFollows(
      rows: nat -> seq<Box>, H: nat, h: nat, row: nat -> seq<Box>, W: nat, w: nat)
    requires h < H && rows(h) == Concat(row, W) && w < W
    ensures Concat(rows, h) + (Concat(row, w) + row(w)) <= Concat(rows, H)
  {
    PieceFollows(row, W, w);
    PieceFollows(rows, H, h);
  }

  /** The layer goes row by row, and within a row cell by cell: the boxes of cell (h, w) follow those of the rows above
      and of the cells to the left. */
  lemma {:induction false} CellFollows(p: Params, g: Geometry, ratios: seq<NonZero>, h: nat, w: nat)
    requires h < p.H && w < p.W
    ensures Concat(Rows(p, g, ratios), h) + (Concat(CellsOfRow(p, g, ratios, h), w) + CellBoxes(p, g, h, w, ratios))
            <= AllBoxes(p, g, ratios)
  {
    NestedFollows(Rows(p, g, ratios), p.H, h, CellsOfRow(p, g, ratios, h), p.W, w);
  }

  /** They are as many in each. */
  lemma {:induction false} BoxesBeforeCell(
      p: Params, g: Geometry, ratios: seq<NonZero>, h: nat, w: nat, count: nat, row: nat)
    requires p.DensitiesMatch() && count == CellCount(p, ratios) && row == p.W * count
    ensures |Concat(CellsOfRow(p, g, ratios, h), w)| == w * count && |Concat(Rows(p, g, ratios), h)| == h * row
  {
    NearOnesBounded(ratios);
    forall i: nat | i < w ensures |CellsOfRow(p, g, ratios, h)(i)| == count {
      CellBoxesLength(p, g, h, i, ratios, |ratios| - NearOnes(ratios), count);
    }
    ConcatLength(CellsOfRow(p, g, ratios, h), w, count);
    forall i: nat | i < h ensures |Rows(p, g, ratios)(i)| == row {
      RowLength(p, g, ratios, i, count);
    }
    ConcatLength(Rows(p, g, ratios), h, row);
  }

  predicate BoxAt(boxes: seq<Box>, at: int, b: Box) {
    0 <= at < |boxes| && boxes[at] == b
  }

  lemma {:induction false} PieceAt(f: nat -> seq<Box>, n: nat, i: nat, j: int, b: Box)
    requires i < n && BoxAt(f(i), j, b)
    ensures BoxAt(Concat(f, n), |Concat(f, i)| + j, b)
  {
    PieceFollows(f, n, i);
  }

  lemma BehindAt(front: seq<Box>, boxes: seq<Box>, j: int, b: Box)
    requires BoxAt(boxes, j, b)
    ensures BoxAt(front + boxes, |front| + j, b)
  {
  }

  lemma InFrontAt(boxes: seq<Box>, rest: seq<Box>, j: int, b: Box)
    requires BoxAt(boxes, j, b)
    ensures BoxAt(boxes + rest, j, b)
  {
  }

  /** A grid goes row by row, and within a row from left to right. */
  lemma {:induction false} GridAt(point: (nat, nat) -> Box, density: nat, r: nat, k: nat)
    requires r < density && k < density
    ensures BoxAt(Grid(point, density), density * r + k, point(r, k))
  {
    ConcatLength(RowsOf(point, density), r, density);
    PieceAt(RowsOf(point, density), density, r, k, point(r, k));
  }

  /** The grids of the ratios before the `i`-th: none for those that count as 1. */
  lemma {:induction false} GridsBefore(g: Geometry, h: nat, w: nat, size: real, d: nat, ratios: seq<NonZero>, i: nat)
    requires i <= |ratios|
    ensures |Concat(RatioGrid(g, h, w, size, d, ratios), i)| == d * d * (i - NearOnes(ratios[..i]))
  {
    var grids := RatioGrid(g, h, w, size, d, ratios);
    forall n: nat | n < i ensures |grids(n)| == if Near(ratios[n], 1.0) then 0 else d * d {
      GridLength(RatioPoints(g, h, w, size, d, ratios[n]), d);
    }
    ConcatRatiosLength(grids, ratios, i, d * d);
    RatioGridsCountIs(d * d, ratios[..i]);
  }

  /** Of a fixed size there are first the squares, grid point by grid point, then in the same way the boxes of each
      ratio that does not count as 1. */
  lemma {:induction false} SizeBoxesAt(
      g: Geometry, h: nat, w: nat, size: real, d: nat, ratios: seq<NonZero>, i: nat, r: nat, k: nat)
    requires r < d && k < d && i < |ratios| && !Near(ratios[i], 1.0)
    ensures BoxAt(SizeBoxes(g, h, w, size, d, ratios), d * r + k, g.gridSquare(h, w, size, d, r, k))
    ensures BoxAt(SizeBoxes(g, h, w, size, d, ratios),
                  |Grid(SquarePoints(g, h, w, size, d), d)|
                  + (|Concat(RatioGrid(g, h, w, size, d, ratios), i)| + (d * r + k)),
                  g.gridRatio(h, w, size, d, ratios[i], r, k))
  {
    var squares, grids := Grid(SquarePoints(g, h, w, size, d), d), RatioGrid(g, h, w, size, d, ratios);
    var at, b := d * r + k, g.gridRatio(h, w, size, d, ratios[i], r, k);
    GridAt(SquarePoints(g, h, w, size, d), d, r, k);
    InFrontAt(squares, Concat(grids, |ratios|), at, g.gridSquare(h, w, size, d, r, k));
    GridAt(RatioPoints(g, h, w, size, d, ratios[i]), d, r, k);
    PieceAt(grids, |ratios|, i, at, b);
    BehindAt(squares, Concat(grids, |ratios|), |Concat(grids, i)| + at, b);
  }

  /** In a cell the fixed sizes come first, one after the other ... */
  lemma {:induction false} FixedSizesFollow(p: Params, g: Geometry, h: nat, w: nat, ratios: seq<NonZero>, s: nat)
    requires p.DensitiesMatch() && s < |p.fixedSizes|
    ensures Concat(FixedSize(p, g, h, w, ratios), s)
            + SizeBoxes(g, h, w, p.fixedSizes[s], Points(p.densities[s]), ratios) <= CellBoxes(p, g, h, w, ratios)
  {
    PieceFollows(FixedSize(p, g, h, w, ratios), |p.fixedSizes|, s);
  }

  lemma PrefixBehind(front: seq<Box>, a: seq<Box>, b: seq<Box>)
    requires a <= b
    ensures front + a <= front + b
  {
  }

  /** ... and then the minimum sizes. */
  lemma {:induction false} MinSizesFollow(p: Params, g: Geometry, h: nat, w: nat, ratios: seq<NonZero>, ms: nat)
    requires ms < |p.minSizes|
    ensures Concat(FixedSize(p, g, h, w, ratios), |p.fixedSizes|)
            + (Concat(MinSize(p, g, h, w, ratios), ms) + MinSize(p, g, h, w, ratios)(ms))
            <= CellBoxes(p, g, h, w, ratios)
  {
    var f := MinSize(p, g, h, w, ratios);
    PieceFollows(f, |p.minSizes|, ms);
    PrefixBehind(Concat(FixedSize(p, g, h, w, ratios), |p.fixedSizes|), Concat(f, ms) + f(ms), Concat(f, |p.minSizes|));
  }

  /** Of a minimum size there are the square, that with its maximum size if it has one, and those of the ratios: of the
      minimum size itself if all are scaled, else of the first one, and then only with the last. */
  lemma {:induction false} MinSizeIs(p: Params, g: Geometry, h: nat, w: nat, ratios: seq<NonZero>, ms: nat)
    requires ms < |p.minSizes|
    ensures var boxes := MinSize(p, g, h, w, ratios)(ms);
            var squares := if ms < |p.maxSizes| then 2 else 1;
            && squares <= |boxes| && boxes[0] == g.minSquare(h, w, p.minSizes[ms])
            && (ms < |p.maxSizes| ==> boxes[1] == g.maxSquare(h, w, p.minSizes[ms], p.maxSizes[ms]))
            && boxes[squares..] ==
               if p.scaleAllSizes then Concat(RatioBox(g, h, w, p.minSizes[ms], ratios), |ratios|)
               else if ms + 1 == |p.minSizes| then Concat(RatioBox(g, h, w, p.minSizes[0], ratios), |ratios|)
               else []
  {
  }

  /** A ratio has its box unless it counts as 1. */
  lemma {:induction false} RatioBoxFollows(g: Geometry, h: nat, w: nat, size: real, ratios: seq<NonZero>, i: nat)
    requires i < |ratios|
    ensures Concat(RatioBox(g, h, w, size, ratios), i)
            + (if Near(ratios[i], 1.0) then [] else [g.minRatio(h, w, size, ratios[i])])
            <= Concat(RatioBox(g, h, w, size, ratios), |ratios|)
  {
    PieceFollows(RatioBox(g, h, w, size, ratios), |ratios|, i);
  }

  /** A layer of one minimum size on two cells side by side, each a hundred pixels wide. */
  function TwoCells(sqrt: real -> real, ratioRoot: NonZero -> NonZero): Params {
    Params(0.5, 0.0, [20.0], [], false, false, true, [], [], [], [], 2, 1, 200, 100, 8, 16, sqrt, ratioRoot)
  }

  lemma {:induction false} BoxesOfTwoCells(sqrt: real -> real, ratioRoot: NonZero -> NonZero)
    ensures var p := TwoCells(sqrt, ratioRoot);
            && Ratios([], false) == [1.0] && Planned(p, 1) == 2
            && AllBoxes(p, LayerGeometry(p), [1.0]) == [Box(0.2, 0.4, 0.3, 0.6)] + [Box(0.7, 0.4, 0.8, 0.6)]
  {
    var p := TwoCells(sqrt, ratioRoot);
    var g := LayerGeometry(p);
    assert CellAt(p, 0, 0) == Cell(50.0, 50.0, 0.005, 0.01) && CellAt(p, 0, 1) == Cell(150.0, 50.0, 0.005, 0.01);
    assert Around(Cell(50.0, 50.0, 0.005, 0.01), 10.0, 10.0) == Box(0.2, 0.4, 0.3, 0.6);
    assert Around(Cell(150.0, 50.0, 0.005, 0.01), 10.0, 10.0) == Box(0.7, 0.4, 0.8, 0.6);
    OneBoxCell(p, g, 0, 0);
    OneBoxCell(p, g, 0, 1);
    var cells := CellsOfRow(p, g, [1.0], 0);
    assert Concat(cells, 2) == Concat(cells, 1) + cells(1) && Concat(cells, 1) == Concat(cells, 0) + cells(0);
    assert Concat(Rows(p, g, [1.0]), 1) == Concat(Rows(p, g, [1.0]), 0) + Rows(p, g, [1.0])(0);
  }

  lemma {:induction false} OneBoxCell(p: Params, g: Geometry, h: nat, w: nat)
    requires p.fixedSizes == [] && p.minSizes == [20.0] && p.maxSizes == []
    ensures CellBoxes(p, g, h, w, [1.0]) == [g.minSquare(h, w, 20.0)]
  {
    var ratios: seq<NonZero> := [1.0];
    var f, none := MinSize(p, g, h, w, ratios), RatioBox(g, h, w, 20.0, ratios);
    assert Near(ratios[0], 1.0);
    assert none(0) == [] && Concat(none, 0) == [] && Concat(none, 1) == Concat(none, 0) + none(0);
    assert p.minSizes[0] == 20.0;
    MinSizeIs(p, g, h, w, [1.0], 0);
    assert f(0)[1..] == [] && f(0) == [f(0)[0]] + f(0)[1..];
    assert Concat(f, 1) == Concat(f, 0) + f(0);
    assert Concat(FixedSize(p, g, h, w, [1.0]), 0) == [];
  }

  predicate Supported(p: Params) {
    p.W > 0 && p.H > 0 && p.IW > 0 && p.IH > 0 && p.DensitiesMatch()
  }

  /** Boxes the layer has been given room for. */
  function Planned(p: Params, ratios: nat): int {
    p.H * (p.W * NumPriors(p, ratios))
  }

  /** All boxes of the layer fit the room the count makes for them exactly when those of a cell do, and fill it
      exactly when those of a cell do. */
  lemma {:induction false} BoxesStayInTheirPlane(p: Params, g: Geometry, src: seq<NonZero>)
    requires Supported(p)
    ensures var ratios := Ratios(src, p.flip);
            && (|AllBoxes(p, g, ratios)| <= Planned(p, |ratios|) <==> Slack(p, ratios) >= 0)
            && (|AllBoxes(p, g, ratios)| == Planned(p, |ratios|) <==> Slack(p, ratios) == 0)
            && (NearOnes(ratios) == 1 <==> !FlipsOntoOne(src, p.flip))
  {
    var ratios := Ratios(src, p.flip);
    OnlyOneIsNearOne(src, p.flip);
    CellBoxesLength(p, g, 0, 0, ratios, |ratios| - NearOnes(ratios), CellCount(p, ratios));
    AllBoxesLength(p, g, ratios, CellCount(p, ratios));
    CountAgrees(p, ratios);
    SameOrder(CellCount(p, ratios), NumPriors(p, |ratios|), p.W);
    SameOrder(p.W * CellCount(p, ratios), p.W * NumPriors(p, |ratios|), p.H);
  }

  /** A layer with both fixed and minimum sizes always outgrows its room when no inverse falls on 1, every density
      is a whole number and has its fixed size, and every maximum size its minimum size: one box too many in each
      cell at least. */
  lemma MixedLayersOutgrowTheirPlane(p: Params, g: Geometry, src: seq<NonZero>)
    requires Supported(p) && p.fixedSizes != [] && p.minSizes != []
    requires !FlipsOntoOne(src, p.flip) && |p.maxSizes| <= |p.minSizes|
    requires |p.densities| == |p.fixedSizes| && Whole(p.densities)
    ensures var ratios := Ratios(src, p.flip); |AllBoxes(p, g, ratios)| > Planned(p, |ratios|)
  {
    var ratios := Ratios(src, p.flip);
    OnlyOneIsNearOne(src, p.flip);
    BoxesStayInTheirPlane(p, g, src);
    assert p.densities[..|p.fixedSizes|] == p.densities;
    SpareIsNotNegative(p);
    CountAgrees(p, ratios);
    FixedSizeCountAgrees(p, ratios);
  }

  /** One density of zero and no fixed size take the one box of the minimum size off the count: every cell gets a
      box, and room is made for none. */
  lemma ZeroDensityLeavesNoRoom(p: Params, g: Geometry)
    requires Supported(p) && p.fixedSizes == [] && p.densities == [0.0] && |p.minSizes| == 1 && p.maxSizes == []
    ensures Planned(p, |Ratios([], p.flip)|) == 0 && |AllBoxes(p, g, Ratios([], p.flip))| == p.H * p.W
  {
    var ratios := Ratios([], p.flip);
    OnlyOneIsNearOne([], p.flip);
    assert p.densities[..0] == [] && p.densities[0..] == [0.0] && Extra([0.0]) == Extra([]) - 1;
    assert Spare(p) == -1;
    CountWithSpare(p, 1);
    assert NumPriors(p, 1) == 0 && p.Used() == [];
    AllBoxesLength(p, g, ratios, 1);
  }

  lemma NotNegative(a: nat, b: nat)
    ensures a * b >= 0
  {
  }

  lemma SameOrder(a: int, b: int, k: nat)
    requires k > 0
    ensures (k * a <= k * b <==> a <= b) && (k * a == k * b <==> a == b)
  {
    if a <= b {
      ScaleUp(a, b, k);
    } else {
      ScaleUp(b, a, k);
    }
  }

  lemma ScaleUp(a: int, b: int, k: nat)
    requires a <= b && k > 0
    ensures k * a <= k * b && (k * a == k * b <==> a == b)
  {
    Distribute(k, a, b - a);
    if a < b {
      ProductPositive(k, b - a);
    }
  }

  method CollectBoxes(p: Params, g: Geometry, ratios: seq<NonZero>) returns (boxes: seq<Box>)
    requires p.DensitiesMatch()
    ensures boxes == AllBoxes(p, g, ratios)
  {
    ghost var f := Rows(p, g, ratios);
    boxes := [];
    for h := 0 to p.H
      invariant boxes == Concat(f, h)
    {
      var row := BuildRow(p, g, ratios, h);
      ConcatNext(f, h, row);
      boxes := boxes + row;
    }
  }

  function Clamp(x: real): (r: real)
    ensures r == if x < 0.0 then 0.0 else if x > 1.0 then 1.0 else x
  {
    Min(Max(x, 0.0), 1.0)
  }

  function Variances(src: seq<real>): seq<real> { if src == [] then [0.1] else src }

  function Coordinate(b: Box, j: nat): real {
    if j == 0 then b.xmin else if j == 1 then b.ymin else if j == 2 then b.xmax else b.ymax
  }

  /** Value `i` once all boxes are written: four for each box, then zeros, the first `clipped` clamped if asked for. */
  function BoxValue(p: Params, boxes: seq<Box>, clipped: int, i: nat): real {
    var x := if i / 4 < |boxes| then Coordinate(boxes[i / 4], i % 4) else 0.0;
    if p.clip && i < clipped then Clamp(x) else x
  }

  function VarianceValue(variance: seq<real>, i: nat): real
    requires |variance| == 1 || |variance| == 4
  {
    if |variance| == 1 then variance[0] else variance[i % 4]
  }

  /** The first plane of the layer of two cells, box by box, and variances behind it in turn. */
  lemma ValuesOfTwoCells(sqrt: real -> real, ratioRoot: NonZero -> NonZero, variance: seq<real>)
    ensures var p := TwoCells(sqrt, ratioRoot);
            var boxes := AllBoxes(p, LayerGeometry(p), [1.0]);
            && BoxValue(p, boxes, 8, 0) == 0.2 && BoxValue(p, boxes, 8, 1) == 0.4
            && BoxValue(p, boxes, 8, 2) == 0.3 && BoxValue(p, boxes, 8, 3) == 0.6
            && BoxValue(p, boxes, 8, 4) == 0.7 && BoxValue(p, boxes, 8, 5) == 0.4
            && BoxValue(p, boxes, 8, 6) == 0.8 && BoxValue(p, boxes, 8, 7) == 0.6
            && (forall i: nat | i >= 8 :: BoxValue(p, boxes, 8, i) == 0.0)
    ensures |variance| == 4 ==> forall i: nat, k: nat | k < 4 && i == 4 * (i / 4) + k ::
              VarianceValue(variance, i) == variance[k]
    ensures |variance| == 1 ==> forall i: nat :: VarianceValue(variance, i) == variance[0]
  {
    BoxesOfTwoCells(sqrt, ratioRoot);
  }

  /** How far the variances reach: over the plane behind the first, or as far as boxes are planned. */
  function VarianceSpan(p: Params, variance: seq<real>, planned: int): int {
    if |variance| == 1 then p.channel else 4 * planned
  }

  /** Every value is stored inside the output.  As the bound of a loop, a negative count is an enormous one. */
  predicate InsideOutput(p: Params, boxes: nat, planned: int, variance: seq<real>) {
    && 4 * boxes <= p.size && (p.clip ==> 0 <= 4 * planned <= p.size)
    && 0 <= VarianceSpan(p, variance, planned) <= p.size - p.channel
  }

  /** Position `i` of the output is stored to: by a box, by clamping, or by a variance. */
  predicate StoredTo(p: Params, boxes: nat, planned: nat, variance: seq<real>, i: nat) {
    || i < 4 * boxes
    || (p.clip && i < 4 * planned)
    || p.channel <= i < p.channel + (if |variance| == 1 then p.channel else 4 * planned)
  }

  /** Nothing is stored outside exactly when no such position is; a negative count is outside wherever it bounds a
      loop. */
  lemma InsideExactly(p: Params, boxes: nat, planned: int, variance: seq<real>)
    ensures planned >= 0 ==>
              (InsideOutput(p, boxes, planned, variance) <==>
               p.channel <= p.size && forall i: nat | StoredTo(p, boxes, planned, variance, i) :: i < p.size)
    ensures planned < 0 ==>
              (InsideOutput(p, boxes, planned, variance) <==>
               !p.clip && |variance| == 1 && 4 * boxes <= p.size && 2 * p.channel <= p.size)
  {
    if planned >= 0 && forall i: nat | StoredTo(p, boxes, planned, variance, i) :: i < p.size {
      assert boxes > 0 ==> StoredTo(p, boxes, planned, variance, 4 * boxes - 1);
      assert p.clip && planned > 0 ==> StoredTo(p, boxes, planned, variance, 4 * planned - 1);
      var span := if |variance| == 1 then p.channel else 4 * planned;
      assert span > 0 ==> StoredTo(p, boxes, planned, variance, p.channel + span - 1);
    }
  }

  /** An output of two planes of the counted size takes every layer that fits. */
  lemma TwoPlanesAreEnough(p: Params, boxes: nat, planned: nat, variance: seq<real>)
    requires p.channel == 4 * planned && p.size == 2 * p.channel && boxes <= planned
    ensures InsideOutput(p, boxes, planned, variance)
    ensures VarianceSpan(p, variance, planned) == p.channel && 4 * boxes <= p.channel
  {
  }

  predicate VarianceAccepted(src: seq<real>) {
    (|src| == 0 || |src| == 1 || |src| == 4) && forall i | 0 <= i < |src| :: src[i] >= 0.0
  }

  method CheckVariance(src: seq<real>) returns (r: Result<seq<real>, PriorError>)
    ensures r.Ok? <==> VarianceAccepted(src)
    ensures r.Ok? ==> r.value == Variances(src)
  {
    if |src| == 1 || |src| == 4 {
      for i := 0 to |src|
        invariant forall k | 0 <= k < i :: src[k] >= 0.0
      {
        if src[i] < 0.0 {
          return Err(NegativeVariance);
        }
      }
      return Ok(src);
    } else if src == [] {
      return Ok([0.1]);
    } else {
      return Err(WrongVarianceCount);
    }
  }

  /** The whole layer: every value of the output, or an error where it would be written outside.  Variances are
      stored last, so boxes that outgrow their plane are lost where variances lie. */
  method ComputePriorbox(p: Params) returns (r: Result<array<real>, PriorError>)
    requires Supported(p)
    ensures r.Ok? <==> AllProper(p.srcRatios) && VarianceAccepted(p.srcVariance) &&
                       var ratios := Ratios(p.srcRatios, p.flip);
                       InsideOutput(p, |AllBoxes(p, LayerGeometry(p), ratios)|, Planned(p, |ratios|),
                                    Variances(p.srcVariance))
    ensures r.Ok? ==>
              var ratios, variance := Ratios(p.srcRatios, p.flip), Variances(p.srcVariance);
              var boxes, planned := AllBoxes(p, LayerGeometry(p), ratios), Planned(p, |ratios|);
              var span := VarianceSpan(p, variance, planned);
              && fresh(r.value) && r.value.Length == p.size && 0 <= p.channel + span <= p.size
              && (forall i: nat | i < p.size :: r.value[i] ==
                    if p.channel <= i < p.channel + span then VarianceValue(variance, i - p.channel)
                    else BoxValue(p, boxes, 4 * planned, i))
  {
    var built := BuildRatios(p.srcRatios, p.flip);
    if built.Err? {
      return Err(built.error);
    }
    var ratios := built.value;
    var numPriors := ComputeNumPriors(p, |ratios|);
    var checked := CheckVariance(p.srcVariance);
    if checked.Err? {
      return Err(checked.error);
    }
    var variance := checked.value;
    var boxes := CollectBoxes(p, LayerGeometry(p), ratios);
    var planned := p.H * (p.W * numPriors);
    if !InsideOutput(p, |boxes|, planned, variance) {
      return Err(WritesOutside);
    }
    var dst := new real[p.size](_ => 0.0);
    WriteBoxes(p, boxes, planned, dst);
    WriteVariance(p, variance, planned, dst);
    r := Ok(dst);
  }

  method WriteBoxes(p: Params, boxes: seq<Box>, planned: int, dst: array<real>)
    requires 4 * |boxes| <= dst.Length && (p.clip ==> 0 <= 4 * planned <= dst.Length)
    requires forall i | 0 <= i < dst.Length :: dst[i] == 0.0
    modifies dst
    ensures forall i: nat | i < dst.Length :: dst[i] == BoxValue(p, boxes, 4 * planned, i)
  {
    var idx := 0;
    for b := 0 to |boxes|
      invariant idx == 4 * b
      invariant forall i: nat | i < dst.Length :: dst[i] == if i < idx then Coordinate(boxes[i / 4], i % 4) else 0.0
    {
      dst[idx], dst[idx + 1], dst[idx + 2], dst[idx + 3] := boxes[b].xmin, boxes[b].ymin, boxes[b].xmax, boxes[b].ymax;
      idx := idx + 4;
    }
    if p.clip {
      ClampPlane(dst, 4 * planned);
    }
  }

  method ClampPlane(dst: array<real>, count: nat)
    requires count <= dst.Length
    modifies dst
    ensures forall i | 0 <= i < dst.Length :: dst[i] == if i < count then Clamp(old(dst[i])) else old(dst[i])
  {
    for i := 0 to count
      invariant forall k | 0 <= k < dst.Length :: dst[k] == if k < i then Clamp(old(dst[k])) else old(dst[k])
    {
      dst[i] := Min(Max(dst[i], 0.0), 1.0);
    }
  }

  method WriteVariance(p: Params, variance: seq<real>, planned: int, dst: array<real>)
    requires |variance| == 1 || |variance| == 4
    requires 0 <= VarianceSpan(p, variance, planned) <= dst.Length - p.channel
    modifies dst
    ensures var span := VarianceSpan(p, variance, planned);
            forall i: nat | i < dst.Length :: dst[i] ==
              if p.channel <= i < p.channel + span then VarianceValue(variance, i - p.channel) else old(dst[i])
  {
    var base := p.channel;
    if |variance| == 1 {
      for i := 0 to p.channel
        invariant forall k: nat | k < dst.Length :: dst[k] == if base <= k < base + i then variance[0] else old(dst[k])
      {
        dst[base + i] := variance[0];
      }
    } else {
      for i := 0 to planned
        invariant forall k: nat | k < dst.Length ::
                    dst[k] == if base <= k < base + 4 * i then variance[(k - base) % 4] else old(dst[k])
      {
        for j := 0 to 4
          invariant forall k: nat | k < dst.Length ::
                      dst[k] == if base <= k < base + 4 * i + j then variance[(k - base) % 4] else old(dst[k])
        {
          dst[base + i * 4 + j] := variance[j];
        }
      }
    }
  }
}
