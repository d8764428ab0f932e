/** Index arithmetic of region (YOLO) output tensors, the layout change in front of it and the decoder behind it. */
module RegionTensor {
  import opened Suppression
  import opened Wrappers

  // ---- mixed-radix numbers ----

  lemma MulMonotone(a: nat, b: nat, m: nat)
    requires a <= b
    ensures a * m <= b * m
  {
    assert b * m == a * m + (b - a) * m;
  }

  lemma DigitsAreUnique(q: nat, r: nat, q': nat, r': nat, m: nat)
    requires q * m + r == q' * m + r' && r < m && r' < m
    ensures q == q' && r == r'
  {
    if q < q' {
      MulMonotone(q + 1, q', m);
    } else if q' < q {
      MulMonotone(q' + 1, q, m);
    }
  }

  lemma DivModUnique(q: nat, r: nat, m: nat)
    requires r < m
    ensures (q * m + r) / m == q && (q * m + r) % m == r
  {
    var x := q * m + r;
    DigitsAreUnique(q, r, x / m, x % m, m);
  }

  lemma DigitsInRange(q: nat, r: nat, n: nat, m: nat)
    requires q < n && r < m
    ensures q * m + r < n * m
  {
    MulMonotone(1, n - q, m);
    assert n * m == q * m + (n - q) * m;
  }

  lemma QuotientInRange(x: nat, n: nat, m: nat)
    requires x < n * m
    ensures m > 0 && x / m < n && x % m < m && x == x / m * m + x % m
  {
    if x / m >= n {
      MulMonotone(n, x / m, m);
    }
  }

  // ---- entryIndex ----

  /** The position of an entry of a location, a location being an anchor and a cell in one number. */
  function EntryIndex(
      lw: nat, lh: nat, lcoords: nat, lclasses: nat, lnum: nat, batch: nat, location: nat, entry: nat): int
    requires lw * lh > 0
  {
    var n := location / (lw * lh);
    var loc := location % (lw * lh);
    var loutputs := lh * lw * lnum * (lclasses + lcoords + 1);
    batch * loutputs + n * lw * lh * (lcoords + lclasses + 1) + entry * lw * lh + loc
  }

  /** Anchor-major, then entry, then cell. */
  function Flat(area: nat, entries: nat, n: nat, e: nat, i: nat): nat {
    (n * entries + e) * area + i
  }

  lemma EntryIndexIsFlat(lw: nat, lh: nat, lcoords: nat, lclasses: nat, lnum: nat, n: nat, e: nat, i: nat)
    requires i < lw * lh
    ensures EntryIndex(lw, lh, lcoords, lclasses, lnum, 0, n * lw * lh + i, e)
            == Flat(lw * lh, lcoords + lclasses + 1, n, e, i)
  {
    var area, entries := lw * lh, lcoords + lclasses + 1;
    assert n * lw * lh == n * area;
    DivModUnique(n, i, area);
    assert n * lw * lh * entries == n * entries * area;
    assert e * lw * lh == e * area;
    assert (n * entries + e) * area == n * entries * area + e * area;
  }

  datatype Entry = Entry(anchor: nat, entry: nat, cell: nat)

  function Unflat(area: nat, entries: nat, k: nat): Entry
    requires area > 0 && entries > 0
  {
    Entry(k / area / entries, k / area % entries, k % area)
  }

  /** Every (anchor, entry, cell) has a position of its own inside the tensor ... */
  lemma FlatIsInjective(area: nat, entries: nat, lnum: nat, n: nat, e: nat, i: nat)
    requires n < lnum && e < entries && i < area
    ensures Flat(area, entries, n, e, i) < area * lnum * entries
    ensures Unflat(area, entries, Flat(area, entries, n, e, i)) == Entry(n, e, i)
  {
    DivModUnique(n * entries + e, i, area);
    DivModUnique(n, e, entries);
    DigitsInRange(n, e, lnum, entries);
    DigitsInRange(n * entries + e, i, lnum * entries, area);
    assert lnum * entries * area == area * lnum * entries;
  }

  /** ... and every position belongs to one. */
  lemma FlatIsSurjective(area: nat, entries: nat, lnum: nat, k: nat)
    requires k < area * lnum * entries
    ensures area > 0 && entries > 0
    ensures var t := Unflat(area, entries, k);
            t.anchor < lnum && t.entry < entries && t.cell < area && Flat(area, entries, t.anchor, t.entry, t.cell) == k
  {
    Rotate(area, lnum, entries);
    QuotientInRange(k, lnum * entries, area);
    QuotientInRange(k / area, lnum, entries);
    FlatOfDigits(area, entries, k / area / entries, k / area % entries, k / area, k % area, k);
  }

  lemma QuotientAndRest(x: nat, m: nat)
    requires m > 0
    ensures x == x / m * m + x % m && x % m < m
  {
  }

  /** Whatever the number of anchors. */
  lemma FlatOfUnflat(area: nat, entries: nat, k: nat)
    requires area > 0 && entries > 0
    ensures var t := Unflat(area, entries, k);
            t.entry < entries && t.cell < area && Flat(area, entries, t.anchor, t.entry, t.cell) == k
  {
    QuotientAndRest(k, area);
    QuotientAndRest(k / area, entries);
    FlatOfDigits(area, entries, k / area / entries, k / area % entries, k / area, k % area, k);
  }

  lemma Rotate(a: nat, b: nat, c: nat)
    ensures a * b * c == b * c * a
  {
  }

  lemma FlatOfDigits(area: nat, entries: nat, n: nat, e: nat, q: nat, i: nat, k: nat)
    requires q == n * entries + e && k == q * area + i
    ensures Flat(area, entries, n, e, i) == k
  {
  }

  // ---- NHWC to NCHW ----

  function Nchw(H: nat, W: nat, c: nat, h: nat, w: nat): nat { c * H * W + h * W + w }

  function Nhwc(C: nat, W: nat, c: nat, h: nat, w: nat): nat { h * W * C + w * C + c }

  lemma LayoutsAreMixedRadix(C: nat, H: nat, W: nat, c: nat, h: nat, w: nat)
    ensures Nchw(H, W, c, h, w) == Flat(W, H, c, h, w)
    ensures Nhwc(C, W, c, h, w) == Flat(C, W, h, w, c)
  {
    assert (c * H + h) * W == c * H * W + h * W;
    assert (h * W + w) * C == h * W * C + w * C;
  }

  lemma LayoutsInRange(C: nat, H: nat, W: nat, c: nat, h: nat, w: nat)
    requires c < C && h < H && w < W
    ensures Nchw(H, W, c, h, w) < C * H * W && Nhwc(C, W, c, h, w) < C * H * W
  {
    LayoutsAreMixedRadix(C, H, W, c, h, w);
    FlatIsInjective(W, H, C, c, h, w);
    FlatIsInjective(C, W, H, h, w, c);
    Rotate(W, C, H);
    Rotate(C, W, H);
    Rotate(C, H, W);
  }

  /** Where the element that ends up at position `k` of the reordered tensor comes from. */
  function Source(C: nat, H: nat, W: nat, k: nat): nat
    requires H > 0 && W > 0
  {
    var t := Unflat(W, H, k);
    Nhwc(C, W, t.anchor, t.entry, t.cell)
  }

  /** Where the element at position `k` of the NHWC tensor goes. */
  function Target(C: nat, H: nat, W: nat, k: nat): nat
    requires C > 0 && W > 0
  {
    var t := Unflat(C, W, k);
    Nchw(H, W, t.cell, t.anchor, t.entry)
  }

  /** The reorder moves every element to exactly one place. */
  lemma ReorderIsPermutation(C: nat, H: nat, W: nat, k: nat)
    requires k < C * H * W
    ensures C > 0 && H > 0 && W > 0
    ensures Source(C, H, W, k) < C * H * W && Target(C, H, W, Source(C, H, W, k)) == k
    ensures Target(C, H, W, k) < C * H * W && Source(C, H, W, Target(C, H, W, k)) == k
  {
    assert C * H * W == W * C * H == C * H * W;
    FlatIsSurjective(W, H, C, k);
    var t := Unflat(W, H, k);
    LayoutsInRange(C, H, W, t.anchor, t.entry, t.cell);
    LayoutsAreMixedRadix(C, H, W, t.anchor, t.entry, t.cell);
    FlatIsInjective(C, W, H, t.entry, t.cell, t.anchor);
    FlatIsSurjective(C, W, H, k);
    var u := Unflat(C, W, k);
    LayoutsInRange(C, H, W, u.cell, u.anchor, u.entry);
    LayoutsAreMixedRadix(C, H, W, u.cell, u.anchor, u.entry);
    FlatIsInjective(W, H, C, u.cell, u.anchor, u.entry);
  }

  /** The first `upto` elements of `result` are in place. */
  predicate InPlace(result: seq<real>, ptr: seq<real>, C: nat, H: nat, W: nat, upto: nat)
    requires |result| == |ptr| == C * H * W
  {
    forall k: nat | k < upto :: k < |result| && (ReorderIsPermutation(C, H, W, k); result[k] == ptr[Source(C, H, W, k)])
  }

  lemma MovedElement(C: nat, H: nat, W: nat, c: nat, h: nat, w: nat)
    requires c < C && h < H && w < W
    ensures Nchw(H, W, c, h, w) < C * H * W && Source(C, H, W, Nchw(H, W, c, h, w)) == Nhwc(C, W, c, h, w) < C * H * W
  {
    LayoutsInRange(C, H, W, c, h, w);
    LayoutsAreMixedRadix(C, H, W, c, h, w);
    FlatIsInjective(W, H, C, c, h, w);
  }

  method ReorderToNchw(ptr: seq<real>, C: nat, H: nat, W: nat) returns (result: array<real>)
    requires |ptr| == C * H * W
    ensures fresh(result) && result.Length == |ptr|
    ensures InPlace(result[..], ptr, C, H, W, |ptr|)
  {
    result := new real[C * H * W];
    for c := 0 to C
      invariant InPlace(result[..], ptr, C, H, W, Nchw(H, W, c, 0, 0))
    {
      for h := 0 to H
        invariant InPlace(result[..], ptr, C, H, W, Nchw(H, W, c, h, 0))
      {
        ReorderRow(ptr, result, C, H, W, c, h);
        NchwCarries(H, W, c, h);
      }
      NchwCarries(H, W, c, H);
    }
  }

  lemma NchwCarries(H: nat, W: nat, c: nat, h: nat)
    ensures Nchw(H, W, c, h, W) == Nchw(H, W, c, h + 1, 0)
    ensures Nchw(H, W, c, H, 0) == Nchw(H, W, c + 1, 0, 0)
  {
    assert (h + 1) * W == h * W + W;
    assert (c + 1) * H * W == c * H * W + H * W;
  }

  /** The innermost of the loops. */
  method ReorderRow(ptr: seq<real>, result: array<real>, C: nat, H: nat, W: nat, c: nat, h: nat)
    requires |ptr| == C * H * W == result.Length && c < C && h < H
    requires InPlace(result[..], ptr, C, H, W, Nchw(H, W, c, h, 0))
    modifies result
    ensures InPlace(result[..], ptr, C, H, W, Nchw(H, W, c, h, W))
  {
    for w := 0 to W
      invariant InPlace(result[..], ptr, C, H, W, Nchw(H, W, c, h, w))
    {
      MovedElement(C, H, W, c, h, w);
      result[c * H * W + h * W + w] := ptr[h * W * C + w * C + c];
    }
  }

  /** Reading the reordered tensor at (c, h, w) the NCHW way is reading the original the NHWC way. */
  lemma ReorderKeepsTensor(result: seq<real>, ptr: seq<real>, C: nat, H: nat, W: nat, c: nat, h: nat, w: nat)
    requires |result| == |ptr| == C * H * W && InPlace(result, ptr, C, H, W, |ptr|) && c < C && h < H && w < W
    ensures Nchw(H, W, c, h, w) < |result| && Nhwc(C, W, c, h, w) < |ptr|
    ensures result[Nchw(H, W, c, h, w)] == ptr[Nhwc(C, W, c, h, w)]
  {
    MovedElement(C, H, W, c, h, w);
  }

  // ---- decoding one output ----

  /** One output of the network, as values of (anchor, entry, cell). */
  type View = (nat, nat, nat) -> real

  /** `ReadsOutside` stands for a read outside the tensor or the anchors, which the original does not check for. */
  datatype DecodeError = ReadsOutside

  /** `size` is how many values the output has, which need not be as many as its entries call for. */
  datatype Params = Params(lw: nat, lh: nat, size: nat, coords: nat, classes: nat, lnum: nat, imw: nat, imh: nat,
                           anchors: seq<real>, anchorOffset: int, thresh: real,
                           transform: real -> real, exp: real -> real)
  {
    function Entries(): nat { coords + classes + 1 }

    function Area(): nat { lw * lh }

    /** The last of the entries that scores are made from, the others coming before it. */
    predicate ScoresInTensor(n: nat, i: nat) { Flat(Area(), Entries(), n, coords + classes, i) < size }

    predicate Valid() { imw > 0 && imh > 0 }

    /** Where the first coordinate of a box is; the next ones are the square of the width apart. */
    function BoxIndex(n: nat, i: nat, k: nat): nat {
      Flat(Area(), Entries(), n, 0, i) + k * lw * lw
    }

    predicate BoxInTensor(n: nat, i: nat) { BoxIndex(n, i, 3) < size }

    predicate AnchorInside(n: nat) { 0 <= anchorOffset + 2 * n && anchorOffset + 2 * n + 1 < |anchors| }
  }

  datatype Detection = Detection(box: Box, probs: seq<real>)

  type Found = Result<seq<Detection>, DecodeError>

  function Then(a: Found, b: Found): Found {
    if a.Err? then a else if b.Err? then b else Ok(a.value + b.value)
  }

  function ClassProb(p: Params, t: View, n: nat, i: nat, j: nat): real {
    p.transform(t(n, p.coords, i)) * p.transform(t(n, p.coords + 1 + j, i))
  }

  function MaxProb(p: Params, t: View, n: nat, i: nat, upto: nat): real {
    if upto == 0 then 0.0 else
    var before, prob := MaxProb(p, t, n, i, upto - 1), ClassProb(p, t, n, i, upto - 1);
    if before < prob then prob else before
  }

  function Probs(p: Params, t: View, n: nat, i: nat): seq<real> {
    seq(p.classes, j requires 0 <= j => if ClassProb(p, t, n, i, j) > p.thresh then ClassProb(p, t, n, i, j) else 0.0)
    + [MaxProb(p, t, n, i, p.classes)]
  }

  /** Position `k` of the tensor. */
  function At(p: Params, t: View, k: nat): real {
    if p.Area() == 0 then 0.0 else
    var e := Unflat(p.Area(), p.Entries(), k);
    t(e.anchor, e.entry, e.cell)
  }

  /** The box that four values of the tensor stand for. */
  function BoxFrom(p: Params, n: nat, i: nat, x: real, y: real, w: real, h: real): Box
    requires p.Valid() && p.lw > 0 && p.AnchorInside(n)
  {
    var row, col := i / p.lw, i % p.lw;
    Box((col as real + p.transform(x)) / p.lw as real, (row as real + p.transform(y)) / p.lw as real,
        p.exp(w) * p.anchors[p.anchorOffset + 2 * n] / p.imw as real,
        p.exp(h) * p.anchors[p.anchorOffset + 2 * n + 1] / p.imh as real)
  }

  function RegionBox(p: Params, t: View, n: nat, i: nat): Box
    requires p.Valid() && p.lw > 0 && p.AnchorInside(n)
  {
    BoxFrom(p, n, i, At(p, t, p.BoxIndex(n, i, 0)), At(p, t, p.BoxIndex(n, i, 1)),
            At(p, t, p.BoxIndex(n, i, 2)), At(p, t, p.BoxIndex(n, i, 3)))
  }

  /** The centre of a box is in its cell's column and row, moved as the tensor says, in cells of the output -- the
      width being taken for its height too -- and its sides are those of its anchor, stretched as the tensor says. */
  predicate IsPlaced(p: Params, n: nat, row: nat, col: nat, b: Box, x: real, y: real, w: real, h: real)
    requires p.AnchorInside(n)
  {
    && b.x * p.lw as real == col as real + p.transform(x) && b.y * p.lw as real == row as real + p.transform(y)
    && b.w * p.imw as real == p.exp(w) * p.anchors[p.anchorOffset + 2 * n]
    && b.h * p.imh as real == p.exp(h) * p.anchors[p.anchorOffset + 2 * n + 1]
  }

  lemma {:induction false} BoxIsPlaced(
      p: Params, t: View, n: nat, i: nat, row: nat, col: nat, x: real, y: real, w: real, h: real)
    requires p.Valid() && p.lw > 0 && row == i / p.lw && col == i % p.lw && p.AnchorInside(n)
    requires x == At(p, t, p.BoxIndex(n, i, 0)) && y == At(p, t, p.BoxIndex(n, i, 1))
    requires w == At(p, t, p.BoxIndex(n, i, 2)) && h == At(p, t, p.BoxIndex(n, i, 3))
    ensures IsPlaced(p, n, row, col, RegionBox(p, t, n, i), x, y, w, h)
  {
    BoxFromIsPlaced(p, n, i, row, col, x, y, w, h);
    assert RegionBox(p, t, n, i) == BoxFrom(p, n, i, x, y, w, h);
  }

  lemma {:induction false} BoxFromIsPlaced(
      p: Params, n: nat, i: nat, row: nat, col: nat, x: real, y: real, w: real, h: real)
    requires p.Valid() && p.lw > 0 && row == i / p.lw && col == i % p.lw && p.AnchorInside(n)
    ensures IsPlaced(p, n, row, col, BoxFrom(p, n, i, x, y, w, h), x, y, w, h)
  {
    TimesBack(col as real + p.transform(x), p.lw as real);
    TimesBack(row as real + p.transform(y), p.lw as real);
    TimesBack(p.exp(w) * p.anchors[p.anchorOffset + 2 * n], p.imw as real);
    TimesBack(p.exp(h) * p.anchors[p.anchorOffset + 2 * n + 1], p.imh as real);
  }

  lemma TimesBack(x: real, n: real)
    requires n != 0.0
    ensures x / n * n == x
  {
  }

  /** A class reaches the threshold, so the box is read. */
  predicate Detected(p: Params, t: View, n: nat, i: nat) {
    MaxProb(p, t, n, i, p.classes) >= p.thresh
  }

  /** A location is detected when a class reaches the threshold, or the threshold asks for nothing. */
  lemma DetectedExactly(p: Params, t: View, n: nat, i: nat)
    ensures Detected(p, t, n, i) <==>
            p.thresh <= 0.0 || exists j: nat :: j < p.classes && ClassProb(p, t, n, i, j) >= p.thresh
  {
    MaxIsLargest(p, t, n, i, p.classes);
  }

  lemma {:induction false} MaxIsLargest(p: Params, t: View, n: nat, i: nat, upto: nat)
    ensures MaxProb(p, t, n, i, upto) >= 0.0
    ensures forall j: nat | j < upto :: ClassProb(p, t, n, i, j) <= MaxProb(p, t, n, i, upto)
    ensures MaxProb(p, t, n, i, upto) == 0.0 ||
            exists j: nat :: j < upto && MaxProb(p, t, n, i, upto) == ClassProb(p, t, n, i, j)
  {
    if upto > 0 {
      MaxIsLargest(p, t, n, i, upto - 1);
    }
  }

  predicate Fails(p: Params, t: View, n: nat, i: nat) {
    !p.ScoresInTensor(n, i) || (Detected(p, t, n, i) && !(p.BoxInTensor(n, i) && p.AnchorInside(n)))
  }

  /** What one location contributes. */
  function Located(p: Params, t: View, n: nat, i: nat): Found
    requires p.Valid() && p.lw > 0
  {
    if !p.ScoresInTensor(n, i) then Err(ReadsOutside)
    else if !Detected(p, t, n, i) then Ok([])
    else if !(p.BoxInTensor(n, i) && p.AnchorInside(n)) then Err(ReadsOutside)
    else Ok([Detection(RegionBox(p, t, n, i), Probs(p, t, n, i))])
  }

  /** What the first `anchors` anchors of a cell contribute. */
  function CellDetections(p: Params, t: View, i: nat, anchors: nat): Found
    requires p.Valid() && p.lw > 0
  {
    if anchors == 0 then Ok([]) else Then(CellDetections(p, t, i, anchors - 1), Located(p, t, anchors - 1, i))
  }

  /** What the first `cells` cells contribute, cell by cell and, within a cell, anchor by anchor. */
  function Detections(p: Params, t: View, cells: nat): Found
    requires p.Valid() && (cells > 0 ==> p.lw > 0)
  {
    if cells == 0 then Ok([]) else Then(Detections(p, t, cells - 1), CellDetections(p, t, cells - 1, p.lnum))
  }

  function NchwView(predictions: seq<real>, area: nat, entries: nat): View {
    (n: nat, e: nat, i: nat) =>
      var k := Flat(area, entries, n, e, i); if k < |predictions| then predictions[k] else 0.0
  }

  /** The same tensor stored with the channel, anchor * entries + entry, innermost. */
  function NhwcView(ptr: seq<real>, channels: nat, entries: nat): View {
    (n: nat, e: nat, i: nat) =>
      var k := i * channels + (n * entries + e); if k < |ptr| then ptr[k] else 0.0
  }

  method DecodeOutput(predictions: seq<real>, p: Params) returns (found: Found)
    requires p.Valid() && |predictions| == p.size
    ensures found == Detections(p, NchwView(predictions, p.Area(), p.Entries()), p.Area())
  {
    var detections := [];
    for i := 0 to p.lw * p.lh
      invariant Ok(detections) == Detections(p, NchwView(predictions, p.Area(), p.Entries()), i)
    {
      var cell := DecodeCell(predictions, p, i);
      if cell.Err? {
        ErrorsStay(p, NchwView(predictions, p.Area(), p.Entries()), i + 1, p.Area());
        return cell;
      }
      detections := detections + cell.value;
    }
    return Ok(detections);
  }

  lemma {:induction false} ErrorsStay(p: Params, t: View, cells: nat, more: nat)
    requires p.Valid() && p.lw > 0 && cells <= more && Detections(p, t, cells).Err?
    ensures Detections(p, t, more) == Detections(p, t, cells)
  {
    if cells < more {
      ErrorsStay(p, t, cells, more - 1);
    }
  }

  lemma {:induction false} CellErrorsStay(p: Params, t: View, i: nat, anchors: nat, more: nat)
    requires p.Valid() && p.lw > 0 && anchors <= more && CellDetections(p, t, i, anchors).Err?
    ensures CellDetections(p, t, i, more) == CellDetections(p, t, i, anchors)
  {
    if anchors < more {
      CellErrorsStay(p, t, i, anchors, more - 1);
    }
  }

  lemma WidthOfCell(p: Params, i: nat)
    requires i < p.Area()
    ensures p.lw > 0 && p.lh > 0
  {
  }

  /** The loop over anchors. */
  method DecodeCell(predictions: seq<real>, p: Params, i: nat) returns (cell: Found)
    requires p.Valid() && |predictions| == p.size && i < p.Area()
    ensures p.lw > 0 && cell == CellDetections(p, NchwView(predictions, p.Area(), p.Entries()), i, p.lnum)
  {
    WidthOfCell(p, i);
    var detections := [];
    for n := 0 to p.lnum
      invariant Ok(detections) == CellDetections(p, NchwView(predictions, p.Area(), p.Entries()), i, n)
    {
      var here := DecodeLocation(predictions, p, i, n);
      if here.Err? {
        CellErrorsStay(p, NchwView(predictions, p.Area(), p.Entries()), i, n + 1, p.lnum);
        return here;
      }
      detections := detections + here.value;
    }
    return Ok(detections);
  }

  method ReadEntry(predictions: seq<real>, p: Params, i: nat, n: nat, e: nat) returns (x: real)
    requires |predictions| == p.size && i < p.Area() && e < p.Entries() && p.ScoresInTensor(n, i)
    ensures x == NchwView(predictions, p.Area(), p.Entries())(n, e, i)
  {
    var index := EntryIndex(p.lw, p.lh, p.coords, p.classes, p.lnum, 0, n * p.lw * p.lh + i, e);
    EntryIndexIsFlat(p.lw, p.lh, p.coords, p.classes, p.lnum, n, e, i);
    EntriesInOrder(p.Area(), p.Entries(), n, e, p.coords + p.classes, i);
    assert index == Flat(p.Area(), p.Entries(), n, e, i) < |predictions|;
    x := predictions[index];
  }

  lemma EntriesInOrder(area: nat, entries: nat, n: nat, e: nat, last: nat, i: nat)
    requires e <= last
    ensures Flat(area, entries, n, e, i) <= Flat(area, entries, n, last, i)
  {
    MulMonotone(n * entries + e, n * entries + last, area);
  }

  lemma AtIsPosition(predictions: seq<real>, p: Params, k: nat)
    requires k < |predictions| && p.Area() > 0
    ensures At(p, NchwView(predictions, p.Area(), p.Entries()), k) == predictions[k]
  {
    FlatOfUnflat(p.Area(), p.Entries(), k);
  }

  method ClassProbs(predictions: seq<real>, p: Params, i: nat, n: nat) returns (probs: seq<real>)
    requires |predictions| == p.size && i < p.Area() && p.ScoresInTensor(n, i)
    ensures |probs| == p.classes
    ensures var t := NchwView(predictions, p.Area(), p.Entries());
            forall j: nat | j < p.classes :: probs[j] == ClassProb(p, t, n, i, j)
  {
    var scale := ReadEntry(predictions, p, i, n, p.coords);
    probs := [];
    for j := 0 to p.classes
      invariant |probs| == j
      invariant var t := NchwView(predictions, p.Area(), p.Entries());
                forall k: nat | k < j :: probs[k] == ClassProb(p, t, n, i, k)
    {
      var x := ReadEntry(predictions, p, i, n, p.coords + 1 + j);
      probs := probs + [p.transform(scale) * p.transform(x)];
    }
  }

  method Max(probs: seq<real>, ghost p: Params, ghost t: View, ghost n: nat, ghost i: nat) returns (max: real)
    requires |probs| == p.classes && forall j: nat | j < p.classes :: probs[j] == ClassProb(p, t, n, i, j)
    ensures max == MaxProb(p, t, n, i, p.classes)
  {
    max := 0.0;
    for j := 0 to |probs|
      invariant max == MaxProb(p, t, n, i, j)
    {
      if max < probs[j] {
        max := probs[j];
      }
    }
  }

  method Thresholded(probs: seq<real>, max: real, p: Params, ghost t: View, ghost n: nat, ghost i: nat)
      returns (prob: seq<real>)
    requires |probs| == p.classes && forall j: nat | j < p.classes :: probs[j] == ClassProb(p, t, n, i, j)
    requires max == MaxProb(p, t, n, i, p.classes)
    ensures prob == Probs(p, t, n, i)
  {
    prob := seq(|probs|, j requires 0 <= j < |probs| => if probs[j] > p.thresh then probs[j] else 0.0) + [max];
  }

  /** The body of the loops over cells and anchors. */
  method DecodeLocation(predictions: seq<real>, p: Params, i: nat, n: nat) returns (here: Found)
    requires p.Valid() && |predictions| == p.size && i < p.Area() && n < p.lnum && p.lw > 0
    ensures here == Located(p, NchwView(predictions, p.Area(), p.Entries()), n, i)
  {
    ghost var t := NchwView(predictions, p.Area(), p.Entries());
    var last := EntryIndex(p.lw, p.lh, p.coords, p.classes, p.lnum, 0, n * p.lw * p.lh + i, p.coords + p.classes);
    EntryIndexIsFlat(p.lw, p.lh, p.coords, p.classes, p.lnum, n, p.coords + p.classes, i);
    if |predictions| <= last {
      return Err(ReadsOutside);
    }
    var probs := ClassProbs(predictions, p, i, n);
    var max := Max(probs, p, t, n, i);
    if max < p.thresh {
      return Ok([]);
    }
    var box := DecodeBox(predictions, p, i, n);
    if box.Err? {
      return Err(ReadsOutside);
    }
    var prob := Thresholded(probs, max, p, t, n, i);
    var d := Detection(box.value, prob);
    assert d == Detection(RegionBox(p, t, n, i), Probs(p, t, n, i));
    here := Ok([d]);
  }

  method DecodeBox(predictions: seq<real>, p: Params, i: nat, n: nat) returns (box: Result<Box, DecodeError>)
    requires p.Valid() && |predictions| == p.size && i < p.Area() && n < p.lnum && p.lw > 0
    ensures box.Ok? <==> p.BoxInTensor(n, i) && p.AnchorInside(n)
    ensures box.Ok? ==> box.value == RegionBox(p, NchwView(predictions, p.Area(), p.Entries()), n, i)
  {
    var index := EntryIndex(p.lw, p.lh, p.coords, p.classes, p.lnum, 0, n * p.lw * p.lh + i, 0);
    EntryIndexIsFlat(p.lw, p.lh, p.coords, p.classes, p.lnum, n, 0, i);
    var stride := p.lw * p.lw;
    BoxReads(p, n, i, index);
    if |predictions| <= index + 3 * stride || !p.AnchorInside(n) {
      return Err(ReadsOutside);
    }
    BoxValues(predictions, p, n, i, index, stride);
    box := Ok(BoxFrom(p, n, i, predictions[index], predictions[index + stride],
                      predictions[index + 2 * stride], predictions[index + 3 * stride]));
  }

  lemma BoxValues(predictions: seq<real>, p: Params, n: nat, i: nat, index: nat, stride: nat)
    requires p.Area() > 0 && stride == p.lw * p.lw && index + 3 * stride < |predictions|
    requires forall k: nat | k < 4 :: p.BoxIndex(n, i, k) == index + k * (p.lw * p.lw)
    ensures var t := NchwView(predictions, p.Area(), p.Entries());
            && At(p, t, p.BoxIndex(n, i, 0)) == predictions[index]
            && At(p, t, p.BoxIndex(n, i, 1)) == predictions[index + stride]
            && At(p, t, p.BoxIndex(n, i, 2)) == predictions[index + 2 * stride]
            && At(p, t, p.BoxIndex(n, i, 3)) == predictions[index + 3 * stride]
  {
    AtIsPosition(predictions, p, index);
    AtIsPosition(predictions, p, index + stride);
    AtIsPosition(predictions, p, index + 2 * stride);
    AtIsPosition(predictions, p, index + 3 * stride);
  }

  lemma BoxReads(p: Params, n: nat, i: nat, index: int)
    requires index == Flat(p.Area(), p.Entries(), n, 0, i)
    ensures forall k: nat | k < 4 :: p.BoxIndex(n, i, k) == index + k * (p.lw * p.lw)
  {
    forall k: nat | k < 4 ensures p.BoxIndex(n, i, k) == index + k * (p.lw * p.lw) {
      assert k * p.lw * p.lw == k * (p.lw * p.lw);
    }
  }

  /** An output of one cell, one anchor and one class: coordinates first, then the score of the box, then that of the
      class. */
  function OneCell(exp: real -> real): Params {
    Params(1, 1, 6, 4, 1, 1, 10, 20, [2.0, 3.0], 0, 0.5, (x: real) => x, exp)
  }

  function OneCellView(x: real, y: real, w: real, h: real): View {
    NchwView([x, y, w, h, 0.8, 0.75], 1, 6)
  }

  lemma {:induction false} OneCellScores(exp: real -> real, x: real, y: real, w: real, h: real)
    ensures Probs(OneCell(exp), OneCellView(x, y, w, h), 0, 0) == [0.6, 0.6]
    ensures Detected(OneCell(exp), OneCellView(x, y, w, h), 0, 0)
  {
    var p, t := OneCell(exp), OneCellView(x, y, w, h);
    assert t(0, 4, 0) == 0.8 && t(0, 5, 0) == 0.75;
    assert ClassProb(p, t, 0, 0, 0) == 0.6;
    assert MaxProb(p, t, 0, 0, 0) == 0.0 && MaxProb(p, t, 0, 0, 1) == 0.6;
  }

  lemma {:induction false} OneCellBox(exp: real -> real, x: real, y: real, w: real, h: real)
    ensures var p := OneCell(exp);
            && p.ScoresInTensor(0, 0) && p.BoxInTensor(0, 0) && p.AnchorInside(0)
            && var b := RegionBox(p, OneCellView(x, y, w, h), 0, 0);
               b.x == x && b.y == y && b.w * 10.0 == exp(w) * 2.0 && b.h * 20.0 == exp(h) * 3.0
  {
    var p, data := OneCell(exp), [x, y, w, h, 0.8, 0.75];
    AtIsPosition(data, p, 0);
    AtIsPosition(data, p, 1);
    AtIsPosition(data, p, 2);
    AtIsPosition(data, p, 3);
    BoxIsPlaced(p, OneCellView(x, y, w, h), 0, 0, 0, 0, x, y, w, h);
  }

  lemma {:induction false} OneCellIsDecoded(exp: real -> real, x: real, y: real, w: real, h: real)
    ensures Detections(OneCell(exp), OneCellView(x, y, w, h), 1)
            == Ok([Detection(RegionBox(OneCell(exp), OneCellView(x, y, w, h), 0, 0), [0.6, 0.6])])
  {
    OneCellScores(exp, x, y, w, h);
    OneCellBox(exp, x, y, w, h);
    OneLocation(OneCell(exp), OneCellView(x, y, w, h), 0, 0, 1);
  }

  lemma {:induction false} OneLocation(p: Params, t: View, n: nat, i: nat, one: nat)
    requires p.Valid() && p.lw > 0 && n == i == 0 && one == 1 == p.lnum && Detected(p, t, n, i)
    requires p.ScoresInTensor(n, i) && p.BoxInTensor(n, i) && p.AnchorInside(n)
    ensures Detections(p, t, one) == Ok([Detection(RegionBox(p, t, n, i), Probs(p, t, n, i))])
  {
    var here := [Detection(RegionBox(p, t, n, i), Probs(p, t, n, i))];
    assert Located(p, t, n, i) == Ok(here) && [] + here == here;
    assert CellDetections(p, t, i, n) == Ok([]) && CellDetections(p, t, i, one) == Ok(here);
    assert Detections(p, t, i) == Ok([]);
  }

  // ---- when the decoder stays inside ----

  lemma {:induction false} CellFailsExactly(p: Params, t: View, i: nat, anchors: nat)
    requires p.Valid() && p.lw > 0
    ensures CellDetections(p, t, i, anchors).Err? <==> exists n: nat :: n < anchors && Fails(p, t, n, i)
  {
    if anchors > 0 {
      CellFailsExactly(p, t, i, anchors - 1);
      assert Located(p, t, anchors - 1, i).Err? <==> Fails(p, t, anchors - 1, i);
    }
  }

  predicate CellFails(p: Params, t: View, i: nat) {
    exists n: nat :: n < p.lnum && Fails(p, t, n, i)
  }

  /** Decoding reads outside exactly when a location has its scores outside the tensor or, being detected, its box
      outside the tensor or its anchor outside the anchors. */
  lemma {:induction false} DecodingFailsExactly(p: Params, t: View, cells: nat)
    requires p.Valid() && (cells > 0 ==> p.lw > 0)
    ensures Detections(p, t, cells).Err? <==> exists i: nat :: i < cells && CellFails(p, t, i)
  {
    if cells > 0 {
      DecodingFailsExactly(p, t, cells - 1);
      CellFailsExactly(p, t, cells - 1, p.lnum);
      assert CellDetections(p, t, cells - 1, p.lnum).Err? <==> CellFails(p, t, cells - 1);
    }
  }

  /** All scores are inside the tensor exactly when it has the entries of all anchors. */
  lemma AllScoresInTensor(p: Params)
    requires p.lnum > 0 && p.Area() > 0
    ensures (forall n: nat, i: nat | n < p.lnum && i < p.Area() :: p.ScoresInTensor(n, i)) <==>
            p.Area() * p.lnum * p.Entries() <= p.size
  {
    var n, i := p.lnum - 1, p.Area() - 1;
    LastScore(p.Area(), p.Entries(), p.lnum);
    if p.ScoresInTensor(n, i) {
      forall m: nat, j: nat | m < p.lnum && j < p.Area() ensures p.ScoresInTensor(m, j) {
        FlatIsMonotone(p.Area(), p.Entries(), p.coords + p.classes, m, j, n, i);
      }
    }
  }

  lemma LastScore(area: nat, entries: nat, lnum: nat)
    requires lnum > 0 && area > 0 && entries > 0
    ensures Flat(area, entries, lnum - 1, entries - 1, area - 1) == area * lnum * entries - 1
  {
    Rotate(area, lnum, entries);
    assert (lnum - 1) * entries + (entries - 1) == lnum * entries - 1;
    LastOfRow(lnum * entries, area);
  }

  lemma LastOfRow(rows: int, area: int)
    ensures (rows - 1) * area + (area - 1) == rows * area - 1
  {
  }

  /** In a tensor with just these entries every box is inside exactly when the output is not too wide for its
      height. */
  lemma BoxesInTensor(p: Params)
    requires p.lnum > 0 && p.Area() > 0 && p.size == p.Area() * p.lnum * p.Entries()
    ensures (forall n: nat, i: nat | n < p.lnum && i < p.Area() :: p.BoxInTensor(n, i)) <==>
            3 * p.lw <= (p.coords + p.classes) * p.lh
  {
    var n, i := p.lnum - 1, p.Area() - 1;
    LastBox(p.Area(), p.Entries(), p.lnum, 3 * p.lw * p.lw);
    WidthOfCell(p, i);
    AreaTimes(p.lw, p.lh, p.coords + p.classes);
    if p.BoxInTensor(n, i) {
      forall m: nat, j: nat | m < p.lnum && j < p.Area() ensures p.BoxInTensor(m, j) {
        FlatIsMonotone(p.Area(), p.Entries(), 0, m, j, n, i);
      }
    }
  }

  lemma LastBox(area: nat, entries: nat, lnum: nat, reach: nat)
    requires lnum > 0 && area > 0
    ensures Flat(area, entries, lnum - 1, 0, area - 1) + reach < area * lnum * entries <==>
            reach <= (entries - 1) * area
  {
    Rotate(area, lnum, entries);
    assert lnum * entries == (lnum - 1) * entries + entries;
    assert lnum * entries * area == (lnum - 1) * entries * area + entries * area;
  }

  lemma AreaTimes(lw: nat, lh: nat, c: nat)
    requires lw > 0
    ensures 3 * lw * lw <= c * (lw * lh) <==> 3 * lw <= c * lh
  {
    assert c * (lw * lh) == c * lh * lw;
    if 3 * lw <= c * lh {
      MulMonotone(3 * lw, c * lh, lw);
    } else {
      MulMonotone(c * lh + 1, 3 * lw, lw);
    }
  }

  lemma FlatIsMonotone(area: nat, entries: nat, e: nat, m: nat, j: nat, n: nat, i: nat)
    requires m <= n && j <= i
    ensures Flat(area, entries, m, e, j) <= Flat(area, entries, n, e, i)
  {
    MulMonotone(m, n, entries);
    MulMonotone(m * entries + e, n * entries + e, area);
  }

  /** Every anchor read is inside exactly when the offset leaves room for all. */
  lemma AnchorsInside(p: Params)
    requires p.lnum > 0
    ensures (forall n: nat | n < p.lnum :: p.AnchorInside(n)) <==>
            0 <= p.anchorOffset && p.anchorOffset + 2 * p.lnum <= |p.anchors|
  {
    if forall n: nat | n < p.lnum :: p.AnchorInside(n) {
      assert p.AnchorInside(0) && p.AnchorInside(p.lnum - 1);
    }
  }

  /** On a square output a box is read from its own four entries. */
  lemma SquareBoxReadsItsEntries(p: Params, t: View, n: nat, i: nat, k: nat)
    requires p.lw == p.lh && n < p.lnum && i < p.Area() && k < p.Entries()
    ensures At(p, t, p.BoxIndex(n, i, k)) == t(n, k, i)
  {
    FlatIsInjective(p.Area(), p.Entries(), p.lnum, n, k, i);
    assert (n * p.Entries() + k) * p.Area() == n * p.Entries() * p.Area() + k * p.Area();
    assert k * p.lw * p.lw == k * p.Area();
  }

  // ---- the layout does not matter ----

  /** The views hold the same tensor. */
  ghost predicate SameTensor(p: Params, t: View, u: View) {
    forall n: nat, e: nat, i: nat | e < p.Entries() && i < p.Area() && Flat(p.Area(), p.Entries(), n, e, i) < p.size ::
      t(n, e, i) == u(n, e, i)
  }

  lemma SameProb(p: Params, t: View, u: View, n: nat, i: nat, j: nat)
    requires SameTensor(p, t, u) && p.ScoresInTensor(n, i) && i < p.Area() && j < p.classes
    ensures ClassProb(p, t, n, i, j) == ClassProb(p, u, n, i, j)
  {
    EntriesInOrder(p.Area(), p.Entries(), n, p.coords, p.coords + p.classes, i);
    EntriesInOrder(p.Area(), p.Entries(), n, p.coords + 1 + j, p.coords + p.classes, i);
  }

  lemma {:induction false} SameMax(p: Params, t: View, u: View, n: nat, i: nat, upto: nat)
    requires SameTensor(p, t, u) && p.ScoresInTensor(n, i) && i < p.Area() && upto <= p.classes
    ensures MaxProb(p, t, n, i, upto) == MaxProb(p, u, n, i, upto)
  {
    if upto > 0 {
      SameMax(p, t, u, n, i, upto - 1);
      SameProb(p, t, u, n, i, upto - 1);
    }
  }

  lemma SameAt(p: Params, t: View, u: View, k: nat)
    requires SameTensor(p, t, u) && k < p.size
    ensures At(p, t, k) == At(p, u, k)
  {
    if p.Area() > 0 {
      FlatOfUnflat(p.Area(), p.Entries(), k);
    }
  }

  lemma SameBox(p: Params, t: View, u: View, n: nat, i: nat)
    requires p.Valid() && p.lw > 0 && SameTensor(p, t, u) && p.AnchorInside(n) && p.BoxInTensor(n, i)
    ensures RegionBox(p, t, n, i) == RegionBox(p, u, n, i)
  {
    BoxReads(p, n, i, Flat(p.Area(), p.Entries(), n, 0, i));
    SameAt(p, t, u, p.BoxIndex(n, i, 0));
    SameAt(p, t, u, p.BoxIndex(n, i, 1));
    SameAt(p, t, u, p.BoxIndex(n, i, 2));
    SameAt(p, t, u, p.BoxIndex(n, i, 3));
  }

  lemma SameLocated(p: Params, t: View, u: View, n: nat, i: nat)
    requires p.Valid() && p.lw > 0 && SameTensor(p, t, u) && i < p.Area()
    ensures Located(p, t, n, i) == Located(p, u, n, i)
  {
    if p.ScoresInTensor(n, i) {
      SameMax(p, t, u, n, i, p.classes);
      forall j: nat | j < p.classes ensures ClassProb(p, t, n, i, j) == ClassProb(p, u, n, i, j) {
        SameProb(p, t, u, n, i, j);
      }
      assert Probs(p, t, n, i) == Probs(p, u, n, i);
    }
    if p.BoxInTensor(n, i) && p.AnchorInside(n) {
      SameBox(p, t, u, n, i);
    }
  }

  lemma {:induction false} SameCell(p: Params, t: View, u: View, i: nat, anchors: nat)
    requires p.Valid() && p.lw > 0 && SameTensor(p, t, u) && anchors <= p.lnum && i < p.Area()
    ensures CellDetections(p, t, i, anchors) == CellDetections(p, u, i, anchors)
  {
    if anchors > 0 {
      SameCell(p, t, u, i, anchors - 1);
      SameLocated(p, t, u, anchors - 1, i);
    }
  }

  lemma {:induction false} SameDetections(p: Params, t: View, u: View, cells: nat)
    requires p.Valid() && SameTensor(p, t, u) && cells <= p.Area() && (cells > 0 ==> p.lw > 0)
    ensures Detections(p, t, cells) == Detections(p, u, cells)
  {
    if cells > 0 {
      SameDetections(p, t, u, cells - 1);
      SameCell(p, t, u, cells - 1, p.lnum);
    }
  }

  /** Reordering an NHWC blob and decoding it finds what decoding it in place would, or reads outside when that
      would. */
  lemma DecodingIgnoresLayout(p: Params, C: nat, result: seq<real>, ptr: seq<real>)
    requires p.Valid() && p.size == |result| == |ptr| == C * p.lh * p.lw && InPlace(result, ptr, C, p.lh, p.lw, |ptr|)
    ensures Detections(p, NchwView(result, p.Area(), p.Entries()), p.Area())
            == Detections(p, NhwcView(ptr, C, p.Entries()), p.Area())
  {
    var t, u := NchwView(result, p.Area(), p.Entries()), NhwcView(ptr, C, p.Entries());
    forall n: nat, e: nat, i: nat | e < p.Entries() && i < p.Area() && Flat(p.Area(), p.Entries(), n, e, i) < p.size
      ensures t(n, e, i) == u(n, e, i)
    {
      SameEntry(p, C, result, ptr, n, e, i);
    }
    SameDetections(p, t, u, p.Area());
  }

  /** A pixel's position, in either layout, in terms of its row-major number. */
  lemma PixelPositions(H: nat, W: nat, channels: nat, c: nat, i: nat)
    requires W > 0
    ensures Nchw(H, W, c, i / W, i % W) == c * (W * H) + i
    ensures Nhwc(channels, W, c, i / W, i % W) == i * channels + c
  {
    var h, w := i / W, i % W;
    assert i == h * W + w;
    assert c * H * W == c * (W * H);
    assert (h * W + w) * channels == h * W * channels + w * channels;
  }

  lemma ChannelInRange(c: nat, C: nat, H: nat, W: nat, i: nat)
    requires c * (W * H) + i < C * H * W
    ensures c < C
  {
    Rotate(C, H, W);
    if c >= C {
      MulMonotone(C, c, W * H);
    }
  }

  lemma SameEntry(p: Params, C: nat, result: seq<real>, ptr: seq<real>, n: nat, e: nat, i: nat)
    requires |result| == |ptr| == C * p.lh * p.lw && InPlace(result, ptr, C, p.lh, p.lw, |ptr|)
    requires i < p.Area() && Flat(p.Area(), p.Entries(), n, e, i) < |ptr|
    ensures NchwView(result, p.Area(), p.Entries())(n, e, i) == NhwcView(ptr, C, p.Entries())(n, e, i)
  {
    var c := n * p.Entries() + e;
    ChannelInRange(c, C, p.lh, p.lw, i);
    QuotientInRange(i, p.lh, p.lw);
    PixelPositions(p.lh, p.lw, C, c, i);
    ReorderKeepsTensor(result, ptr, C, p.lh, p.lw, c, i / p.lw, i % p.lw);
  }

  // ---- two places where the original is not what its names say ----

  /** The box coordinates are read with the square of the width as the stride between entries.  That is the
      entry meant exactly when the output is square. */
  lemma BoxStrideNeedsSquare(lw: nat, lh: nat, lcoords: nat, lclasses: nat, lnum: nat, location: nat, k: nat)
    requires lw > 0 && lh > 0 && k > 0
    ensures (EntryIndex(lw, lh, lcoords, lclasses, lnum, 0, location, 0) + k * lw * lw
             == EntryIndex(lw, lh, lcoords, lclasses, lnum, 0, location, k)) <==> lw == lh
  {
    assert 0 * lw * lh == 0;
    assert k * lw * lw == k * lw * lh <==> lw == lh by {
      if lw < lh {
        assert (k * lw) * lh == (k * lw) * lw + (k * lw) * (lh - lw);
        MulPositive(k, lw);
        MulPositive(k * lw, lh - lw);
      } else if lh < lw {
        assert (k * lw) * lw == (k * lw) * lh + (k * lw) * (lw - lh);
        MulPositive(k, lw);
        MulPositive(k * lw, lw - lh);
      }
    }
  }

  lemma MulPositive(a: nat, b: nat)
    requires a > 0 && b > 0
    ensures a * b > 0
  {
  }

  /** The V3 anchor offset as a function of the output and the number of anchors, before conversion to int. */
  function AnchorOffsetV3(outputs: int, iout: int, lnum: int): int {
    (outputs - 1) * (lnum * (outputs - 1 - iout))
  }

  function AnchorOffsetV4(iout: int, lnum: int): int {
    lnum * 2 * iout
  }

  lemma SwapDifference(m: int, l: int, i: int)
    ensures m * (l * (m - i)) - m * (i * (m - l)) == m * m * (l - i)
  {
    var a, b := l * (m - i), i * (m - l);
    assert a == l * m - l * i && b == i * m - i * l && m * (l - i) == m * l - m * i;
    assert a - b == m * (l - i);
    assert m * a - m * b == m * (a - b);
    assert m * (m * (l - i)) == m * m * (l - i);
  }

  lemma SquareTimesIsNotZero(m: int, d: int)
    requires m != 0 && d != 0
    ensures m * m * d != 0
  {
    assert m * m > 0;
  }

  /** The decoder passes the two arguments in the opposite order.  For V4 that makes no difference; for V3 the
      offset is the one meant only with a single output, or for the output whose number is `lnum`. */
  lemma AnchorArgumentsSwapped(outputs: int, iout: int, lnum: int)
    ensures AnchorOffsetV4(lnum, iout) == AnchorOffsetV4(iout, lnum)
    ensures AnchorOffsetV3(outputs, lnum, iout) == AnchorOffsetV3(outputs, iout, lnum) <==> outputs == 1 || iout == lnum
  {
    SwapDifference(outputs - 1, lnum, iout);
    if outputs != 1 && iout != lnum {
      SquareTimesIsNotZero(outputs - 1, lnum - iout);
    }
  }

  /** What the decoder gets for output `iout` of a V3 network. */
  function AnchorOffsetUsed(outputs: int, iout: int, lnum: int): int {
    AnchorOffsetV3(outputs, lnum, iout)
  }

  lemma SignOfProduct(a: int, b: int, c: int)
    requires a > 0 && b > 0
    ensures a * (b * c) >= 0 <==> c >= 0
  {
    if c < 0 {
      assert b * -c > 0;
      assert a * (b * -c) > 0;
    }
  }

  /** It is not negative exactly when there is one output, or it is the first, or there are more outputs than
      anchors each. */
  lemma UsedOffsetNotNegative(outputs: int, iout: int, lnum: int)
    requires 0 <= iout < outputs && lnum >= 1
    ensures AnchorOffsetUsed(outputs, iout, lnum) >= 0 <==> outputs == 1 || iout == 0 || lnum <= outputs - 1
  {
    if outputs > 1 && iout > 0 {
      SignOfProduct(outputs - 1, iout, outputs - 1 - lnum);
    }
  }

  lemma UsedOffsetGrows(outputs: int, iout: int, lnum: int)
    requires 0 <= iout < outputs && 1 <= lnum <= outputs - 1
    ensures 0 <= AnchorOffsetUsed(outputs, iout, lnum) <= AnchorOffsetUsed(outputs, outputs - 1, lnum)
  {
    var m, d: nat := outputs - 1, outputs - 1 - lnum;
    MulMonotone(iout, m, d);
    MulMonotone(iout * d, m * d, m);
    Swap(m, iout * d);
    Swap(m, m * d);
  }

  lemma Swap(a: int, b: int)
    ensures a * b == b * a
  {
  }

  /** With this many anchors, no V3 output reads outside them exactly when there is one output and room for its
      anchors, or more outputs than anchors each and room for the last output's. */
  lemma UsedOffsetsInside(outputs: int, lnum: int, size: int)
    requires outputs >= 1 && lnum >= 1
    ensures (forall iout | 0 <= iout < outputs :: 0 <= AnchorOffsetUsed(outputs, iout, lnum) <= size - 2 * lnum) <==>
            if outputs == 1 then 2 * lnum <= size
            else lnum <= outputs - 1 && AnchorOffsetUsed(outputs, outputs - 1, lnum) + 2 * lnum <= size
  {
    if outputs == 1 {
      assert AnchorOffsetUsed(outputs, 0, lnum) == 0;
    } else {
      UsedOffsetNotNegative(outputs, outputs - 1, lnum);
      if lnum <= outputs - 1 {
        forall iout | 0 <= iout < outputs {
          UsedOffsetGrows(outputs, iout, lnum);
        }
      }
    }
  }

  /** Three outputs with three anchors each, as the tool has them by default: the second output reads before its
      anchors, where the offset meant would be inside 18 of them. */
  lemma DefaultNetworkReadsBeforeAnchors()
    ensures AnchorOffsetUsed(3, 1, 3) == -2 && AnchorOffsetUsed(3, 2, 3) == -4
    ensures forall iout | 0 <= iout < 3 :: 0 <= AnchorOffsetV3(3, iout, 3) <= 18 - 2 * 3
  {
  }

  /** V4 offsets are inside exactly when there are two numbers for every anchor of every output. */
  lemma V4OffsetsInside(outputs: int, lnum: int, size: int)
    requires outputs >= 1 && lnum >= 1
    ensures (forall iout | 0 <= iout < outputs :: 0 <= AnchorOffsetV4(lnum, iout) <= size - 2 * lnum) <==>
            2 * lnum * outputs <= size
  {
    forall iout | 0 <= iout < outputs ensures 0 <= AnchorOffsetV4(lnum, iout) <= 2 * lnum * (outputs - 1) {
      MulMonotone(iout, outputs - 1, 2 * lnum);
    }
    assert AnchorOffsetV4(lnum, outputs - 1) == 2 * lnum * (outputs - 1) == 2 * lnum * outputs - 2 * lnum;
  }
}
