/** Greedy non-maximum suppression of detection boxes, one class column at a time. */
module Suppression {

  datatype Box = Box(x: real, y: real, w: real, h: real)

  // ---- overlap of two boxes ----

  function Overlap(x1: real, w1: real, x2: real, w2: real): real {
    var l1, l2 := x1 - w1 / 2.0, x2 - w2 / 2.0;
    var r1, r2 := x1 + w1 / 2.0, x2 + w2 / 2.0;
    (if r1 < r2 then r1 else r2) - (if l1 > l2 then l1 else l2)
  }

  function Intersection(a: Box, b: Box): real {
    var w, h := Overlap(a.x, a.w, b.x, b.w), Overlap(a.y, a.h, b.y, b.h);
    if w < 0.0 || h < 0.0 then 0.0 else w * h
  }

  function Union(a: Box, b: Box): real {
    a.w * a.h + b.w * b.h - Intersection(a, b)
  }

  /** Intersection over union is above `thresh`.  In the floating-point original a zero union gives infinity
      for a positive intersection, which is above every threshold, and otherwise no number, which is above none. */
  predicate Exceeds(a: Box, b: Box, thresh: real) {
    if Union(a, b) == 0.0 then Intersection(a, b) > 0.0 else Intersection(a, b) / Union(a, b) > thresh
  }

  /** Point `p` is in the interval of length `w` around `x`. */
  predicate Within(p: real, x: real, w: real) {
    x - w / 2.0 <= p && p <= x + w / 2.0
  }

  predicate Inside(b: Box, px: real, py: real) {
    Within(px, b.x, b.w) && Within(py, b.y, b.h)
  }

  /** `c` is what the two boxes have in common. */
  ghost predicate IsCommon(a: Box, b: Box, c: Box) {
    forall px, py :: Inside(c, px, py) <==> Inside(a, px, py) && Inside(b, px, py)
  }

  ghost predicate Meet(a: Box, b: Box) {
    exists px, py :: Inside(a, px, py) && Inside(b, px, py)
  }

  function Area(b: Box): real { b.w * b.h }

  /** The common part of two intervals: where it is, and how long, when there is one. */
  lemma OverlapIsCommonLength(x1: real, w1: real, x2: real, w2: real) returns (x: real)
    ensures forall p :: Within(p, x1, w1) && Within(p, x2, w2) <==> Within(p, x, Overlap(x1, w1, x2, w2))
    ensures Overlap(x1, w1, x2, w2) >= 0.0 ==> Within(x, x1, w1) && Within(x, x2, w2)
  {
    var left := if x1 - w1 / 2.0 > x2 - w2 / 2.0 then x1 - w1 / 2.0 else x2 - w2 / 2.0;
    x := left + Overlap(x1, w1, x2, w2) / 2.0;
    assert Within(x, x, Overlap(x1, w1, x2, w2)) <==> Overlap(x1, w1, x2, w2) >= 0.0;
  }

  lemma CommonRectangle(a: Box, b: Box) returns (c: Box)
    ensures IsCommon(a, b, c)
    ensures c.w == Overlap(a.x, a.w, b.x, b.w) && c.h == Overlap(a.y, a.h, b.y, b.h)
  {
    var x := OverlapIsCommonLength(a.x, a.w, b.x, b.w);
    var y := OverlapIsCommonLength(a.y, a.h, b.y, b.h);
    c := Box(x, y, Overlap(a.x, a.w, b.x, b.w), Overlap(a.y, a.h, b.y, b.h));
    forall px, py ensures Inside(c, px, py) <==> Inside(a, px, py) && Inside(b, px, py) {
    }
  }

  predicate HasSides(b: Box) { b.w >= 0.0 && b.h >= 0.0 }

  lemma MeetInCommon(a: Box, b: Box, c: Box)
    requires IsCommon(a, b, c)
    ensures Meet(a, b) <==> HasSides(c)
  {
    if HasSides(c) {
      assert Inside(c, c.x, c.y);
    } else {
      assert forall px, py :: !Inside(c, px, py);
    }
  }

  /** Two boxes meet exactly when their common rectangle has sides, and its area is then their intersection;
      boxes that do not meet have none. */
  lemma IntersectionIsCommonArea(a: Box, b: Box) returns (c: Box)
    ensures IsCommon(a, b, c)
    ensures Meet(a, b) <==> HasSides(c)
    ensures Intersection(a, b) == if Meet(a, b) then Area(c) else 0.0
  {
    c := CommonRectangle(a, b);
    MeetInCommon(a, b, c);
  }

  lemma OverlapFits(x1: real, w1: real, x2: real, w2: real)
    ensures Overlap(x1, w1, x2, w2) <= w1 && Overlap(x1, w1, x2, w2) <= w2
  {
  }

  lemma ProductInOrder(a: real, b: real, c: real, d: real)
    requires 0.0 <= a <= b && 0.0 <= c <= d
    ensures 0.0 <= a * c <= b * d
  {
    assert b * d - a * c == (b - a) * d + a * (d - c);
  }

  lemma IntersectionFits(a: Box, b: Box)
    requires HasSides(a) && HasSides(b)
    ensures 0.0 <= Intersection(a, b) <= Area(a)
  {
    var w, h := Overlap(a.x, a.w, b.x, b.w), Overlap(a.y, a.h, b.y, b.h);
    OverlapFits(a.x, a.w, b.x, b.w);
    OverlapFits(a.y, a.h, b.y, b.h);
    ProductInOrder(if w < 0.0 then 0.0 else w, a.w, if h < 0.0 then 0.0 else h, a.h);
  }

  /** Intersection and union together are both areas, and boxes with sides have no more in common than in all. */
  lemma UnionCompletesIntersection(a: Box, b: Box)
    ensures Intersection(a, b) + Union(a, b) == Area(a) + Area(b)
    ensures HasSides(a) && HasSides(b) ==> 0.0 <= Intersection(a, b) <= Union(a, b)
  {
    if HasSides(a) && HasSides(b) {
      IntersectionFits(a, b);
      IntersectionFits(b, a);
      IntersectionIsSymmetric(a, b);
    }
  }

  /** The test without the quotient. */
  lemma ExceedsExactly(a: Box, b: Box, thresh: real)
    ensures var common, all := Intersection(a, b), Union(a, b);
            Exceeds(a, b, thresh) <==>
            (all > 0.0 && common > thresh * all) || (all < 0.0 && common < thresh * all) || (all == 0.0 && common > 0.0)
  {
    var common, all := Intersection(a, b), Union(a, b);
    if all != 0.0 {
      var share := common / all;
      assert common == share * all;
      assert common - thresh * all == (share - thresh) * all;
    }
  }

  /** A box exceeds with itself exactly the thresholds below 1. */
  lemma ExceedsItself(a: Box, thresh: real)
    requires a.w > 0.0 && a.h > 0.0
    ensures Exceeds(a, a, thresh) <==> thresh < 1.0
  {
    var area := Area(a);
    assert Overlap(a.x, a.w, a.x, a.w) == a.w && Overlap(a.y, a.h, a.y, a.h) == a.h;
    assert Intersection(a, a) == area && Union(a, a) == area > 0.0;
    assert area / area == 1.0;
  }

  /** Boxes that do not meet exceed no threshold from 0 on. */
  lemma ApartExceedsNone(a: Box, b: Box, thresh: real)
    requires HasSides(a) && HasSides(b) && !Meet(a, b) && thresh >= 0.0
    ensures !Exceeds(a, b, thresh)
  {
    var c := IntersectionIsCommonArea(a, b);
    UnionCompletesIntersection(a, b);
    if Union(a, b) != 0.0 {
      assert 0.0 / Union(a, b) == 0.0;
    }
  }

  /** Two unit boxes side by side, 0.3 apart, have 0.7 in common of 1.3 in all. */
  lemma ShiftedBoxes()
    ensures forall thresh :: Exceeds(Box(0.0, 0.0, 1.0, 1.0), Box(0.3, 0.0, 1.0, 1.0), thresh) <==> thresh < 0.7 / 1.3
  {
    var a, b := Box(0.0, 0.0, 1.0, 1.0), Box(0.3, 0.0, 1.0, 1.0);
    assert Overlap(0.0, 1.0, 0.3, 1.0) == 0.7 && Overlap(0.0, 1.0, 0.0, 1.0) == 1.0;
    assert Intersection(a, b) == 0.7 && Union(a, b) == 1.3;
  }

  lemma ExceedsIsSymmetric(a: Box, b: Box, thresh: real)
    ensures Exceeds(a, b, thresh) <==> Exceeds(b, a, thresh)
  {
    IntersectionIsSymmetric(a, b);
    UnionIsSymmetric(a, b);
  }

  lemma OverlapIsSymmetric(x1: real, w1: real, x2: real, w2: real)
    ensures Overlap(x1, w1, x2, w2) == Overlap(x2, w2, x1, w1)
  {
  }

  lemma IntersectionIsSymmetric(a: Box, b: Box)
    ensures Intersection(a, b) == Intersection(b, a)
  {
    OverlapIsSymmetric(a.x, a.w, b.x, b.w);
    OverlapIsSymmetric(a.y, a.h, b.y, b.h);
  }

  lemma UnionIsSymmetric(a: Box, b: Box)
    ensures Union(a, b) == Union(b, a)
  {
    IntersectionIsSymmetric(a, b);
  }

  // ---- what suppression means for one column of scores ----

  /** Scores are kept or zeroed; survivors do not overlap beyond the threshold; and whatever was zeroed overlaps
      a survivor that scored at least as high. */
  ghost predicate Suppresses(boxes: seq<Box>, thresh: real, before: seq<real>, after: seq<real>) {
    && |before| == |after| <= |boxes|
    && (forall r | 0 <= r < |after| :: after[r] == before[r] || after[r] == 0.0)
    && (forall r, s | 0 <= r < |after| && 0 <= s < |after| && r != s && after[r] != 0.0 && after[s] != 0.0 ::
          !Exceeds(boxes[r], boxes[s], thresh))
    && (forall r | 0 <= r < |after| && before[r] != 0.0 && after[r] == 0.0 ::
          exists s :: 0 <= s < |after|
            && after[s] != 0.0 && before[s] >= before[r] && Exceeds(boxes[s], boxes[r], thresh))
  }

  /** Suppressing again changes nothing. */
  lemma SuppressionIsIdempotent(boxes: seq<Box>, thresh: real, before: seq<real>, once: seq<real>, twice: seq<real>)
    requires Suppresses(boxes, thresh, before, once) && Suppresses(boxes, thresh, once, twice)
    ensures twice == once
  {
    assert forall r | 0 <= r < |once| :: twice[r] == once[r];
  }

  ghost function Higher(before: seq<real>, r: nat): set<int>
    requires r < |before|
  {
    set s | 0 <= s < |before| && before[s] > before[r]
  }

  /** When no two non-zero scores are equal the outcome is determined: the order in which an unstable sort
      leaves anything else cannot show. */
  lemma {:induction false} OutcomeIsUnique(
      boxes: seq<Box>, thresh: real, before: seq<real>, a: seq<real>, b: seq<real>, r: nat)
    requires Suppresses(boxes, thresh, before, a) && Suppresses(boxes, thresh, before, b) && r < |before|
    requires forall i, j | 0 <= i < j < |before| && before[i] != 0.0 && before[j] != 0.0 :: before[i] != before[j]
    ensures a[r] == b[r]
    decreases Higher(before, r)
  {
    if a[r] != b[r] {
      var zeroed := if a[r] == 0.0 then a else b;
      var s: nat :| s < |zeroed| && zeroed[s] != 0.0 && before[s] >= before[r] && Exceeds(boxes[s], boxes[r], thresh);
      assert s != r && before[s] > before[r];
      assert s in Higher(before, r) && s !in Higher(before, s);
      OutcomeIsUnique(boxes, thresh, before, a, b, s);
    }
  }

  // ---- sorting ----

  predicate Placed(order: seq<nat>, r: nat) {
    exists p: nat :: p < |order| && order[p] == r
  }

  predicate RowsOnce(order: seq<nat>, n: nat) {
    (forall p | 0 <= p < |order| :: order[p] < n) && (forall p, q | 0 <= p < q < |order| :: order[p] != order[q])
  }

  /** A listing of the rows 0 .. n-1, each once. */
  ghost predicate IsOrder(order: seq<nat>, n: nat) {
    |order| == n && RowsOnce(order, n) && forall r: nat | r < n :: Placed(order, r)
  }

  predicate Descending(order: seq<nat>, score: seq<real>)
    requires RowsOnce(order, |score|)
  {
    forall p, q | 0 <= p < q < |order| :: score[order[p]] >= score[order[q]]
  }

  method InsertByScore(sorted: seq<nat>, score: seq<real>, row: nat) returns (r: seq<nat>)
    requires RowsOnce(sorted, |score|) && Descending(sorted, score) && row < |score| && !Placed(sorted, row)
    ensures RowsOnce(r, |score|) && Descending(r, score) && |r| == |sorted| + 1
    ensures forall x: nat :: Placed(r, x) <==> Placed(sorted, x) || x == row
  {
    var at := 0;
    while at < |sorted| && score[sorted[at]] >= score[row]
      invariant at <= |sorted|
      invariant forall p | 0 <= p < at :: score[sorted[p]] >= score[row]
    {
      at := at + 1;
    }
    InsertedRows(sorted, at, row);
    InsertedOnce(sorted, |score|, at, row);
    InsertedInOrder(sorted, score, at, row);
    r := sorted[..at] + [row] + sorted[at..];
  }

  lemma InsertedRows(sorted: seq<nat>, at: nat, row: nat)
    requires at <= |sorted|
    ensures forall x: nat :: Placed(sorted[..at] + [row] + sorted[at..], x) <==> Placed(sorted, x) || x == row
  {
    var r := sorted[..at] + [row] + sorted[at..];
    assert r[at] == row;
    forall x: nat ensures Placed(r, x) <==> Placed(sorted, x) || x == row {
      if p: nat :| p < |sorted| && sorted[p] == x {
        assert r[if p < at then p else p + 1] == x;
      }
    }
  }

  lemma InsertedOnce(sorted: seq<nat>, n: nat, at: nat, row: nat)
    requires RowsOnce(sorted, n) && row < n && !Placed(sorted, row) && at <= |sorted|
    ensures RowsOnce(sorted[..at] + [row] + sorted[at..], n)
  {
    forall p | 0 <= p < |sorted| ensures sorted[p] != row {
      assert Placed(sorted, sorted[p]);
    }
  }

  lemma InsertedInOrder(sorted: seq<nat>, score: seq<real>, at: nat, row: nat)
    requires RowsOnce(sorted, |score|) && Descending(sorted, score) && row < |score| && at <= |sorted|
    requires forall p | 0 <= p < at :: score[sorted[p]] >= score[row]
    requires at < |sorted| ==> score[sorted[at]] < score[row]
    requires RowsOnce(sorted[..at] + [row] + sorted[at..], |score|)
    ensures Descending(sorted[..at] + [row] + sorted[at..], score)
  {
    assert forall p | at <= p < |sorted| :: score[row] >= score[sorted[p]];
  }

  /** A sort by descending score.  Its contract leaves the order of equal scores open. */
  method SortByScore(start: seq<nat>, score: seq<real>) returns (order: seq<nat>)
    requires IsOrder(start, |score|)
    ensures IsOrder(order, |score|) && Descending(order, score)
  {
    order := [];
    for i := 0 to |start|
      invariant |order| == i && RowsOnce(order, |score|) && Descending(order, score)
      invariant forall x: nat :: Placed(order, x) <==> Placed(start[..i], x)
    {
      assert !Placed(start[..i], start[i]);
      assert forall x: nat :: Placed(start[..i + 1], x) <==> Placed(start[..i], x) || x == start[i] by {
        assert start[..i + 1][i] == start[i];
        assert forall p | 0 <= p < i :: start[..i + 1][p] == start[..i][p];
      }
      order := InsertByScore(order, score, start[i]);
    }
    assert start[..|start|] == start;
  }

  // ---- the greedy sweep ----

  /** The pair of positions (a, b) has been compared once the sweep stands at (i, j). */
  predicate Compared(a: nat, b: nat, i: nat, j: nat) {
    a < b && (a < i || (a == i && b < j))
  }

  ghost predicate Dominated(boxes: seq<Box>, thresh: real, order: seq<nat>, cur: seq<real>, i: nat, j: nat, b: nat)
    requires IsOrder(order, |cur|) && |cur| <= |boxes| && b < |cur|
  {
    exists a: nat :: Compared(a, b, i, j) && cur[order[a]] != 0.0 && Exceeds(boxes[order[a]], boxes[order[b]], thresh)
  }

  ghost predicate Swept(
      boxes: seq<Box>, thresh: real, order: seq<nat>, before: seq<real>, cur: seq<real>, i: nat, j: nat)
    requires IsOrder(order, |cur|) && |before| == |cur| <= |boxes|
  {
    && (forall r | 0 <= r < |cur| :: cur[r] == before[r] || cur[r] == 0.0)
    && (forall a: nat, b: nat | b < |cur| && Compared(a, b, i, j) ::
          cur[order[a]] == 0.0 || cur[order[b]] == 0.0 || !Exceeds(boxes[order[a]], boxes[order[b]], thresh))
    && (forall b: nat | b < |cur| && before[order[b]] != 0.0 && cur[order[b]] == 0.0 ::
          Dominated(boxes, thresh, order, cur, i, j, b))
  }

  /** One comparison of a live box with a later one. */
  lemma ComparisonKeepsSwept(boxes: seq<Box>, thresh: real, order: seq<nat>, before: seq<real>, cur: seq<real>,
                             i: nat, j: nat, next: seq<real>)
    requires IsOrder(order, |cur|) && |before| == |cur| <= |boxes| && Swept(boxes, thresh, order, before, cur, i, j)
    requires i < j < |cur| && cur[order[i]] != 0.0
    requires next == if Exceeds(boxes[order[i]], boxes[order[j]], thresh) then cur[order[j] := 0.0] else cur
    ensures Swept(boxes, thresh, order, before, next, i, j + 1) && next[order[i]] != 0.0
  {
    forall b: nat | b < |cur| && before[order[b]] != 0.0 && next[order[b]] == 0.0
      ensures Dominated(boxes, thresh, order, next, i, j + 1, b)
    {
      if b == j && Exceeds(boxes[order[i]], boxes[order[j]], thresh) {
        assert Compared(i, b, i, j + 1);
      } else {
        var a: nat :| Compared(a, b, i, j) && cur[order[a]] != 0.0 && Exceeds(boxes[order[a]], boxes[order[b]], thresh);
        assert Compared(a, b, i, j + 1) && a != j;
      }
    }
  }

  lemma NextRowKeepsSwept(
      boxes: seq<Box>, thresh: real, order: seq<nat>, before: seq<real>, cur: seq<real>, i: nat, j: nat)
    requires IsOrder(order, |cur|) && |before| == |cur| <= |boxes| && Swept(boxes, thresh, order, before, cur, i, j)
    requires i < |cur| && (j == |cur| || (j == i + 1 && cur[order[i]] == 0.0))
    ensures Swept(boxes, thresh, order, before, cur, i + 1, i + 2)
  {
    forall b: nat | b < |cur| && before[order[b]] != 0.0 && cur[order[b]] == 0.0
      ensures Dominated(boxes, thresh, order, cur, i + 1, i + 2, b)
    {
      var a: nat :| Compared(a, b, i, j) && cur[order[a]] != 0.0 && Exceeds(boxes[order[a]], boxes[order[b]], thresh);
      assert Compared(a, b, i + 1, i + 2);
    }
  }

  lemma SweptSuppresses(boxes: seq<Box>, thresh: real, order: seq<nat>, before: seq<real>, cur: seq<real>, i: nat)
    requires IsOrder(order, |cur|) && |before| == |cur| <= |boxes| && Swept(boxes, thresh, order, before, cur, i, i + 1)
    requires i == |cur| && Descending(order, before)
    ensures Suppresses(boxes, thresh, before, cur)
  {
    forall r: nat, s: nat | r < |cur| && s < |cur| && r != s && cur[r] != 0.0 && cur[s] != 0.0
      ensures !Exceeds(boxes[r], boxes[s], thresh)
    {
      assert Placed(order, r) && Placed(order, s);
      var p: nat :| p < |order| && order[p] == r;
      var q: nat :| q < |order| && order[q] == s;
      assert if p < q then Compared(p, q, i, i + 1) else Compared(q, p, i, i + 1);
      ExceedsIsSymmetric(boxes[r], boxes[s], thresh);
    }
    forall r: nat | r < |cur| && before[r] != 0.0 && cur[r] == 0.0
      ensures exists s ::
                0 <= s < |cur| && cur[s] != 0.0 && before[s] >= before[r] && Exceeds(boxes[s], boxes[r], thresh)
    {
      assert Placed(order, r);
      var b: nat :| b < |order| && order[b] == r;
      assert Dominated(boxes, thresh, order, cur, i, i + 1, b);
      var a: nat :| Compared(a, b, i, i + 1)
                    && cur[order[a]] != 0.0 && Exceeds(boxes[order[a]], boxes[order[b]], thresh);
      assert before[order[a]] >= before[order[b]];
    }
  }

  function Column(probs: array2<real>, k: nat): (c: seq<real>)
    requires k < probs.Length1
    reads probs
    ensures |c| == probs.Length0 && forall r | 0 <= r < |c| :: c[r] == probs[r, k]
  {
    seq(probs.Length0, r requires 0 <= r < probs.Length0 reads probs => probs[r, k])
  }

  twostate predicate OtherColumnsUnchanged(probs: array2<real>, k: nat)
    reads probs
  {
    forall r, c | 0 <= r < probs.Length0 && 0 <= c < probs.Length1 && c != k :: probs[r, c] == old(probs[r, c])
  }

  predicate Live(probs: array2<real>, order: seq<nat>, k: nat, i: nat)
    requires k < probs.Length1 && i < |order| && order[i] < probs.Length0
    reads probs
  {
    probs[order[i], k] != 0.0
  }

  /** Zeroes the box at position `j` if the live one at position `i` overlaps it. */
  method SuppressOne(boxes: seq<Box>, probs: array2<real>, order: seq<nat>, k: nat, thresh: real, i: nat, j: nat,
                     ghost before: seq<real>)
    requires k < probs.Length1 && i < j < probs.Length0 == |before| <= |boxes| && IsOrder(order, probs.Length0)
    requires Swept(boxes, thresh, order, before, Column(probs, k), i, j) && Live(probs, order, k, i)
    modifies probs
    ensures Swept(boxes, thresh, order, before, Column(probs, k), i, j + 1) && Live(probs, order, k, i)
    ensures OtherColumnsUnchanged(probs, k)
  {
    ghost var cur := Column(probs, k);
    if Exceeds(boxes[order[i]], boxes[order[j]], thresh) {
      probs[order[j], k] := 0.0;
      assert Column(probs, k) == cur[order[j] := 0.0];
    }
    ComparisonKeepsSwept(boxes, thresh, order, before, cur, i, j, Column(probs, k));
  }

  /** Zeroes every later box that overlaps the live box at position `i`. */
  method SuppressBy(
      boxes: seq<Box>, probs: array2<real>, order: seq<nat>, k: nat, thresh: real, i: nat, ghost before: seq<real>)
    requires k < probs.Length1 && i < probs.Length0 == |before| <= |boxes| && IsOrder(order, probs.Length0)
    requires Swept(boxes, thresh, order, before, Column(probs, k), i, i + 1) && Live(probs, order, k, i)
    modifies probs
    ensures Swept(boxes, thresh, order, before, Column(probs, k), i, probs.Length0)
    ensures OtherColumnsUnchanged(probs, k)
  {
    for j := i + 1 to probs.Length0
      invariant Swept(boxes, thresh, order, before, Column(probs, k), i, j)
      invariant Live(probs, order, k, i)
      invariant OtherColumnsUnchanged(probs, k)
    {
      SuppressOne(boxes, probs, order, k, thresh, i, j, before);
    }
  }

  /** Suppresses what the box at position `i` suppresses, if it has a score. */
  method SuppressRow(
      boxes: seq<Box>, probs: array2<real>, order: seq<nat>, k: nat, thresh: real, i: nat, ghost before: seq<real>)
    requires k < probs.Length1 && i < probs.Length0 == |before| <= |boxes| && IsOrder(order, probs.Length0)
    requires Swept(boxes, thresh, order, before, Column(probs, k), i, i + 1)
    modifies probs
    ensures Swept(boxes, thresh, order, before, Column(probs, k), i + 1, i + 2)
    ensures OtherColumnsUnchanged(probs, k)
  {
    var live := probs[order[i], k] != 0.0;
    if live {
      SuppressBy(boxes, probs, order, k, thresh, i, before);
    }
    NextRowKeepsSwept(boxes, thresh, order, before, Column(probs, k), i, if live then probs.Length0 else i + 1);
  }

  method SweepClass(
      boxes: seq<Box>, probs: array2<real>, order: seq<nat>, k: nat, thresh: real, ghost before: seq<real>)
    requires k < probs.Length1 && probs.Length0 <= |boxes|
    requires IsOrder(order, probs.Length0) && before == Column(probs, k)
    modifies probs
    ensures Swept(boxes, thresh, order, before, Column(probs, k), probs.Length0, probs.Length0 + 1)
    ensures OtherColumnsUnchanged(probs, k)
  {
    for i := 0 to probs.Length0
      invariant Swept(boxes, thresh, order, before, Column(probs, k), i, i + 1)
      invariant OtherColumnsUnchanged(probs, k)
    {
      SuppressRow(boxes, probs, order, k, thresh, i, before);
    }
  }

  /** The body of the loop over classes, after sorting. */
  method SuppressClass(boxes: seq<Box>, probs: array2<real>, order: seq<nat>, k: nat, thresh: real)
    requires k < probs.Length1 && probs.Length0 <= |boxes|
    requires IsOrder(order, probs.Length0) && Descending(order, Column(probs, k))
    modifies probs
    ensures Suppresses(boxes, thresh, old(Column(probs, k)), Column(probs, k))
    ensures OtherColumnsUnchanged(probs, k)
  {
    ghost var before := Column(probs, k);
    SweepClass(boxes, probs, order, k, thresh, before);
    SweptSuppresses(boxes, thresh, order, before, Column(probs, k), probs.Length0);
  }

  method Snapshot(probs: array2<real>, classes: nat) returns (snapshot: seq<seq<real>>)
    requires classes <= probs.Length1
    ensures |snapshot| == classes && forall c: nat | c < classes :: snapshot[c] == Column(probs, c)
  {
    snapshot := [];
    for k := 0 to classes
      invariant |snapshot| == k && forall c: nat | c < k :: snapshot[c] == Column(probs, c)
    {
      snapshot := snapshot + [Column(probs, k)];
    }
  }

  method Positions(n: nat) returns (order: seq<nat>)
    ensures IsOrder(order, n)
  {
    order := [];
    for i := 0 to n
      invariant |order| == i && forall p: nat | p < i :: order[p] == p
    {
      order := order + [i];
    }
    assert forall r: nat | r < n :: order[r] == r && Placed(order, r);
  }

  /** Suppresses each of the first `classes` columns of `probs` and leaves the rest alone.  Sorting looks at a
      copy of the scores taken before the first class. */
  method DoNonMaximumSuppressionSort(boxes: seq<Box>, probs: array2<real>, classes: nat, thresh: real)
    requires classes <= probs.Length1 && probs.Length0 <= |boxes|
    modifies probs
    ensures forall k: nat | k < classes :: Suppresses(boxes, thresh, old(Column(probs, k)), Column(probs, k))
    ensures forall k: nat | classes <= k < probs.Length1 :: Column(probs, k) == old(Column(probs, k))
  {
    var snapshot := Snapshot(probs, classes);
    var order := Positions(probs.Length0);
    ghost var initial := Columns(probs);
    for k := 0 to classes
      invariant IsOrder(order, probs.Length0) && SuppressedBefore(boxes, thresh, probs, initial, k)
    {
      order := SuppressColumn(boxes, probs, order, snapshot[k], k, thresh, initial);
    }
  }

  ghost function Columns(probs: array2<real>): (initial: seq<seq<real>>)
    reads probs
    ensures |initial| == probs.Length1 && forall k: nat | k < |initial| :: initial[k] == Column(probs, k)
  {
    seq(probs.Length1, k requires 0 <= k < probs.Length1 reads probs => Column(probs, k))
  }

  /** The first `k` columns have been suppressed, and the others are as they were. */
  ghost predicate SuppressedBefore(boxes: seq<Box>, thresh: real, probs: array2<real>, initial: seq<seq<real>>, k: nat)
    reads probs
  {
    && |initial| == probs.Length1
    && (forall c: nat | c < k && c < |initial| :: Suppresses(boxes, thresh, initial[c], Column(probs, c)))
    && (forall c: nat | k <= c < |initial| :: Column(probs, c) == initial[c])
  }

  /** The body of the loop over classes. */
  method SuppressColumn(boxes: seq<Box>, probs: array2<real>, order: seq<nat>, scores: seq<real>, k: nat, thresh: real,
                        ghost initial: seq<seq<real>>)
    returns (next: seq<nat>)
    requires probs.Length0 <= |boxes| && IsOrder(order, probs.Length0)
    requires SuppressedBefore(boxes, thresh, probs, initial, k)
    requires k < |initial| && scores == initial[k]
    modifies probs
    ensures IsOrder(next, probs.Length0) && SuppressedBefore(boxes, thresh, probs, initial, k + 1)
  {
    next := SortByScore(order, scores);
    SuppressClass(boxes, probs, next, k, thresh);
    assert forall c: nat | c < probs.Length1 && c != k :: Column(probs, c) == old(Column(probs, c));
  }
}
