/** Scoring a semantic segmentation: intersection over union, class by class. */
module MeanIoU {
  import opened Wrappers

  /** The label that stands for "ignore nothing". */
  const NO_LABEL: nat := 0xFFFF_FFFF

  /** A pixel: its reference class and its actual class. */
  type Pixel = (nat, nat)

  datatype Scope = Scope(classes: nat, ignored: nat)

  predicate Scored(s: Scope, p: Pixel) {
    p.0 < s.classes && p.1 < s.classes && p.0 != s.ignored && p.1 != s.ignored
  }

  /** What is asked of a scored pixel. */
  datatype Query =
    | Cell(i: nat, j: nat)
    | Row(i: nat, below: nat)
    | Column(j: nat, below: nat)
    | InReference(i: nat)
    | InActual(i: nat)
    | InEither(i: nat)
    | RowsBelow(n: nat)
    | Anywhere

  predicate Hits(s: Scope, q: Query, p: Pixel) {
    && Scored(s, p)
    && match q
       case Cell(i, j) => p.0 == i && p.1 == j
       case Row(i, n) => p.0 == i && p.1 < n
       case Column(j, n) => p.1 == j && p.0 < n
       case InReference(i) => p.0 == i
       case InActual(i) => p.1 == i
       case InEither(i) => p.0 == i || p.1 == i
       case RowsBelow(n) => p.0 < n
       case Anywhere => true
  }

  function Count(px: seq<Pixel>, s: Scope, q: Query): (n: nat)
    ensures n <= |px|
  {
    if px == [] then 0 else
    Count(px[..|px| - 1], s, q) + if Hits(s, q, px[|px| - 1]) then 1 else 0
  }

  /** One pixel more counts nowhere if one of its classes is no class or the ignored one, and otherwise for its
      reference class, its actual class, and its pair of them. */
  lemma PixelCounts(px: seq<Pixel>, s: Scope, p: Pixel, i: nat)
    ensures var more := px + [p];
            var n := if p.0 < s.classes && p.1 < s.classes && s.ignored != p.0 && s.ignored != p.1 then 1 else 0;
            && Count(more, s, Anywhere) == Count(px, s, Anywhere) + n
            && Count(more, s, InReference(i)) == Count(px, s, InReference(i)) + (if p.0 == i then n else 0)
            && Count(more, s, InActual(i)) == Count(px, s, InActual(i)) + (if p.1 == i then n else 0)
            && Count(more, s, InEither(i)) == Count(px, s, InEither(i)) + (if p.0 == i || p.1 == i then n else 0)
            && Count(more, s, Cell(i, i)) == Count(px, s, Cell(i, i)) + (if p == (i, i) then n else 0)
  {
    assert (px + [p])[..|px|] == px;
  }

  /** A query that splits in two is counted in two parts. */
  lemma {:induction false} CountSplits(px: seq<Pixel>, s: Scope, whole: Query, left: Query, right: Query)
    requires forall p: Pixel :: Hits(s, whole, p) <==> Hits(s, left, p) || Hits(s, right, p)
    requires forall p: Pixel :: !(Hits(s, left, p) && Hits(s, right, p))
    ensures Count(px, s, whole) == Count(px, s, left) + Count(px, s, right)
  {
    if px != [] {
      CountSplits(px[..|px| - 1], s, whole, left, right);
    }
  }

  lemma {:induction false} CountSame(px: seq<Pixel>, s: Scope, q: Query, s': Scope, q': Query)
    requires forall p: Pixel :: Hits(s, q, p) <==> Hits(s', q', p)
    ensures Count(px, s, q) == Count(px, s', q')
  {
    if px != [] {
      CountSame(px[..|px| - 1], s, q, s', q');
    }
  }

  lemma {:induction false} CountNone(px: seq<Pixel>, s: Scope, q: Query)
    requires forall p: Pixel :: !Hits(s, q, p)
    ensures Count(px, s, q) == 0
  {
    if px != [] {
      CountNone(px[..|px| - 1], s, q);
    }
  }

  // ---- what the sums mean ----

  /** The cells of a row add up to the pixels of that reference class, and the cells of a column to the pixels of
      that actual class. */
  lemma SumsCountClasses(px: seq<Pixel>, s: Scope, i: nat)
    ensures CellsOfRow(px, s, i, s.classes) == Count(px, s, InReference(i))
    ensures CellsOfColumn(px, s, i, s.classes) == Count(px, s, InActual(i))
  {
    RowIsItsCells(px, s, i, s.classes);
    ColumnIsItsCells(px, s, i, s.classes);
    CountSame(px, s, Row(i, s.classes), s, InReference(i));
    CountSame(px, s, Column(i, s.classes), s, InActual(i));
  }

  /** All cells together count every scored pixel once. */
  lemma HistogramCountsScoredPixels(px: seq<Pixel>, s: Scope)
    ensures AllCells(px, s, s.classes) == Count(px, s, Anywhere)
  {
    AllRows(px, s, s.classes);
    CountSame(px, s, RowsBelow(s.classes), s, Anywhere);
  }

  function CellsOfRow(px: seq<Pixel>, s: Scope, i: nat, n: nat): nat {
    if n == 0 then 0 else CellsOfRow(px, s, i, n - 1) + Count(px, s, Cell(i, n - 1))
  }

  function CellsOfColumn(px: seq<Pixel>, s: Scope, j: nat, n: nat): nat {
    if n == 0 then 0 else CellsOfColumn(px, s, j, n - 1) + Count(px, s, Cell(n - 1, j))
  }

  function AllCells(px: seq<Pixel>, s: Scope, n: nat): nat {
    if n == 0 then 0 else AllCells(px, s, n - 1) + CellsOfRow(px, s, n - 1, s.classes)
  }

  lemma {:induction false} RowIsItsCells(px: seq<Pixel>, s: Scope, i: nat, n: nat)
    ensures CellsOfRow(px, s, i, n) == Count(px, s, Row(i, n))
  {
    if n == 0 {
      CountNone(px, s, Row(i, 0));
    } else {
      RowIsItsCells(px, s, i, n - 1);
      CountSplits(px, s, Row(i, n), Row(i, n - 1), Cell(i, n - 1));
    }
  }

  lemma {:induction false} ColumnIsItsCells(px: seq<Pixel>, s: Scope, j: nat, n: nat)
    ensures CellsOfColumn(px, s, j, n) == Count(px, s, Column(j, n))
  {
    if n == 0 {
      CountNone(px, s, Column(j, 0));
    } else {
      ColumnIsItsCells(px, s, j, n - 1);
      CountSplits(px, s, Column(j, n), Column(j, n - 1), Cell(n - 1, j));
    }
  }

  lemma {:induction false} AllRows(px: seq<Pixel>, s: Scope, n: nat)
    requires n <= s.classes
    ensures AllCells(px, s, n) == Count(px, s, RowsBelow(n))
  {
    if n == 0 {
      CountNone(px, s, RowsBelow(0));
    } else {
      AllRows(px, s, n - 1);
      SumsCountClasses(px, s, n - 1);
      CountSplits(px, s, RowsBelow(n), RowsBelow(n - 1), InReference(n - 1));
    }
  }

  /** Inclusion and exclusion: the union the program computes is the number of pixels in either class. */
  lemma {:induction false} UnionCountsEither(px: seq<Pixel>, s: Scope, i: nat)
    ensures Count(px, s, InReference(i)) + Count(px, s, InActual(i)) - Count(px, s, Cell(i, i))
            == Count(px, s, InEither(i))
    ensures Count(px, s, Cell(i, i)) <= Count(px, s, InEither(i))
  {
    if px != [] {
      UnionCountsEither(px[..|px| - 1], s, i);
    }
  }

  /** A class has as many pixels in both as in either exactly when no scored pixel gives it on one side only. */
  lemma {:induction false} FullScoreMeansAgreement(px: seq<Pixel>, s: Scope, i: nat)
    ensures Count(px, s, Cell(i, i)) == Count(px, s, InEither(i)) <==>
            forall k | 0 <= k < |px| && Hits(s, InEither(i), px[k]) :: px[k] == (i, i)
  {
    if px != [] {
      var before, last := px[..|px| - 1], px[|px| - 1];
      UnionCountsEither(before, s, i);
      FullScoreMeansAgreement(before, s, i);
      assert forall k | 0 <= k < |before| :: before[k] == px[k];
    }
  }

  // ---- the program ----

  function Zip(reference: seq<nat>, actual: seq<nat>): (px: seq<Pixel>)
    requires |reference| <= |actual|
    ensures |px| == |reference|
  {
    seq(|reference|, i requires 0 <= i < |reference| => (reference[i], actual[i]))
  }

  function Occurrences(output: seq<nat>, k: nat): nat {
    if output == [] then 0 else
    Occurrences(output[..|output| - 1], k) + if output[|output| - 1] == k then 1 else 0
  }

  lemma CodeIsInjective(classes: nat, r: nat, a: nat, i: nat, j: nat)
    requires a < classes && j < classes
    ensures classes * r + a == i * classes + j <==> r == i && a == j
    ensures r < classes ==> classes * r + a < classes * classes
  {
    if r < i {
      Ahead(classes, r, i);
    } else if i < r {
      Ahead(classes, i, r);
    }
    if r < classes {
      Ahead(classes, r, classes);
    }
  }

  lemma Ahead(classes: nat, low: nat, high: nat)
    requires low < high
    ensures classes * low + classes <= classes * high == high * classes
  {
    var gap: nat := high - low - 1;
    assert classes * high == classes * low + classes + classes * gap;
  }

  /** The codes are those of the first `n` pixels that name two classes. */
  predicate Encodes(output: seq<nat>, px: seq<Pixel>, classes: nat) {
    && (forall k | 0 <= k < |output| :: output[k] < classes * classes)
    && forall i, j | 0 <= i < classes && 0 <= j < classes ::
         Occurrences(output, Index(i, j, classes)) == Count(px, Scope(classes, NO_LABEL), Cell(i, j))
  }

  function Index(i: nat, j: nat, classes: nat): nat { i * classes + j }

  lemma EncodesNext(output: seq<nat>, px: seq<Pixel>, p: Pixel, classes: nat)
    requires Encodes(output, px, classes) && classes <= NO_LABEL
    ensures if p.0 < classes && p.1 < classes then Encodes(output + [classes * p.0 + p.1], px + [p], classes)
            else Encodes(output, px + [p], classes)
  {
    var scope := Scope(classes, NO_LABEL);
    assert (px + [p])[..|px|] == px;
    if p.0 < classes && p.1 < classes {
      var longer := output + [classes * p.0 + p.1];
      assert longer[..|output|] == output;
      CodeIsInjective(classes, p.0, p.1, p.0, p.1);
      forall i, j | 0 <= i < classes && 0 <= j < classes
        ensures Occurrences(longer, Index(i, j, classes)) == Count(px + [p], scope, Cell(i, j))
      {
        CodeIsInjective(classes, p.0, p.1, i, j);
      }
    } else {
      forall i, j | 0 <= i < classes && 0 <= j < classes
        ensures Count(px + [p], scope, Cell(i, j)) == Count(px, scope, Cell(i, j))
      {
      }
    }
  }

  method Encode(actual: seq<nat>, reference: seq<nat>, classes: nat) returns (output: seq<nat>)
    requires |reference| <= |actual| && classes <= NO_LABEL
    ensures Encodes(output, Zip(reference, actual), classes)
  {
    output := [];
    ghost var px := Zip(reference, actual);
    for i := 0 to |reference|
      invariant Encodes(output, px[..i], classes)
    {
      EncodesNext(output, px[..i], px[i], classes);
      assert px[..i + 1] == px[..i] + [px[i]];
      if reference[i] < classes && actual[i] < classes {
        output := output + [classes * reference[i] + actual[i]];
      }
    }
    assert px[..|reference|] == px;
  }

  method BinCount(output: seq<nat>, size: nat) returns (binC: array<int>)
    requires forall k | 0 <= k < |output| :: output[k] < size
    ensures fresh(binC) && binC.Length == size
    ensures forall k | 0 <= k < size :: binC[k] == Occurrences(output, k)
  {
    binC := new int[size](_ => 0);
    for i := 0 to |output|
      invariant forall k | 0 <= k < size :: binC[k] == Occurrences(output[..i], k)
    {
      assert output[..i + 1][..i] == output[..i];
      binC[output[i]] := binC[output[i]] + 1;
    }
    assert output[..|output|] == output;
  }

  /** The table of the pixels: row is reference, column is actual. */
  ghost predicate IsHistogram(hist: array2<int>, px: seq<Pixel>, s: Scope)
    reads hist
  {
    && hist.Length0 == s.classes && hist.Length1 == s.classes
    && forall i, j | 0 <= i < s.classes && 0 <= j < s.classes :: hist[i, j] == Count(px, s, Cell(i, j))
  }

  method Histogram(binC: array<int>, ghost output: seq<nat>, ghost px: seq<Pixel>, classes: nat)
      returns (hist: array2<int>)
    requires binC.Length == classes * classes && Encodes(output, px, classes)
    requires forall k | 0 <= k < binC.Length :: binC[k] == Occurrences(output, k)
    ensures fresh(hist) && IsHistogram(hist, px, Scope(classes, NO_LABEL))
  {
    hist := new int[classes, classes];
    ghost var s := Scope(classes, NO_LABEL);
    for i := 0 to classes
      invariant forall k, j | 0 <= k < i && 0 <= j < classes :: hist[k, j] == Count(px, s, Cell(k, j))
    {
      for j := 0 to classes
        invariant forall k, l | 0 <= k < i && 0 <= l < classes :: hist[k, l] == Count(px, s, Cell(k, l))
        invariant forall l | 0 <= l < j :: hist[i, l] == Count(px, s, Cell(i, l))
      {
        CodeIsInjective(classes, i, j, i, j);
        assert Occurrences(output, Index(i, j, classes)) == Count(px, s, Cell(i, j));
        hist[i, j] := binC[i * classes + j];
      }
    }
  }

  /** Clearing a row and a column takes the pixels of that class out of the table. */
  method Ignore(hist: array2<int>, ghost px: seq<Pixel>, classes: nat, ignored: nat)
    requires IsHistogram(hist, px, Scope(classes, NO_LABEL)) && ignored < classes <= NO_LABEL
    modifies hist
    ensures IsHistogram(hist, px, Scope(classes, ignored))
  {
    for i := 0 to classes
      invariant forall k, l | 0 <= k < classes && 0 <= l < classes ::
                  hist[k, l] ==
                    if (k < i && l == ignored) || (l < i && k == ignored) then 0
                    else Count(px, Scope(classes, NO_LABEL), Cell(k, l))
    {
      hist[i, ignored] := 0;
      hist[ignored, i] := 0;
    }
    forall k, l | 0 <= k < classes && 0 <= l < classes
      ensures hist[k, l] == Count(px, Scope(classes, ignored), Cell(k, l))
    {
      if k == ignored || l == ignored {
        CountNone(px, Scope(classes, ignored), Cell(k, l));
      } else {
        CountSame(px, Scope(classes, ignored), Cell(k, l), Scope(classes, NO_LABEL), Cell(k, l));
      }
    }
  }

  ghost predicate IsDiagonal(diagonal: array<real>, px: seq<Pixel>, s: Scope, n: nat)
    requires n <= diagonal.Length
    reads diagonal
  {
    forall k | 0 <= k < n :: diagonal[k] == Count(px, s, Cell(k, k)) as real
  }

  /** Column sums when the rows before `i`, and in row `i` the columns before `j`, have been added. */
  ghost predicate HasColumnSums(sum0: array<real>, px: seq<Pixel>, s: Scope, i: nat, j: nat)
    reads sum0
  {
    forall k | 0 <= k < sum0.Length :: sum0[k] == Count(px, s, Column(k, if k < j then i + 1 else i)) as real
  }

  /** Row sums when the rows before `i` have been added. */
  ghost predicate HasRowSums(sum1: array<real>, px: seq<Pixel>, s: Scope, i: nat)
    reads sum1
  {
    forall k | 0 <= k < sum1.Length :: sum1[k] == Count(px, s, Row(k, if k < i then s.classes else 0)) as real
  }

  method Sums(hist: array2<int>, ghost px: seq<Pixel>, ghost s: Scope)
    returns (diagonal: array<real>, sum0: array<real>, sum1: array<real>)
    requires IsHistogram(hist, px, s)
    ensures fresh(diagonal) && fresh(sum0) && fresh(sum1)
    ensures diagonal.Length == sum0.Length == sum1.Length == s.classes && IsDiagonal(diagonal, px, s, s.classes)
    ensures forall k | 0 <= k < s.classes :: sum0[k] == Count(px, s, InActual(k)) as real
    ensures forall k | 0 <= k < s.classes :: sum1[k] == Count(px, s, InReference(k)) as real
  {
    var classes := hist.Length0;
    diagonal := new real[classes](_ => 0.0);
    sum0 := new real[classes](_ => 0.0);
    sum1 := new real[classes](_ => 0.0);
    NothingBelowZero(px, s);
    for i := 0 to classes
      invariant IsDiagonal(diagonal, px, s, i)
      invariant HasColumnSums(sum0, px, s, i, 0) && HasRowSums(sum1, px, s, i)
    {
      AddRow(hist, px, s, i, diagonal, sum0, sum1);
    }
    FullSums(px, s);
  }

  lemma FullSums(px: seq<Pixel>, s: Scope)
    ensures forall k: nat :: Count(px, s, Column(k, s.classes)) == Count(px, s, InActual(k))
    ensures forall k: nat :: Count(px, s, Row(k, s.classes)) == Count(px, s, InReference(k))
  {
    forall k: nat
      ensures Count(px, s, Column(k, s.classes)) == Count(px, s, InActual(k))
      ensures Count(px, s, Row(k, s.classes)) == Count(px, s, InReference(k))
    {
      CountSame(px, s, Column(k, s.classes), s, InActual(k));
      CountSame(px, s, Row(k, s.classes), s, InReference(k));
    }
  }

  method AddRow(hist: array2<int>, ghost px: seq<Pixel>, ghost s: Scope, i: nat,
                diagonal: array<real>, sum0: array<real>, sum1: array<real>)
    requires IsHistogram(hist, px, s) && i < s.classes == diagonal.Length == sum0.Length == sum1.Length
    requires diagonal != sum0 && diagonal != sum1 && sum0 != sum1
    requires IsDiagonal(diagonal, px, s, i) && HasColumnSums(sum0, px, s, i, 0) && HasRowSums(sum1, px, s, i)
    modifies diagonal, sum0, sum1
    ensures IsDiagonal(diagonal, px, s, i + 1) && HasColumnSums(sum0, px, s, i + 1, 0) && HasRowSums(sum1, px, s, i + 1)
  {
    CountNone(px, s, Row(i, 0));
    for j := 0 to hist.Length1
      invariant IsDiagonal(diagonal, px, s, if i < j then i + 1 else i)
      invariant HasColumnSums(sum0, px, s, i, j)
      invariant forall k | 0 <= k < sum1.Length && k != i :: sum1[k] == old(sum1[k])
      invariant sum1[i] == Count(px, s, Row(i, j)) as real
    {
      if i == j {
        diagonal[i] := hist[i, j] as real;
      }
      AddCell(sum0, hist[i, j], px, s, i, j);
      CountSplits(px, s, Row(i, j + 1), Row(i, j), Cell(i, j));
      sum1[i] := sum1[i] + hist[i, j] as real;
    }
  }

  method AddCell(sum0: array<real>, cell: int, ghost px: seq<Pixel>, ghost s: Scope, ghost i: nat, j: nat)
    requires j < sum0.Length && cell == Count(px, s, Cell(i, j)) && HasColumnSums(sum0, px, s, i, j)
    modifies sum0
    ensures HasColumnSums(sum0, px, s, i, j + 1)
  {
    CountSplits(px, s, Column(j, i + 1), Column(j, i), Cell(i, j));
    sum0[j] := sum0[j] + cell as real;
  }

  lemma NothingBelowZero(px: seq<Pixel>, s: Scope)
    ensures forall k: nat :: Count(px, s, Column(k, 0)) == 0 && Count(px, s, Row(k, 0)) == 0
  {
    forall k: nat ensures Count(px, s, Column(k, 0)) == 0 && Count(px, s, Row(k, 0)) == 0 {
      CountNone(px, s, Column(k, 0));
      CountNone(px, s, Row(k, 0));
    }
  }

  /** The share of one number in another, in percent. */
  function Percent(both: real, either: real): (share: real)
    requires 0.0 <= both <= either && either != 0.0
    ensures share * either == 100.0 * both && 0.0 <= share <= 100.0
  {
    var part := both / either;
    assert part * either == both;
    assert 0.0 <= part <= 1.0;
    part * 100.0
  }

  /** The score of a class: the share of the pixels in both among those in either. */
  predicate IsScore(score: (bool, real), px: seq<Pixel>, s: Scope, i: nat) {
    UnionCountsEither(px, s, i);
    var both, either := Count(px, s, Cell(i, i)), Count(px, s, InEither(i));
    score == if either == 0 then (false, 0.0) else (true, Percent(both as real, either as real))
  }

  method Unions(diagonal: array<real>, sum0: array<real>, sum1: array<real>, ghost px: seq<Pixel>, ghost s: Scope)
    returns (unionVect: array<real>)
    requires diagonal.Length == sum0.Length == sum1.Length == s.classes
    requires IsDiagonal(diagonal, px, s, s.classes)
    requires forall k | 0 <= k < s.classes :: sum0[k] == Count(px, s, InActual(k)) as real
    requires forall k | 0 <= k < s.classes :: sum1[k] == Count(px, s, InReference(k)) as real
    ensures fresh(unionVect) && unionVect.Length == s.classes
    ensures forall k | 0 <= k < s.classes :: unionVect[k] == Count(px, s, InEither(k)) as real
  {
    unionVect := new real[sum0.Length](_ => 0.0);
    for i := 0 to sum0.Length
      invariant forall k | 0 <= k < i :: unionVect[k] == Count(px, s, InEither(k)) as real
    {
      UnionCountsEither(px, s, i);
      unionVect[i] := sum1[i] + sum0[i] - diagonal[i];
    }
  }

  method Score(both: real, either: real, ghost px: seq<Pixel>, ghost s: Scope, ghost i: nat)
      returns (score: (bool, real))
    requires both == Count(px, s, Cell(i, i)) as real && either == Count(px, s, InEither(i)) as real
    ensures IsScore(score, px, s, i)
  {
    score := (false, 0.0);
    if either != 0.0 {
      UnionCountsEither(px, s, i);
      score := (true, Percent(both, either));
    }
  }

  method Scores(diagonal: array<real>, unionVect: array<real>, ghost px: seq<Pixel>, ghost s: Scope)
    returns (iou: seq<(bool, real)>)
    requires diagonal.Length == unionVect.Length == s.classes && 1 <= s.classes
    requires IsDiagonal(diagonal, px, s, s.classes)
    requires forall k | 0 <= k < s.classes :: unionVect[k] == Count(px, s, InEither(k)) as real
    ensures |iou| == s.classes && iou[s.classes - 1] == (false, 0.0)
    ensures forall i | 0 <= i < s.classes - 1 :: IsScore(iou[i], px, s, i)
  {
    iou := seq(diagonal.Length, _ => (false, 0.0));
    for i := 0 to diagonal.Length - 1
      invariant |iou| == s.classes && iou[s.classes - 1] == (false, 0.0)
      invariant forall k | 0 <= k < i :: IsScore(iou[k], px, s, k)
    {
      var score := Score(diagonal[i], unionVect[i], px, s, i);
      iou := iou[i := score];
    }
  }

  /** `ReadsOutside` stands for a read outside a vector, which the original does not check for. */
  datatype IouError = AssertionFailed | ReadsOutside

  /** Class numbers and codes have 32 bits: from 65536 classes on there are fewer bins than pairs of classes. */
  lemma BinsRunOut(classes: nat)
    requires classes <= NO_LABEL
    ensures (classes * classes) % (NO_LABEL + 1) < classes * classes <==> classes >= 0x1_0000
  {
    if classes < 0x1_0000 {
      Ahead(classes, classes, 0x1_0000);
      assert classes * classes < NO_LABEL + 1;
    } else {
      assert (classes - 0x1_0000) * classes >= 0;
      assert classes * classes >= NO_LABEL + 1;
    }
  }

  /** Scores every class but the last over the pixels that name two classes, neither of them the ignored one.  It
      fails on an ignored label that is no class, and reads outside when the reference is longer than the output,
      when there are too many classes for their bins, and when there is none. */
  method MeanIou(actual: seq<nat>, reference: seq<nat>, classes: nat, ignoreLabel: nat)
    returns (r: Result<seq<(bool, real)>, IouError>)
    requires classes <= NO_LABEL && ignoreLabel <= NO_LABEL
    ensures r == Err(ReadsOutside) <==>
            |reference| > |actual| || classes >= 0x1_0000 || (classes == 0 && ignoreLabel == NO_LABEL)
    ensures r == Err(AssertionFailed) <==>
            |reference| <= |actual| && classes < 0x1_0000 && classes <= ignoreLabel < NO_LABEL
    ensures r.Ok? ==> |r.value| == classes && classes > 0 && r.value[classes - 1] == (false, 0.0)
    ensures r.Ok? ==> forall i | 0 <= i < classes - 1 ::
                        IsScore(r.value[i], Zip(reference, actual), Scope(classes, ignoreLabel), i)
  {
    if |actual| < |reference| {
      return Err(ReadsOutside);
    }
    BinsRunOut(classes);
    var size := (classes * classes) % (NO_LABEL + 1);
    if size < classes * classes {
      return Err(ReadsOutside);
    }
    ghost var px := Zip(reference, actual);
    var output := Encode(actual, reference, classes);
    var binC := BinCount(output, size);
    var hist := Histogram(binC, output, px, classes);
    if ignoreLabel != NO_LABEL {
      if classes <= ignoreLabel {
        return Err(AssertionFailed);
      }
      Ignore(hist, px, classes, ignoreLabel);
    }
    if classes == 0 {
      return Err(ReadsOutside);
    }
    var diagonal, sum0, sum1 := Sums(hist, px, Scope(classes, ignoreLabel));
    var unionVect := Unions(diagonal, sum0, sum1, px, Scope(classes, ignoreLabel));
    var iou := Scores(diagonal, unionVect, px, Scope(classes, ignoreLabel));
    return Ok(iou);
  }
}
