/** Comparing an output with its reference by the cosine of the angle between them. */
module CosineSimilarity {

  datatype Blob = Blob(dims: seq<nat>, data: seq<real>)

  datatype Verdict =
    | DifferentShape
    | DivisionByZero
    | OutOfRange(similarity: real)
    | Compared(similarity: real, passed: bool)

  function Dot(a: seq<real>, b: seq<real>): real
    requires |a| == |b|
  {
    if a == [] then 0.0 else
    Dot(a[..|a| - 1], b[..|b| - 1]) + a[|a| - 1] * b[|b| - 1]
  }

  lemma DotNext(a: seq<real>, b: seq<real>, i: nat)
    requires |a| == |b| && i < |a|
    ensures Dot(a[..i + 1], b[..i + 1]) == Dot(a[..i], b[..i]) + a[i] * b[i]
  {
    assert a[..i + 1][..i] == a[..i] && b[..i + 1][..i] == b[..i];
  }

  lemma SquareIsNotNegative(x: real)
    ensures 0.0 <= x * x
  {
  }

  lemma {:induction false} DotWithItself(a: seq<real>)
    ensures 0.0 <= Dot(a, a)
  {
    if a != [] {
      DotWithItself(a[..|a| - 1]);
      SquareIsNotNegative(a[|a| - 1]);
    }
  }

  lemma SquareIsPositive(x: real)
    requires x != 0.0
    ensures 0.0 < x * x
  {
    if x < 0.0 {
      assert x * x == -x * -x;
    }
  }

  lemma NotNegativeFactor(c: real, x: real)
    requires 0.0 < c && 0.0 <= c * x
    ensures 0.0 <= x
  {
  }

  lemma CompleteTheSquare(n: real, denA: real, denB: real, x: real, y: real)
    ensures denA * (denA * (y * y) - 2.0 * (n * (x * y)) + denB * (x * x)) ==
            (denA * y - n * x) * (denA * y - n * x) + (denA * denB - n * n) * (x * x)
  {
  }

  /** One more pair of elements keeps the square of the products' sum below the product of the squares' sums. */
  lemma OneMorePair(n: real, denA: real, denB: real, x: real, y: real)
    requires 0.0 <= denA && 0.0 <= denB && n * n <= denA * denB
    ensures (n + x * y) * (n + x * y) <= (denA + x * x) * (denB + y * y)
  {
    var gap := denA * (y * y) - 2.0 * (n * (x * y)) + denB * (x * x);
    assert 0.0 <= gap by {
      if denA == 0.0 {
        if n != 0.0 {
          SquareIsPositive(n);
        }
        SquareIsNotNegative(x);
        assert gap == denB * (x * x);
      } else {
        CompleteTheSquare(n, denA, denB, x, y);
        SquareIsNotNegative(denA * y - n * x);
        SquareIsNotNegative(x);
        assert 0.0 <= (denA * denB - n * n) * (x * x);
        NotNegativeFactor(denA, gap);
      }
    }
    Expand(n, denA, denB, x, y);
  }

  lemma Expand(n: real, denA: real, denB: real, x: real, y: real)
    ensures (denA + x * x) * (denB + y * y) - (n + x * y) * (n + x * y) ==
            denA * denB - n * n + (denA * (y * y) - 2.0 * (n * (x * y)) + denB * (x * x))
  {
  }

  /** For all vectors, the square of what is divided is at most the square of what it is divided by. */
  lemma {:induction false} CauchySchwarz(a: seq<real>, b: seq<real>)
    requires |a| == |b|
    ensures Dot(a, b) * Dot(a, b) <= Dot(a, a) * Dot(b, b)
  {
    if a != [] {
      var a', b' := a[..|a| - 1], b[..|b| - 1];
      CauchySchwarz(a', b');
      DotWithItself(a');
      DotWithItself(b');
      OneMorePair(Dot(a', b'), Dot(a', a'), Dot(b', b'), a[|a| - 1], b[|b| - 1]);
    }
  }

  // ---- the division ----

  /** All that is assumed of the square root. */
  ghost predicate IsSquareRoot(sqrt: real -> real) {
    forall x: real | 0.0 <= x :: 0.0 <= sqrt(x) && sqrt(x) * sqrt(x) == x
  }

  lemma LargerSquare(x: real, y: real)
    requires 0.0 <= y < x
    ensures y * y < x * x
  {
    assert 0.0 <= (x - y) * y && 0.0 < (x - y) * x;
  }

  lemma AtMostInSquares(x: real, y: real)
    requires 0.0 <= y && x * x <= y * y
    ensures -y <= x <= y
  {
    if y < x {
      LargerSquare(x, y);
    }
    if x < -y {
      LargerSquare(-x, y);
    }
  }

  lemma ProductOfRoots(ra: real, rb: real, denA: real, denB: real)
    requires 0.0 <= ra && 0.0 <= rb && ra * ra == denA && rb * rb == denB && denA != 0.0 && denB != 0.0
    ensures 0.0 < ra * rb && (ra * rb) * (ra * rb) == denA * denB
  {
    assert (ra * rb) * (ra * rb) == (ra * ra) * (rb * rb);
  }

  function Quotient(n: real, p: real): real
    requires p != 0.0
  {
    n / p
  }

  lemma QuotientInRange(n: real, p: real)
    requires 0.0 < p && -p <= n <= p
    ensures -1.0 <= Quotient(n, p) <= 1.0
    ensures n == p ==> Quotient(n, p) == 1.0
  {
    assert n / p * p == n;
  }

  lemma RootsBoundSum(n: real, denA: real, denB: real, ra: real, rb: real)
    requires 0.0 <= ra && 0.0 <= rb && ra * ra == denA && rb * rb == denB && denA != 0.0 && denB != 0.0
    requires n * n <= denA * denB
    ensures 0.0 < ra * rb && -(ra * rb) <= n <= ra * rb
  {
    ProductOfRoots(ra, rb, denA, denB);
    AtMostInSquares(n, ra * rb);
  }

  predicate Divides(denA: real, denB: real, sqrt: real -> real) {
    sqrt(denA) * sqrt(denB) != 0.0
  }

  function Similarity(numr: real, denA: real, denB: real, sqrt: real -> real): real
    requires Divides(denA, denB, sqrt)
  {
    Quotient(numr, sqrt(denA) * sqrt(denB))
  }

  /** So the similarity is a cosine, and in exact arithmetic no pair of vectors is out of range. */
  lemma SimilarityIsACosine(a: seq<real>, b: seq<real>, sqrt: real -> real)
    requires |a| == |b| && IsSquareRoot(sqrt) && Dot(a, a) != 0.0 && Dot(b, b) != 0.0
    ensures Divides(Dot(a, a), Dot(b, b), sqrt)
    ensures -1.0 <= Similarity(Dot(a, b), Dot(a, a), Dot(b, b), sqrt) <= 1.0
  {
    DotWithItself(a);
    DotWithItself(b);
    CauchySchwarz(a, b);
    SimilarityInRange(Dot(a, b), Dot(a, a), Dot(b, b), sqrt);
  }

  lemma SimilarityInRange(n: real, denA: real, denB: real, sqrt: real -> real)
    requires IsSquareRoot(sqrt) && 0.0 < denA && 0.0 < denB && n * n <= denA * denB
    ensures Divides(denA, denB, sqrt) && -1.0 <= Similarity(n, denA, denB, sqrt) <= 1.0
  {
    var ra, rb := sqrt(denA), sqrt(denB);
    RootsBoundSum(n, denA, denB, ra, rb);
    var p := ra * rb;
    QuotientInRange(n, p);
    assert Similarity(n, denA, denB, sqrt) == Quotient(n, p);
  }

  function Multiple(c: real, b: seq<real>): (a: seq<real>)
    ensures |a| == |b|
  {
    if b == [] then [] else Multiple(c, b[..|b| - 1]) + [c * b[|b| - 1]]
  }

  lemma ScaleOfSum(c: real, d: real, x: real, y: real)
    ensures c * (d + x * y) == c * d + c * x * y
  {
  }

  lemma {:induction false} DotOfMultiple(c: real, b: seq<real>, e: seq<real>)
    requires |b| == |e|
    ensures Dot(Multiple(c, b), e) == c * Dot(b, e)
  {
    if b != [] {
      var last := |b| - 1;
      DotOfMultiple(c, b[..last], e[..last]);
      assert Multiple(c, b)[..last] == Multiple(c, b[..last]);
      ScaleOfSum(c, Dot(b[..last], e[..last]), b[last], e[last]);
    }
  }

  lemma {:induction false} DotIsSymmetric(a: seq<real>, b: seq<real>)
    requires |a| == |b|
    ensures Dot(a, b) == Dot(b, a)
  {
    if a != [] {
      DotIsSymmetric(a[..|a| - 1], b[..|b| - 1]);
    }
  }

  lemma SameSquare(x: real, y: real)
    requires 0.0 < x && 0.0 < y && x * x == y * y
    ensures x == y
  {
    AtMostInSquares(x, y);
    AtMostInSquares(y, x);
  }

  /** An output that is a positive multiple of its reference, itself for one, has similarity 1. */
  lemma MultiplesAreSimilar(c: real, b: seq<real>, sqrt: real -> real)
    requires IsSquareRoot(sqrt) && 0.0 < c && Dot(b, b) != 0.0
    ensures var a := Multiple(c, b);
            Divides(Dot(a, a), Dot(b, b), sqrt) && Similarity(Dot(a, b), Dot(a, a), Dot(b, b), sqrt) == 1.0
  {
    DotWithItself(b);
    DotOfMultiple(c, b, b);
    DotOfMultiple(c, b, Multiple(c, b));
    DotIsSymmetric(b, Multiple(c, b));
    ScaledSquares(c, Dot(b, b));
    SimilarityOfMultiple(Dot(b, b), Dot(Multiple(c, b), b), Dot(Multiple(c, b), Multiple(c, b)), sqrt);
  }

  lemma SimilarityOfMultiple(d: real, n: real, denA: real, sqrt: real -> real)
    requires IsSquareRoot(sqrt) && 0.0 < d && 0.0 < n && 0.0 < denA && denA * d == n * n
    ensures Divides(denA, d, sqrt) && Similarity(n, denA, d, sqrt) == 1.0
  {
    ProductOfRoots(sqrt(denA), sqrt(d), denA, d);
    SameSquare(sqrt(denA) * sqrt(d), n);
    QuotientInRange(n, sqrt(denA) * sqrt(d));
  }

  lemma ScaledSquares(c: real, d: real)
    requires 0.0 < c && 0.0 < d
    ensures 0.0 < c * d && 0.0 < c * (c * d) && c * (c * d) * d == c * d * (c * d)
  {
    assert 0.0 < c * c;
  }

  // ---- the program ----

  const EPS: real := 0.0000001

  method Accumulate(act: seq<real>, ref: seq<real>) returns (numr: real, denA: real, denB: real)
    requires |act| == |ref|
    ensures numr == Dot(act, ref) && denA == Dot(act, act) && denB == Dot(ref, ref)
  {
    numr, denA, denB := 0.0, 0.0, 0.0;
    for i := 0 to |ref|
      invariant numr == Dot(act[..i], ref[..i]) && denA == Dot(act[..i], act[..i]) && denB == Dot(ref[..i], ref[..i])
    {
      DotNext(act, ref, i);
      DotNext(act, act, i);
      DotNext(ref, ref, i);
      numr := numr + act[i] * ref[i];
      denA := denA + act[i] * act[i];
      denB := denB + ref[i] * ref[i];
    }
    assert act[..|act|] == act && ref[..|ref|] == ref;
  }

  /** Compares two blobs of the same shape.  A square root is given. */
  method CompareCoSim(actual: Blob, reference: Blob, threshold: real, sqrt: real -> real) returns (verdict: Verdict)
    requires IsSquareRoot(sqrt) && (actual.dims == reference.dims ==> |actual.data| == |reference.data|)
    ensures verdict == DifferentShape <==> actual.dims != reference.dims
    ensures !verdict.OutOfRange?
    ensures actual.dims == reference.dims ==>
              var denA, denB := Dot(actual.data, actual.data), Dot(reference.data, reference.data);
              && (verdict == DivisionByZero <==> denA == 0.0 || denB == 0.0)
              && (verdict.Compared? ==>
                    && -1.0 <= verdict.similarity <= 1.0 && Divides(denA, denB, sqrt)
                    && verdict.similarity == Similarity(Dot(actual.data, reference.data), denA, denB, sqrt)
                    && (verdict.passed <==> verdict.similarity > threshold))
  {
    if actual.dims != reference.dims {
      return DifferentShape;
    }
    var act, ref := actual.data, reference.data;
    var numr, denA, denB := Accumulate(act, ref);
    if denA == 0.0 || denB == 0.0 {
      return DivisionByZero;
    }
    SimilarityIsACosine(act, ref, sqrt);
    var similarity := Similarity(numr, denA, denB, sqrt);
    if similarity > 1.0 + EPS || similarity < -(1.0 + EPS) {
      return OutOfRange(similarity);
    }
    return Compared(similarity, similarity > threshold);
  }
}
