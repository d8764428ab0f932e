/** The answer to "which layers are supported": names between angle brackets. */
module QueryResult {

  // ---- writing, in the driver ----

  function Quoted(name: string): string {
    ['<'] + name + ['>']
  }

  function Format(names: seq<string>): string {
    if names == [] then [] else Format(names[..|names| - 1]) + Quoted(names[|names| - 1])
  }

  function FormatSize(names: seq<string>): nat {
    if names == [] then 0 else FormatSize(names[..|names| - 1]) + |names[|names| - 1]| + 2
  }

  lemma FormatNext(names: seq<string>, n: nat)
    requires n < |names|
    ensures Format(names[..n + 1]) == Format(names[..n]) + Quoted(names[n])
    ensures FormatSize(names[..n + 1]) == FormatSize(names[..n]) + |names[n]| + 2
  {
    assert names[..n + 1][..n] == names[..n];
  }

  lemma {:induction false} SizeGrows(names: seq<string>, n: nat)
    requires n <= |names|
    ensures FormatSize(names[..n]) <= FormatSize(names)
    decreases |names| - n
  {
    if n == |names| {
      assert names[..n] == names;
    } else {
      FormatNext(names, n);
      SizeGrows(names, n + 1);
    }
  }

  class QueryNetwork {
    var size: nat
    var result: array<char>

    constructor ()
      ensures size == 0 && fresh(result) && result.Length == 0
    {
      size, result := 0, new char[0];
    }

    /** Takes the names, in the order of the map they come from. */
    method SetQueryResult(names: seq<string>)
      modifies this
      ensures fresh(result) && size == result.Length && result[..] == Format(names)
    {
      size := 0;
      for k := 0 to |names|
        invariant size == FormatSize(names[..k])
      {
        FormatNext(names, k);
        size := size + |names[k]| + 2;
      }
      assert names[..|names|] == names;
      result := new char[size](_ => ' ');
      var i := 0;
      for k := 0 to |names|
        invariant fresh(result) && size == result.Length == FormatSize(names) && i == FormatSize(names[..k])
        invariant i <= size && result[..i] == Format(names[..k])
      {
        FormatNext(names, k);
        SizeGrows(names, k + 1);
        i := PutName(result, i, names[k]);
      }
      assert result[..size] == result[..];
    }
  }

  method PutName(result: array<char>, start: nat, name: string) returns (i: nat)
    requires start + |name| + 2 <= result.Length
    modifies result
    ensures i == start + |name| + 2 && result[..i] == old(result[..start]) + Quoted(name)
  {
    i := start;
    result[i] := '<';
    i := i + 1;
    for k := 0 to |name|
      invariant i == start + 1 && result[..i + k] == old(result[..start]) + ['<'] + name[..k]
    {
      result[i + k] := name[k];
    }
    i := i + |name|;
    result[i] := '>';
    i := i + 1;
  }

  // ---- reading, in the adapter ----

  /** The position after the last `<` before `p`. */
  function StartAt(data: string, p: nat): (start: nat)
    requires p <= |data|
    ensures start <= p
  {
    if p == 0 then 0 else if data[p - 1] == '<' then p else StartAt(data, p - 1)
  }

  /** What ends at `p`, if it ends there: the text after the last `<`. */
  function PieceAt(data: string, p: nat): string
    requires p <= |data|
  {
    data[StartAt(data, p)..p]
  }

  predicate IsPiece(data: string, to: nat, x: string)
    requires to <= |data|
  {
    exists p :: 0 <= p < to && data[p] == '>' && x == PieceAt(data, p)
  }

  /** Every closing bracket ends a name, which begins after the last opening one. */
  method ParseQueryResult(data: string) returns (result: set<string>)
    ensures forall x :: x in result <==> IsPiece(data, |data|, x)
  {
    result := {};
    var i, start := 0, 0;
    while i < |data|
      invariant 0 <= i <= |data| && start == StartAt(data, i)
      invariant forall x :: x in result <==> IsPiece(data, i, x)
    {
      ghost var before := i;
      if data[i] == '<' {
        i := i + 1;
        start := i;
      } else if data[i] == '>' {
        result := result + {data[start..i]};
        i := i + 1;
      } else {
        i := i + 1;
      }
      PieceNext(data, before);
    }
  }

  lemma PieceNext(data: string, i: nat)
    requires i < |data|
    ensures forall x :: IsPiece(data, i + 1, x) <==> IsPiece(data, i, x) || (data[i] == '>' && x == PieceAt(data, i))
  {
    forall x | IsPiece(data, i, x) ensures IsPiece(data, i + 1, x) {
      var p :| 0 <= p < i && data[p] == '>' && x == PieceAt(data, p);
      assert data[p] == '>' && x == PieceAt(data, p);
    }
    if data[i] == '>' {
      assert IsPiece(data, i + 1, PieceAt(data, i));
    }
  }

  // ---- one undoes the other ----

  lemma {:induction false} StartInFront(a: string, b: string, p: nat)
    requires p <= |a|
    ensures StartAt(a + b, p) == StartAt(a, p)
  {
    if p > 0 {
      StartInFront(a, b, p - 1);
    }
  }

  lemma {:induction false} StartBehind(a: string, b: string, p: nat)
    requires 1 <= p <= |b| && b[0] == '<'
    ensures StartAt(a + b, |a| + p) == |a| + StartAt(b, p)
  {
    assert (a + b)[|a| + p - 1] == b[p - 1];
    if p > 1 {
      StartBehind(a, b, p - 1);
    }
  }

  lemma PieceInFront(a: string, b: string, p: nat)
    requires p <= |a|
    ensures PieceAt(a + b, p) == PieceAt(a, p)
  {
    StartInFront(a, b, p);
  }

  lemma PieceBehind(a: string, b: string, p: nat)
    requires 1 <= p <= |b| && b[0] == '<'
    ensures PieceAt(a + b, |a| + p) == PieceAt(b, p)
  {
    StartBehind(a, b, p);
  }

  lemma PiecesOfParts(a: string, b: string, x: string)
    requires b != [] && b[0] == '<' && (IsPiece(a, |a|, x) || IsPiece(b, |b|, x))
    ensures IsPiece(a + b, |a + b|, x)
  {
    var data := a + b;
    if IsPiece(a, |a|, x) {
      var p :| 0 <= p < |a| && a[p] == '>' && x == PieceAt(a, p);
      PieceInFront(a, b, p);
      assert data[p] == '>' && x == PieceAt(data, p);
    } else {
      var p :| 0 <= p < |b| && b[p] == '>' && x == PieceAt(b, p);
      PieceBehind(a, b, p);
      assert data[|a| + p] == '>' && x == PieceAt(data, |a| + p);
    }
  }

  lemma PieceOfEither(a: string, b: string, x: string)
    requires b != [] && b[0] == '<' && IsPiece(a + b, |a + b|, x)
    ensures IsPiece(a, |a|, x) || IsPiece(b, |b|, x)
  {
    var data := a + b;
    var p :| 0 <= p < |data| && data[p] == '>' && x == PieceAt(data, p);
    if p < |a| {
      PieceInFront(a, b, p);
      assert a[p] == '>';
    } else {
      assert b[p - |a|] == '>';
      PieceBehind(a, b, p - |a|);
    }
  }

  lemma PiecesAppend(a: string, b: string, x: string)
    requires b != [] && b[0] == '<'
    ensures IsPiece(a + b, |a + b|, x) <==> IsPiece(a, |a|, x) || IsPiece(b, |b|, x)
  {
    if IsPiece(a + b, |a + b|, x) {
      PieceOfEither(a, b, x);
    }
    if IsPiece(a, |a|, x) || IsPiece(b, |b|, x) {
      PiecesOfParts(a, b, x);
    }
  }

  /** The pieces of a formatted list are those of its names. */
  lemma {:induction false} PiecesOfFormat(names: seq<string>, x: string)
    ensures IsPiece(Format(names), |Format(names)|, x) <==> exists n :: n in names && IsPiece(Quoted(n), |Quoted(n)|, x)
  {
    if names != [] {
      var front, last := names[..|names| - 1], names[|names| - 1];
      assert names == front + [last];
      PiecesOfFormat(front, x);
      PiecesAppend(Format(front), Quoted(last), x);
    }
  }

  lemma {:induction false} PieceHasNoOpening(data: string, p: nat)
    requires p <= |data|
    ensures '<' !in PieceAt(data, p)
  {
    if p > 0 && data[p - 1] != '<' {
      PieceHasNoOpening(data, p - 1);
      assert PieceAt(data, p) == PieceAt(data, p - 1) + [data[p - 1]];
    }
  }

  lemma {:induction false} StartInName(name: string, p: nat)
    requires '<' !in name && 1 <= p <= |name| + 1
    ensures StartAt(Quoted(name), p) == 1
  {
    if p > 1 {
      assert Quoted(name)[p - 1] == name[p - 2];
      StartInName(name, p - 1);
    }
  }

  /** A name without `<` gives itself, and whatever stands before a `>` of its own. */
  lemma PiecesOfName(name: string, x: string)
    requires '<' !in name
    ensures IsPiece(Quoted(name), |Quoted(name)|, x) <==>
            x == name || exists p :: 0 <= p < |name| && name[p] == '>' && x == name[..p]
  {
    var data := Quoted(name);
    forall p | 1 <= p <= |name| + 1 ensures PieceAt(data, p) == name[..p - 1] {
      StartInName(name, p);
    }
    if IsPiece(data, |data|, x) {
      var p :| 0 <= p < |data| && data[p] == '>' && x == PieceAt(data, p);
      assert p >= 1 && (p <= |name| ==> name[p - 1] == '>');
    }
    if x == name {
      assert data[|name| + 1] == '>' && PieceAt(data, |name| + 1) == name;
    }
    forall p | 0 <= p < |name| && name[p] == '>' && x == name[..p] ensures IsPiece(data, |data|, x) {
      assert data[p + 1] == '>' && x == PieceAt(data, p + 1);
    }
  }

  /** What parsing gives is exactly what was formatted. */
  ghost predicate ReadsBack(names: seq<string>) {
    forall x :: IsPiece(Format(names), |Format(names)|, x) <==> x in names
  }

  /** No name has an opening bracket, and what stands before a closing one is itself a name. */
  predicate Readable(names: seq<string>) {
    && (forall n | n in names :: '<' !in n)
    && forall n, p | n in names && 0 <= p < |n| && n[p] == '>' :: n[..p] in names
  }

  /** The answer reads back exactly when the names are so; names free of brackets are. */
  lemma ReadsBackWhenReadable(names: seq<string>)
    ensures ReadsBack(names) <==> Readable(names)
    ensures (forall n | n in names :: '<' !in n && '>' !in n) ==> ReadsBack(names)
  {
    if Readable(names) {
      ReadableReadsBack(names);
    }
    if ReadsBack(names) {
      NamesHaveNoOpening(names);
      forall n, p | n in names && 0 <= p < |n| && n[p] == '>' ensures n[..p] in names {
        PiecesOfName(n, n[..p]);
        PiecesOfFormat(names, n[..p]);
      }
    }
  }

  lemma ReadableReadsBack(names: seq<string>)
    requires Readable(names)
    ensures ReadsBack(names)
  {
    forall x ensures IsPiece(Format(names), |Format(names)|, x) <==> x in names {
      PiecesOfFormat(names, x);
      forall n | n in names ensures IsPiece(Quoted(n), |Quoted(n)|, x) ==> x in names {
        PiecesOfName(n, x);
      }
      if x in names {
        PiecesOfName(x, x);
      }
    }
  }

  lemma NamesHaveNoOpening(names: seq<string>)
    requires ReadsBack(names)
    ensures forall n | n in names :: '<' !in n
  {
    forall n | n in names ensures '<' !in n {
      var data := Format(names);
      assert IsPiece(data, |data|, n);
      var p :| 0 <= p < |data| && data[p] == '>' && n == PieceAt(data, p);
      PieceHasNoOpening(data, p);
    }
  }
}
