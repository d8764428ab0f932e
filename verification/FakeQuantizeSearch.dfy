/** The depth-first search for the FakeQuantize operations that feed a node. */
module FakeQuantizeSearch {

  datatype Kind = FakeQuantize | Constant | Other

  /** An operation and the operations producing its inputs, in order. */
  datatype Node = Node(kind: Kind, parents: seq<nat>)

  type Graph = seq<Node>

  /** Edges stay inside the graph, and a FakeQuantize has inputs.  Cycles and repeated parents are allowed. */
  predicate WellFormed(g: Graph) {
    && (forall n: nat, i | n < |g| && 0 <= i < |g[n].parents| :: g[n].parents[i] < |g|)
    && (forall n: nat | n < |g| && g[n].kind.FakeQuantize? :: g[n].parents != [])
  }

  /** A FakeQuantize of data, as opposed to one that only quantizes a constant. */
  predicate DataFQ(g: Graph, n: nat)
    requires WellFormed(g) && n < |g|
  {
    g[n].kind.FakeQuantize? && !g[g[n].parents[0]].kind.Constant?
  }

  /** An upward walk that goes on only through nodes other than FakeQuantize, and through a FakeQuantize of a
      constant. */
  ghost predicate IsWalk(g: Graph, walk: seq<nat>, from: nat, to: nat)
    requires WellFormed(g)
    decreases |walk|
  {
    && |walk| > 0 && walk[0] == from && from < |g|
    && if |walk| == 1 then from == to
       else
         && (g[from].kind == FakeQuantize ==> g[g[from].parents[0]].kind == Constant)
         && walk[1] in g[from].parents && IsWalk(g, walk[1..], walk[1], to)
  }

  ghost predicate Reaches(g: Graph, from: nat, to: nat)
    requires WellFormed(g)
  {
    exists walk: seq<nat> :: IsWalk(g, walk, from, to)
  }

  /** What a search from `from` is meant to find: on every upward path the nearest FakeQuantize whose first input
      is no constant. */
  ghost predicate Nearest(g: Graph, from: nat, f: nat)
    requires WellFormed(g)
  {
    f < |g| && g[f].kind == FakeQuantize && g[g[f].parents[0]].kind != Constant && Reaches(g, from, f)
  }

  lemma ReachesItself(g: Graph, n: nat)
    requires WellFormed(g) && n < |g|
    ensures Reaches(g, n, n)
  {
    assert IsWalk(g, [n], n, n);
  }

  lemma {:induction false} WalkExtends(g: Graph, walk: seq<nat>, from: nat, to: nat, parent: nat)
    requires WellFormed(g) && IsWalk(g, walk, from, to) && to < |g| && !DataFQ(g, to) && parent in g[to].parents
    ensures IsWalk(g, walk + [parent], from, parent)
    decreases |walk|
  {
    var longer := walk + [parent];
    if |walk| == 1 {
      assert longer[1..] == [parent];
    } else {
      WalkExtends(g, walk[1..], walk[1], to, parent);
      assert longer[1..] == walk[1..] + [parent];
    }
  }

  lemma ReachesParent(g: Graph, from: nat, to: nat, parent: nat)
    requires WellFormed(g) && Reaches(g, from, to) && to < |g| && !DataFQ(g, to) && parent in g[to].parents
    ensures Reaches(g, from, parent)
  {
    var walk :| IsWalk(g, walk, from, to);
    WalkExtends(g, walk, from, to, parent);
  }

  /** A set that holds `from` and the parents of its nodes, except of data FakeQuantize nodes, holds all of a
      walk's nodes. */
  lemma {:induction false} ClosedHoldsWalk(g: Graph, visited: set<nat>, walk: seq<nat>, from: nat, to: nat)
    requires WellFormed(g) && IsWalk(g, walk, from, to) && from in visited
    requires forall v, p | v in visited && v < |g| && !DataFQ(g, v) && p in g[v].parents :: p in visited
    ensures to in visited
    decreases |walk|
  {
    if |walk| > 1 {
      ClosedHoldsWalk(g, visited, walk[1..], walk[1], to);
    }
  }

  /** Every parent `v` asks for has been visited or is among `waiting`. */
  predicate Served(g: Graph, visited: set<nat>, waiting: seq<nat>, v: nat)
    requires WellFormed(g)
  {
    v < |g| && (DataFQ(g, v) || forall p | p in g[v].parents :: p in visited || p in waiting)
  }

  predicate ServedAbove(g: Graph, visited: set<nat>, stack: seq<nat>, k: nat)
    requires WellFormed(g) && k < |stack|
  {
    stack[k] in visited ==> Served(g, visited, stack[k + 1..], stack[k])
  }

  /** Every parent of a visited node is visited, or waits in the stack -- above the node, if that waits there
      again.  This is why a node expands only the first time it is popped. */
  ghost predicate ParentsPending(g: Graph, visited: set<nat>, stack: seq<nat>)
    requires WellFormed(g)
  {
    && (forall n | n in stack :: n < |g|)
    && (forall v {:trigger Served(g, visited, stack, v)} | v in visited :: Served(g, visited, stack, v))
    && (forall k: nat {:trigger ServedAbove(g, visited, stack, k)} | k < |stack| :: ServedAbove(g, visited, stack, k))
  }

  ghost function Unvisited(g: Graph, visited: set<nat>): set<nat> {
    set n: nat | n < |g| && n !in visited
  }

  function Unseen(inputs: seq<nat>, visited: set<nat>): (r: seq<nat>)
    ensures forall p :: p in r <==> p in inputs && p !in visited
  {
    if inputs == [] then [] else
    var last := inputs[|inputs| - 1];
    assert inputs == inputs[..|inputs| - 1] + [last];
    Unseen(inputs[..|inputs| - 1], visited) + if last in visited then [] else [last]
  }

  /** The stack after popping `top`, which is by now visited, and pushing what it asks for. */
  function Expanded(g: Graph, visited: set<nat>, below: seq<nat>, top: nat): seq<nat>
    requires WellFormed(g) && top < |g|
  {
    if DataFQ(g, top) then below else below + Unseen(g[top].parents, visited)
  }

  lemma PopKeepsPending(g: Graph, visited: set<nat>, below: seq<nat>, top: nat)
    requires WellFormed(g) && ParentsPending(g, visited, below + [top])
    ensures top < |g| && ParentsPending(g, visited + {top}, Expanded(g, visited + {top}, below, top))
  {
    var stack, visited' := below + [top], visited + {top};
    assert top in stack;
    var stack' := Expanded(g, visited', below, top);
    forall n | n in stack' ensures n < |g| {
      if n !in below {
        var i :| 0 <= i < |g[top].parents| && g[top].parents[i] == n;
      } else {
        assert n in stack;
      }
    }
    forall v | v in visited' ensures Served(g, visited', stack', v) {
      assert v != top ==> Served(g, visited, stack, v);
    }
    forall k: nat | k < |stack'| ensures ServedAbove(g, visited', stack', k) {
      if k < |below| {
        assert ServedAbove(g, visited, stack, k);
        assert stack'[k + 1..] == below[k + 1..] + stack'[|below|..];
        assert stack[k] == below[k] && stack[k + 1..] == below[k + 1..] + [top];
      } else {
        assert stack'[k] in stack'[|below|..];
      }
    }
  }

  /** A node popped again pushes nothing. */
  lemma SecondPopIsSilent(g: Graph, visited: set<nat>, below: seq<nat>, top: nat)
    requires WellFormed(g) && ParentsPending(g, visited, below + [top]) && top in visited
    ensures top < |g| && Expanded(g, visited, below, top) == below
  {
    var stack := below + [top];
    assert ServedAbove(g, visited, stack, |below|);
    assert stack[|below|] == top && stack[|below| + 1..] == [];
    var unseen := Unseen(g[top].parents, visited);
    assert unseen != [] ==> unseen[0] in unseen;
  }

  lemma PopMakesProgress(g: Graph, visited: set<nat>, below: seq<nat>, top: nat)
    requires WellFormed(g) && ParentsPending(g, visited, below + [top])
    ensures top < |g|
    ensures top !in visited ==> Unvisited(g, visited + {top}) < Unvisited(g, visited)
    ensures top in visited ==> visited + {top} == visited && Expanded(g, visited + {top}, below, top) == below
  {
    assert top in below + [top];
    if top !in visited {
      assert top in Unvisited(g, visited) && top !in Unvisited(g, visited + {top});
    } else {
      assert visited + {top} == visited;
      SecondPopIsSilent(g, visited, below, top);
    }
  }

  /** What the search still has to report, in the order it will. */
  ghost function Search(g: Graph, visited: set<nat>, stack: seq<nat>): seq<nat>
    requires WellFormed(g) && ParentsPending(g, visited, stack)
    decreases Unvisited(g, visited), |stack|
  {
    if stack == [] then [] else
    var top, below := stack[|stack| - 1], stack[..|stack| - 1];
    assert stack == below + [top];
    PopKeepsPending(g, visited, below, top);
    PopMakesProgress(g, visited, below, top);
    (if DataFQ(g, top) then [top] else []) + Search(g, visited + {top}, Expanded(g, visited + {top}, below, top))
  }

  lemma VisitedIsComplete(g: Graph, visited: set<nat>, node: nat)
    requires WellFormed(g) && ParentsPending(g, visited, []) && node in visited
    ensures forall f: nat | Nearest(g, node, f) :: f in visited
  {
    assert forall v | v in visited :: Served(g, visited, [], v);
    forall f: nat | Nearest(g, node, f) ensures f in visited {
      var walk :| IsWalk(g, walk, node, f);
      ClosedHoldsWalk(g, visited, walk, node, f);
    }
  }

  lemma VisitedAreNodes(g: Graph, visited: set<nat>, stack: seq<nat>)
    requires WellFormed(g) && ParentsPending(g, visited, stack)
    ensures forall v | v in visited :: v < |g|
  {
    assert forall v | v in visited :: Served(g, visited, stack, v);
  }

  /** A pop leaves the node searched from visited or waiting, and everything visited or waiting above it. */
  lemma PopStaysReachable(g: Graph, node: nat, visited: set<nat>, below: seq<nat>, top: nat)
    requires WellFormed(g) && top < |g| && (node in visited || node in below + [top])
    requires forall n | n in visited || n in below + [top] :: Reaches(g, node, n)
    ensures var stack := Expanded(g, visited + {top}, below, top);
            && (node in visited + {top} || node in stack)
            && (forall n | n in visited + {top} || n in stack :: Reaches(g, node, n))
  {
    assert top in below + [top];
    var stack := Expanded(g, visited + {top}, below, top);
    forall n | n in stack ensures Reaches(g, node, n) {
      if n in below {
        assert n in below + [top];
      } else {
        ReachesParent(g, node, top, n);
      }
    }
  }

  /** What is still to be reported and what the visited nodes account for are together the nearest data
      FakeQuantize nodes. */
  lemma {:induction false} SearchFinds(g: Graph, node: nat, visited: set<nat>, stack: seq<nat>)
    requires WellFormed(g) && ParentsPending(g, visited, stack) && (node in visited || node in stack)
    requires forall n | n in visited || n in stack :: Reaches(g, node, n)
    ensures forall v | v in visited :: v < |g|
    ensures forall f: nat :: f in Search(g, visited, stack) || (f in visited && DataFQ(g, f)) <==> Nearest(g, node, f)
    decreases Unvisited(g, visited), |stack|
  {
    VisitedAreNodes(g, visited, stack);
    if stack == [] {
      VisitedIsComplete(g, visited, node);
    } else {
      var top, below := stack[|stack| - 1], stack[..|stack| - 1];
      LastSplitsOff(stack);
      PopMakesProgress(g, visited, below, top);
      PopStaysReachable(g, node, visited, below, top);
      SearchUnfolds(g, visited, below, top);
      SearchFinds(g, node, visited + {top}, Expanded(g, visited + {top}, below, top));
    }
  }

  lemma LastSplitsOff(s: seq<nat>)
    requires s != []
    ensures s == s[..|s| - 1] + [s[|s| - 1]]
  {
  }

  lemma ReportOne(result: seq<nat>, top: nat, found: bool, rest: seq<nat>)
    ensures result + ((if found then [top] else []) + rest) == (if found then result + [top] else result) + rest
  {
    if !found {
      assert [] + rest == rest;
    }
  }

  lemma SearchUnfolds(g: Graph, visited: set<nat>, below: seq<nat>, top: nat)
    requires WellFormed(g) && ParentsPending(g, visited, below + [top])
    ensures top < |g| && ParentsPending(g, visited + {top}, Expanded(g, visited + {top}, below, top))
    ensures Search(g, visited, below + [top])
            == (if DataFQ(g, top) then [top] else [])
               + Search(g, visited + {top}, Expanded(g, visited + {top}, below, top))
  {
    PopKeepsPending(g, visited, below, top);
    assert (below + [top])[..|below|] == below;
  }

  /** One iteration of the search turns a prefix of what is to be reported into a longer one. */
  lemma IterationReports(g: Graph, visited: set<nat>, below: seq<nat>, top: nat, result: seq<nat>, all: seq<nat>)
    requires WellFormed(g) && ParentsPending(g, visited, below + [top])
    requires result + Search(g, visited, below + [top]) == all
    ensures top < |g| && ParentsPending(g, visited + {top}, Expanded(g, visited + {top}, below, top))
    ensures (if DataFQ(g, top) then result + [top] else result)
            + Search(g, visited + {top}, Expanded(g, visited + {top}, below, top)) == all
  {
    SearchUnfolds(g, visited, below, top);
    ReportOne(result, top, DataFQ(g, top), Search(g, visited + {top}, Expanded(g, visited + {top}, below, top)));
  }

  method PushUnseen(layers: seq<nat>, inputs: seq<nat>, visited: set<nat>) returns (r: seq<nat>)
    ensures r == layers + Unseen(inputs, visited)
  {
    r := layers;
    for i := 0 to |inputs|
      invariant r == layers + Unseen(inputs[..i], visited)
    {
      assert inputs[..i + 1][..i] == inputs[..i];
      if inputs[i] !in visited {
        r := r + [inputs[i]];
      }
    }
    assert inputs[..|inputs|] == inputs;
  }

  /** On every finite graph the search ends and reports exactly the nearest FakeQuantize nodes above that quantize
      data. */
  method GetAnyInputsFQ(g: Graph, node: nat) returns (result: seq<nat>)
    requires WellFormed(g) && node < |g|
    ensures forall f: nat :: f in result <==> Nearest(g, node, f)
    ensures ParentsPending(g, {}, [node]) && result == Search(g, {}, [node])
  {
    ghost var all := Search(g, {}, [node]);
    result := [];
    var visited: set<nat> := {};
    var layers: seq<nat> := [node];
    while layers != []
      invariant ParentsPending(g, visited, layers)
      invariant result + Search(g, visited, layers) == all
      decreases Unvisited(g, visited), |layers|
    {
      var input: nat := layers[|layers| - 1];
      ghost var below: seq<nat> := layers[..|layers| - 1];
      LastSplitsOff(layers);
      IterationReports(g, visited, below, input, result, all);
      PopMakesProgress(g, visited, below, input);
      layers := layers[..|layers| - 1];
      visited := visited + {input};
      if DataFQ(g, input) {
        result := result + [input];
      } else {
        layers := PushUnseen(layers, g[input].parents, visited);
      }
      assert layers == Expanded(g, visited, below, input);
    }
    ReachesItself(g, node);
    SearchFinds(g, node, {}, [node]);
  }

  /** Node 0 uses the output of FakeQuantize 1 for both its inputs. */
  function SharedInput(): Graph {
    [Node(Other, [1, 1]), Node(FakeQuantize, [2]), Node(Other, [])]
  }

  lemma UnseenPair(a: nat, visited: set<nat>)
    requires a !in visited
    ensures Unseen([a, a], visited) == [a] + [a]
  {
    assert [a, a][..1] == [a] && [a][..0] == [];
    assert Unseen([a], visited) == [a];
  }

  lemma SharedInputExpands()
    ensures WellFormed(SharedInput()) && !DataFQ(SharedInput(), 0) && DataFQ(SharedInput(), 1)
    ensures ParentsPending(SharedInput(), {}, [] + [0])
    ensures Expanded(SharedInput(), {0}, [], 0) == [1] + [1]
  {
    UnseenPair(1, {0});
    assert [] + [0] == [0];
  }

  lemma SecondCopyReported(g: Graph)
    requires WellFormed(g) && |g| > 1 && DataFQ(g, 1) && ParentsPending(g, {0, 1}, [] + [1])
    ensures Search(g, {0, 1}, [] + [1]) == [1]
  {
    SearchUnfolds(g, {0, 1}, [], 1);
    assert {0, 1} + {1} == {0, 1};
  }

  lemma BothCopiesReported(g: Graph)
    requires WellFormed(g) && |g| > 1 && DataFQ(g, 1) && ParentsPending(g, {0}, [1] + [1])
    ensures Search(g, {0}, [1] + [1]) == [1, 1]
  {
    SearchUnfolds(g, {0}, [1], 1);
    assert {0} + {1} == {0, 1} && [] + [1] == [1];
    SecondCopyReported(g);
  }

  /** A layer with data from node 1 and weights quantized by node 2. */
  function QuantizedWeights(): Graph {
    [Node(Other, [1, 2]), Node(FakeQuantize, [3]), Node(FakeQuantize, [4]), Node(Other, []), Node(Constant, [])]
  }

  lemma {:induction false} NothingAboveWeights(walk: seq<nat>, from: nat, to: nat)
    requires WellFormed(QuantizedWeights()) && (from == 2 || from == 4) && IsWalk(QuantizedWeights(), walk, from, to)
    ensures to == 2 || to == 4
    decreases |walk|
  {
    if |walk| > 1 {
      NothingAboveWeights(walk[1..], walk[1], to);
    }
  }

  lemma NothingNearestAboveWeights(f: nat)
    requires WellFormed(QuantizedWeights())
    ensures !Nearest(QuantizedWeights(), 2, f)
  {
    forall walk | IsWalk(QuantizedWeights(), walk, 2, f) ensures f == 2 || f == 4 {
      NothingAboveWeights(walk, 2, f);
    }
  }

  lemma NothingElseAboveLayer(walk: seq<nat>, f: nat)
    requires WellFormed(QuantizedWeights()) && IsWalk(QuantizedWeights(), walk, 0, f)
    ensures f == 0 || f == 1 || f == 2 || f == 4
  {
    if |walk| > 1 && walk[1] == 2 {
      NothingAboveWeights(walk[1..], 2, f);
    }
  }

  lemma NearestAboveLayer(f: nat)
    requires WellFormed(QuantizedWeights())
    ensures Nearest(QuantizedWeights(), 0, f) <==> f == 1
  {
    var g := QuantizedWeights();
    forall walk | IsWalk(g, walk, 0, f) ensures f == 0 || f == 1 || f == 2 || f == 4 {
      NothingElseAboveLayer(walk, f);
    }
    ReachesItself(g, 0);
    ReachesParent(g, 0, 0, 1);
  }

  /** Only the FakeQuantize of the data is found; above the weights there is none, so with every input asked for
      nothing is found at all. */
  lemma WeightsAreNoData()
    ensures WellFormed(QuantizedWeights())
    ensures forall f: nat :: Nearest(QuantizedWeights(), 0, f) <==> f == 1
    ensures !HasNearest(QuantizedWeights(), 2)
  {
    forall f: nat ensures Nearest(QuantizedWeights(), 0, f) <==> f == 1 {
      NearestAboveLayer(f);
    }
    forall f: nat ensures !Nearest(QuantizedWeights(), 2, f) {
      NothingNearestAboveWeights(f);
    }
  }

  /** Nodes are marked when popped, not when pushed, so one node can be reported twice. */
  lemma DuplicatesOccur()
    ensures WellFormed(SharedInput()) && ParentsPending(SharedInput(), {}, [] + [0])
    ensures Search(SharedInput(), {}, [] + [0]) == [1, 1]
  {
    SharedInputExpands();
    SearchUnfolds(SharedInput(), {}, [], 0);
    assert {} + {0} == {0};
    BothCopiesReported(SharedInput());
  }

  ghost predicate HasNearest(g: Graph, p: nat)
    requires WellFormed(g)
  {
    exists f: nat :: Nearest(g, p, f)
  }

  ghost predicate NearestFromAny(g: Graph, parents: seq<nat>, upto: nat, f: nat)
    requires WellFormed(g) && upto <= |parents|
  {
    exists i: nat :: i < upto && Nearest(g, parents[i], f)
  }

  ghost predicate FindsAll(g: Graph, parents: seq<nat>, upto: nat, result: seq<nat>)
    requires WellFormed(g) && upto <= |parents|
  {
    forall f: nat :: f in result <==> NearestFromAny(g, parents, upto, f)
  }

  lemma FindsOneMore(g: Graph, parents: seq<nat>, i: nat, result: seq<nat>, more: seq<nat>)
    requires WellFormed(g) && i < |parents| && FindsAll(g, parents, i, result)
    requires forall f: nat :: f in more <==> Nearest(g, parents[i], f)
    ensures FindsAll(g, parents, i + 1, result + more)
  {
    forall f: nat ensures f in result + more <==> NearestFromAny(g, parents, i + 1, f) {
      if f in more {
        assert Nearest(g, parents[i], f);
      } else if f in result {
        var j: nat :| j < i && Nearest(g, parents[j], f);
        assert Nearest(g, parents[j], f);
      } else {
        assert !Nearest(g, parents[i], f) && !NearestFromAny(g, parents, i, f);
      }
    }
  }

  method FeedersOf(g: Graph, parent: nat) returns (tmp: seq<nat>)
    requires WellFormed(g) && parent < |g|
    ensures forall f: nat :: f in tmp <==> Nearest(g, parent, f)
    ensures tmp != [] <==> HasNearest(g, parent)
  {
    tmp := GetAnyInputsFQ(g, parent);
    if tmp != [] {
      assert tmp[0] in tmp && Nearest(g, parent, tmp[0]);
    }
  }

  /** The FakeQuantize nodes feeding `node`: those of all its inputs, unless some input has none. */
  method GetInputsFQ(g: Graph, node: nat) returns (result: seq<nat>)
    requires WellFormed(g) && node < |g|
    ensures forall f: nat :: f in result <==>
              && (exists p :: p in g[node].parents && Nearest(g, p, f))
              && (forall p | p in g[node].parents :: HasNearest(g, p))
  {
    result := [];
    var parents := g[node].parents;
    for i := 0 to |parents|
      invariant forall j | 0 <= j < i :: HasNearest(g, parents[j])
      invariant FindsAll(g, parents, i, result)
    {
      var tmp := FeedersOf(g, parents[i]);
      if |tmp| > 0 {
        FindsOneMore(g, parents, i, result, tmp);
        result := result + tmp;
      } else {
        return [];
      }
    }
  }
}
