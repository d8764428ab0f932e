/** Cloning a prefix of a network into a network of its own. */
module SubNetwork {
  import opened Wrappers

  /** One output of a node. */
  datatype Port = Port(node: nat, index: nat)

  /** `Operation` carries whatever identifies the operation and its attributes. */
  datatype Op = Parameter | Output | Operation(kind: nat)

  datatype Node = Node(op: Op, inputs: seq<Port>, outputs: nat, name: string)

  /** All nodes there are, oldest first: a node can only be made from nodes that exist. */
  type Arena = seq<Node>

  predicate WellFormed(g: Arena) {
    forall n, i | 0 <= n < |g| && 0 <= i < |g[n].inputs| :: g[n].inputs[i].node < n
  }

  // ---- meaning ----

  /** What an operation of a kind computes at one of its outputs. */
  type Semantics<!V> = (nat, seq<V>, nat) -> V

  /** The value at a port, given the values of the parameters. */
  function Eval<V>(g: Arena, sem: Semantics<V>, env: nat -> V, n: nat, index: nat): V
    requires WellFormed(g) && n < |g|
    decreases n
  {
    match g[n].op
    case Parameter => env(n)
    case Operation(kind) => sem(kind, EvalInputs(g, sem, env, n), index)
    case Output => if |g[n].inputs| == 1 then Eval(g, sem, env, g[n].inputs[0].node, g[n].inputs[0].index) else env(n)
  }

  function EvalInputs<V>(g: Arena, sem: Semantics<V>, env: nat -> V, n: nat): seq<V>
    requires WellFormed(g) && n < |g|
    decreases n, 0
  {
    seq(|g[n].inputs|, i requires 0 <= i < |g[n].inputs| =>
      Eval(g, sem, env, g[n].inputs[i].node, g[n].inputs[i].index))
  }

  // ---- copies ----

  type NodeMap = map<nat, nat>

  /** Node `copy` is what `base` becomes when every input is taken from the map. */
  predicate IsCopy(g: Arena, nodeMap: NodeMap, base: nat, copy: nat)
    requires base < |g| && copy < |g|
  {
    && g[copy].op == g[base].op && g[copy].outputs == g[base].outputs && g[copy].name == g[base].name
    && |g[copy].inputs| == (if g[base].op.Parameter? then 0 else |g[base].inputs|)
    && forall i | 0 <= i < |g[copy].inputs| ::
         g[base].inputs[i].node in nodeMap
         && g[copy].inputs[i] == Port(nodeMap[g[base].inputs[i].node], g[base].inputs[i].index)
  }

  /** The arena has `bound` base nodes; the map sends base nodes to fresh copies of themselves, and nothing fresh
      uses anything that is not. */
  predicate Cloned(g: Arena, bound: nat, nodeMap: NodeMap) {
    && WellFormed(g) && bound <= |g|
    && (forall b | b in nodeMap ::
          b < bound <= nodeMap[b] < |g| && IsCopy(g, nodeMap, b, nodeMap[b]) && !g[b].op.Output?)
    && (forall n, i | bound <= n < |g| && 0 <= i < |g[n].inputs| :: g[n].inputs[i].node >= bound)
  }

  /** The clone is given for each parameter what the base is given. */
  ghost predicate SameArguments<V>(g: Arena, nodeMap: NodeMap, env: nat -> V, env': nat -> V) {
    forall b | b in nodeMap && b < |g| && g[b].op.Parameter? :: env'(nodeMap[b]) == env(b)
  }

  /** Under every semantics and every choice of parameters, a copy has the value of its base at every output. */
  lemma {:induction false} CopyHasSameValue<V>(
      g: Arena, bound: nat, nodeMap: NodeMap, sem: Semantics<V>, env: nat -> V, env': nat -> V,
      base: nat, copy: nat, index: nat)
    requires Cloned(g, bound, nodeMap) && SameArguments(g, nodeMap, env, env')
    requires base < bound <= copy < |g| && IsCopy(g, nodeMap, base, copy) && g[base].op.Operation?
    ensures Eval(g, sem, env', copy, index) == Eval(g, sem, env, base, index)
    decreases base
  {
    var mapped, given := EvalInputs(g, sem, env', copy), EvalInputs(g, sem, env, base);
    forall i | 0 <= i < |mapped| ensures mapped[i] == given[i] {
      var source := g[base].inputs[i];
      assert g[copy].inputs[i] == Port(nodeMap[source.node], source.index);
      assert IsCopy(g, nodeMap, source.node, nodeMap[source.node]);
      if g[source.node].op.Operation? {
        CopyHasSameValue(g, bound, nodeMap, sem, env, env', source.node, nodeMap[source.node], source.index);
      } else {
        assert Eval(g, sem, env', nodeMap[source.node], source.index) == env'(nodeMap[source.node]) == env(source.node);
      }
      assert mapped[i] == Eval(g, sem, env', nodeMap[source.node], source.index);
      assert given[i] == Eval(g, sem, env, source.node, source.index);
    }
    assert mapped == given;
  }

  /** Adding a node on top changes the value of no other. */
  lemma {:induction false} EvalOfPrefix<V>(
      g: Arena, longer: Arena, sem: Semantics<V>, env: nat -> V, n: nat, index: nat)
    requires WellFormed(longer) && g <= longer && n < |g|
    ensures WellFormed(g) && Eval(g, sem, env, n, index) == Eval(longer, sem, env, n, index)
    decreases n
  {
    assert forall m | 0 <= m < |g| :: g[m] == longer[m];
    forall i | 0 <= i < |g[n].inputs| {
      EvalOfPrefix(g, longer, sem, env, g[n].inputs[i].node, g[n].inputs[i].index);
    }
    assert EvalInputs(g, sem, env, n) == EvalInputs(longer, sem, env, n);
  }

  // ---- the method ----

  datatype CloneError = NoNodes | SourceNotCloned(node: nat)

  datatype Function = Function(results: seq<nat>, parameters: seq<nat>, name: string)

  predicate SourcesAmong(g: Arena, n: nat, known: set<nat>)
    requires n < |g|
  {
    forall i | 0 <= i < |g[n].inputs| :: g[n].inputs[i].node in known
  }

  function Among(parameters: seq<nat>, baseNodes: seq<nat>): set<nat> {
    (set p | p in parameters) + (set b | b in baseNodes)
  }

  /** Every node's sources are parameters or listed before it. */
  predicate ClosedPrefix(g: Arena, parameters: seq<nat>, baseNodes: seq<nat>)
    requires forall k | 0 <= k < |baseNodes| :: baseNodes[k] < |g|
  {
    forall k | 0 <= k < |baseNodes| :: SourcesAmong(g, baseNodes[k], Among(parameters, baseNodes[..k]))
  }

  function Extend(nodeMap: NodeMap, b: nat, copy: nat): NodeMap {
    if b in nodeMap then nodeMap else nodeMap[b := copy]
  }

  lemma AppendKeepsCloned(g: Arena, bound: nat, nodeMap: NodeMap, node: Node)
    requires Cloned(g, bound, nodeMap) && forall i | 0 <= i < |node.inputs| :: bound <= node.inputs[i].node < |g|
    ensures Cloned(g + [node], bound, nodeMap)
  {
    var longer := g + [node];
    forall b | b in nodeMap ensures IsCopy(longer, nodeMap, b, nodeMap[b]) {
      assert IsCopy(g, nodeMap, b, nodeMap[b]);
      assert longer[b] == g[b] && longer[nodeMap[b]] == g[nodeMap[b]];
    }
  }

  lemma ExtendKeepsCloned(g: Arena, bound: nat, nodeMap: NodeMap, b: nat, copy: nat)
    requires Cloned(g, bound, nodeMap) && b < bound <= copy < |g| && IsCopy(g, nodeMap, b, copy) && !g[b].op.Output?
    ensures Cloned(g, bound, Extend(nodeMap, b, copy)) && IsCopy(g, Extend(nodeMap, b, copy), b, copy)
  {
    var larger := Extend(nodeMap, b, copy);
    forall c | c in larger ensures IsCopy(g, larger, c, larger[c]) {
      assert c in nodeMap ==> IsCopy(g, nodeMap, c, nodeMap[c]);
    }
  }

  /** Copies one operation; fails on the first source that has no copy. */
  method CopyNode(g: Arena, ghost bound: nat, nodeMap: NodeMap, b: nat) returns (r: Result<Arena, CloneError>)
    requires Cloned(g, bound, nodeMap) && b < bound && g[b].op.Operation?
    ensures r.Ok? <==> SourcesAmong(g, b, nodeMap.Keys)
    ensures r.Ok? ==> && |r.value| == |g| + 1 && g <= r.value && Cloned(r.value, bound, nodeMap)
                      && IsCopy(r.value, nodeMap, b, |g|)
  {
    var newInputs := [];
    for i := 0 to |g[b].inputs|
      invariant |newInputs| == i
      invariant forall k | 0 <= k < i :: g[b].inputs[k].node in nodeMap
                  && newInputs[k] == Port(nodeMap[g[b].inputs[k].node], g[b].inputs[k].index)
    {
      var source := g[b].inputs[i];
      if source.node !in nodeMap {
        return Err(SourceNotCloned(source.node));
      }
      newInputs := newInputs + [Port(nodeMap[source.node], source.index)];
    }
    AppendKeepsCloned(g, bound, nodeMap, Node(g[b].op, newInputs, g[b].outputs, g[b].name));
    return Ok(g + [Node(g[b].op, newInputs, g[b].outputs, g[b].name)]);
  }

  predicate AreParameters(g: Arena, parameters: seq<nat>) {
    forall i | 0 <= i < |parameters| :: parameters[i] < |g| && g[parameters[i]].op.Parameter?
  }

  /** The copies of the parameters, in order; the map sends a parameter to the copy of its first occurrence. */
  predicate ParametersCopied(bound: nat, g: Arena, nodeMap: NodeMap, parameters: seq<nat>, copies: seq<nat>) {
    && |copies| == |parameters| && AreParameters(g, parameters) && AreParameters(g, copies)
    && (forall i | 0 <= i < |copies| :: bound <= copies[i])
    && (forall i | 0 <= i < |copies| :: g[copies[i]].name == g[parameters[i]].name)
    && (forall i | 0 <= i < |copies| :: parameters[i] in nodeMap)
    && (forall p | p in nodeMap && p < |g| && g[p].op.Parameter? :: FirstCopy(nodeMap, parameters, copies, p))
  }

  predicate FirstCopy(nodeMap: NodeMap, parameters: seq<nat>, copies: seq<nat>, p: nat)
    requires |copies| == |parameters| && p in nodeMap
  {
    exists i :: 0 <= i < |parameters| && parameters[i] == p && copies[i] == nodeMap[p]
  }

  method CopyParameter(g: Arena, ghost bound: nat, nodeMap: NodeMap, p: nat) returns (longer: Arena, larger: NodeMap)
    requires Cloned(g, bound, nodeMap) && p < bound && g[p].op.Parameter?
    ensures |longer| == |g| + 1 && g <= longer && Cloned(longer, bound, larger) && larger == Extend(nodeMap, p, |g|)
    ensures longer[|g|].op.Parameter? && longer[|g|].name == g[p].name
  {
    var node := Node(Parameter, [], g[p].outputs, g[p].name);
    AppendKeepsCloned(g, bound, nodeMap, node);
    longer := g + [node];
    ExtendKeepsCloned(longer, bound, nodeMap, p, |g|);
    larger := Extend(nodeMap, p, |g|);
  }

  lemma NextParameterCopied(
      bound: nat, g: Arena, nodeMap: NodeMap, parameters: seq<nat>, copies: seq<nat>,
      longer: Arena, larger: NodeMap, p: nat)
    requires ParametersCopied(bound, g, nodeMap, parameters, copies) && bound <= |g| && p < |g| && g[p].op.Parameter?
    requires g <= longer && |longer| == |g| + 1 && larger == Extend(nodeMap, p, |g|)
    requires longer[|g|].op.Parameter? && longer[|g|].name == g[p].name && forall q | q in nodeMap :: q < |g|
    ensures ParametersCopied(bound, longer, larger, parameters + [p], copies + [|g|])
  {
    assert forall n | 0 <= n < |g| :: longer[n] == g[n];
    forall q | q in larger && q < |longer| && longer[q].op.Parameter?
      ensures FirstCopy(larger, parameters + [p], copies + [|g|], q)
    {
      if q in nodeMap {
        assert FirstCopy(nodeMap, parameters, copies, q);
        var i :| 0 <= i < |parameters| && parameters[i] == q && copies[i] == nodeMap[q];
        assert (parameters + [p])[i] == q && (copies + [|g|])[i] == larger[q];
      } else {
        assert (parameters + [p])[|parameters|] == q && (copies + [|g|])[|parameters|] == larger[q];
      }
    }
  }

  /** What the loop over parameters has made of the first of them. */
  predicate ParametersDone(start: Arena, g: Arena, nodeMap: NodeMap, parameters: seq<nat>, copies: seq<nat>) {
    && start <= g && Cloned(g, |start|, nodeMap) && nodeMap.Keys == Among(parameters, [])
    && ParametersCopied(|start|, g, nodeMap, parameters, copies)
  }

  /** The body of the loop over parameters. */
  method CopyNextParameter(
      ghost start: Arena, g: Arena, nodeMap: NodeMap, ghost before: seq<nat>, copies: seq<nat>, p: nat)
    returns (state: (Arena, NodeMap, seq<nat>))
    requires ParametersDone(start, g, nodeMap, before, copies) && p < |start| && start[p].op.Parameter?
    ensures ParametersDone(start, state.0, state.1, before + [p], state.2)
  {
    assert g[p] == start[p];
    var longer, larger := CopyParameter(g, |start|, nodeMap, p);
    NextParameterCopied(|start|, g, nodeMap, before, copies, longer, larger, p);
    AmongNext(before, p);
    return (longer, larger, copies + [|g|]);
  }

  method CopyParameters(start: Arena, parameters: seq<nat>) returns (state: (Arena, NodeMap, seq<nat>))
    requires WellFormed(start) && AreParameters(start, parameters)
    ensures ParametersDone(start, state.0, state.1, parameters, state.2)
  {
    state := (start, map[], []);
    for i := 0 to |parameters|
      invariant ParametersDone(start, state.0, state.1, parameters[..i], state.2)
    {
      assert parameters[..i + 1] == parameters[..i] + [parameters[i]];
      state := CopyNextParameter(start, state.0, state.1, parameters[..i], state.2, parameters[i]);
    }
    assert parameters[..|parameters|] == parameters;
  }

  lemma AmongNext(parameters: seq<nat>, p: nat)
    ensures Among(parameters + [p], []) == Among(parameters, []) + {p}
  {
  }

  // ---- the whole clone ----

  predicate AreOperations(g: Arena, baseNodes: seq<nat>) {
    forall k | 0 <= k < |baseNodes| :: baseNodes[k] < |g| && g[baseNodes[k]].op.Operation?
  }

  lemma PrefixKeepsParameters(
      bound: nat, g: Arena, longer: Arena, nodeMap: NodeMap, larger: NodeMap, parameters: seq<nat>, copies: seq<nat>)
    requires ParametersCopied(bound, g, nodeMap, parameters, copies) && g <= longer && nodeMap.Keys <= larger.Keys
    requires forall q | q in larger :: q < |g| && if q in nodeMap then larger[q] == nodeMap[q] else !g[q].op.Parameter?
    ensures ParametersCopied(bound, longer, larger, parameters, copies)
  {
    assert forall n | 0 <= n < |g| :: longer[n] == g[n];
    forall q | q in larger && q < |longer| && longer[q].op.Parameter? ensures FirstCopy(larger, parameters, copies, q) {
      assert FirstCopy(nodeMap, parameters, copies, q);
    }
  }

  lemma CopyStaysCopy(g: Arena, longer: Arena, nodeMap: NodeMap, larger: NodeMap, base: nat, copy: nat)
    requires base < |g| && copy < |g| && g <= longer && IsCopy(g, nodeMap, base, copy)
    requires forall b | b in nodeMap :: b in larger && larger[b] == nodeMap[b]
    ensures IsCopy(longer, larger, base, copy)
  {
    assert longer[base] == g[base] && longer[copy] == g[copy];
  }

  /** Each of these base nodes has its copy, and the map knows no more than them and the parameters. */
  predicate NodesCopied(
    g: Arena, bound: nat, nodeMap: NodeMap, parameters: seq<nat>, baseNodes: seq<nat>, newNodes: seq<nat>)
  {
    && Cloned(g, bound, nodeMap) && nodeMap.Keys == Among(parameters, baseNodes)
    && |newNodes| == |baseNodes| && AreCopies(g, bound, nodeMap, baseNodes, newNodes)
  }

  lemma NextNodeCopied(
      g: Arena, bound: nat, nodeMap: NodeMap, parameters: seq<nat>, baseNodes: seq<nat>, newNodes: seq<nat>,
      longer: Arena, b: nat)
    requires NodesCopied(g, bound, nodeMap, parameters, baseNodes, newNodes)
    requires b < bound && g[b].op.Operation? && |longer| == |g| + 1 && g <= longer
    requires Cloned(longer, bound, nodeMap) && IsCopy(longer, nodeMap, b, |g|)
    ensures NodesCopied(longer, bound, Extend(nodeMap, b, |g|), parameters, baseNodes + [b], newNodes + [|g|])
  {
    var larger := Extend(nodeMap, b, |g|);
    assert longer[b] == g[b];
    ExtendKeepsCloned(longer, bound, nodeMap, b, |g|);
    CopiesStayCopies(g, bound, longer, nodeMap, larger, baseNodes, newNodes);
    AmongNextNode(parameters, baseNodes, b);
  }

  lemma AmongNextNode(parameters: seq<nat>, baseNodes: seq<nat>, b: nat)
    ensures Among(parameters, baseNodes + [b]) == Among(parameters, baseNodes) + {b}
  {
  }

  predicate AreCopies(g: Arena, bound: nat, nodeMap: NodeMap, baseNodes: seq<nat>, newNodes: seq<nat>)
    requires |newNodes| == |baseNodes|
  {
    forall j | 0 <= j < |baseNodes| ::
      baseNodes[j] < bound <= newNodes[j] < |g| && IsCopy(g, nodeMap, baseNodes[j], newNodes[j])
  }

  lemma CopiesStayCopies(
      g: Arena, bound: nat, longer: Arena, nodeMap: NodeMap, larger: NodeMap, baseNodes: seq<nat>, newNodes: seq<nat>)
    requires |newNodes| == |baseNodes| && bound <= |g|
    requires AreCopies(g, bound, nodeMap, baseNodes, newNodes) && g <= longer
    requires forall b | b in nodeMap :: b in larger && larger[b] == nodeMap[b]
    ensures AreCopies(longer, bound, larger, baseNodes, newNodes)
  {
    forall j | 0 <= j < |baseNodes| ensures IsCopy(longer, larger, baseNodes[j], newNodes[j]) {
      CopyStaysCopy(g, longer, nodeMap, larger, baseNodes[j], newNodes[j]);
    }
  }

  lemma ClosedPrefixNext(g: Arena, parameters: seq<nat>, baseNodes: seq<nat>, k: nat)
    requires k < |baseNodes| && forall j | 0 <= j < |baseNodes| :: baseNodes[j] < |g|
    ensures ClosedPrefix(g, parameters, baseNodes[..k + 1]) <==>
            && ClosedPrefix(g, parameters, baseNodes[..k])
            && SourcesAmong(g, baseNodes[k], Among(parameters, baseNodes[..k]))
  {
    assert forall j | 0 <= j <= k :: baseNodes[..k + 1][..j] == baseNodes[..j];
    assert forall j | 0 <= j < k :: baseNodes[..k][..j] == baseNodes[..j];
    assert baseNodes[..k + 1][k] == baseNodes[k];
  }

  lemma ClosedPrefixOfPrefix(g: Arena, parameters: seq<nat>, baseNodes: seq<nat>, k: nat)
    requires k <= |baseNodes| && forall j | 0 <= j < |baseNodes| :: baseNodes[j] < |g|
    ensures ClosedPrefix(g, parameters, baseNodes) ==> ClosedPrefix(g, parameters, baseNodes[..k])
  {
    assert forall j | 0 <= j < k :: baseNodes[..k][..j] == baseNodes[..j];
  }

  /** The body of the loop over base nodes. */
  method CopyNext(g: Arena, ghost bound: nat, nodeMap: NodeMap, b: nat, newNodes: seq<nat>,
                  ghost parameters: seq<nat>, ghost copies: seq<nat>, ghost before: seq<nat>)
    returns (r: Result<(Arena, NodeMap, seq<nat>), CloneError>)
    requires NodesCopied(g, bound, nodeMap, parameters, before, newNodes)
    requires ParametersCopied(bound, g, nodeMap, parameters, copies)
    requires b < bound && g[b].op.Operation?
    ensures r.Ok? <==> SourcesAmong(g, b, Among(parameters, before))
    ensures r.Ok? ==>
              && g <= r.value.0 && NodesCopied(r.value.0, bound, r.value.1, parameters, before + [b], r.value.2)
              && ParametersCopied(bound, r.value.0, r.value.1, parameters, copies)
  {
    var copied := CopyNode(g, bound, nodeMap, b);
    if copied.Err? {
      return Err(copied.error);
    }
    NextNodeCopied(g, bound, nodeMap, parameters, before, newNodes, copied.value, b);
    PrefixKeepsParameters(bound, g, copied.value, nodeMap, Extend(nodeMap, b, |g|), parameters, copies);
    return Ok((copied.value, Extend(nodeMap, b, |g|), newNodes + [|g|]));
  }

  method CopyNodes(start: Arena, ghost bound: nat, startMap: NodeMap, baseNodes: seq<nat>, ghost parameters: seq<nat>,
                   ghost copies: seq<nat>)
    returns (r: Result<(Arena, NodeMap, seq<nat>), CloneError>)
    requires NodesCopied(start, bound, startMap, parameters, [], [])
    requires ParametersCopied(bound, start, startMap, parameters, copies)
    requires AreOperations(start, baseNodes) && forall k | 0 <= k < |baseNodes| :: baseNodes[k] < bound
    ensures r.Ok? <==> ClosedPrefix(start, parameters, baseNodes)
    ensures r.Ok? ==>
              && start <= r.value.0 && NodesCopied(r.value.0, bound, r.value.1, parameters, baseNodes, r.value.2)
              && ParametersCopied(bound, r.value.0, r.value.1, parameters, copies)
  {
    var state: (Arena, NodeMap, seq<nat>) := (start, startMap, []);
    for k := 0 to |baseNodes|
      invariant start <= state.0 && NodesCopied(state.0, bound, state.1, parameters, baseNodes[..k], state.2)
      invariant ParametersCopied(bound, state.0, state.1, parameters, copies)
      invariant ClosedPrefix(start, parameters, baseNodes[..k])
    {
      var b: nat := baseNodes[k];
      assert state.0[b] == start[b];
      var next := CopyNext(state.0, bound, state.1, b, state.2, parameters, copies, baseNodes[..k]);
      ClosedPrefixNext(start, parameters, baseNodes, k);
      if next.Err? {
        ClosedPrefixOfPrefix(start, parameters, baseNodes, k + 1);
        return Err(next.error);
      }
      assert baseNodes[..k + 1] == baseNodes[..k] + [b];
      state := next.value;
    }
    assert baseNodes[..|baseNodes|] == baseNodes;
    return Ok(state);
  }

  /** The clone of a prefix, as a network: it shares nothing with the base, its parameters are copies of the
      base's in order, and result `k` passes on output `k` of a copy of the last base node. */
  predicate IsCloneOf(
      start: Arena, g: Arena, parameters: seq<nat>, baseNodes: seq<nat>, f: Function, last: nat, nodeMap: NodeMap)
  {
    && start <= g && Cloned(g, |start|, nodeMap)
    && ParametersCopied(|start|, g, nodeMap, parameters, f.parameters)
    && baseNodes != [] && baseNodes[|baseNodes| - 1] < |start| <= last < |g|
    && IsCopy(g, nodeMap, baseNodes[|baseNodes| - 1], last)
    && |f.results| == g[last].outputs
    && (forall k | 0 <= k < |f.results| ::
          |start| <= f.results[k] < |g| && g[f.results[k]] == Node(Output, [Port(last, k)], 1, ""))
  }

  /** Clones `baseNodes` over copies of `parameters`.  It fails exactly when there is nothing to clone or some
      node uses one that is neither a parameter nor listed before it. */
  method BuildFunc(start: Arena, name: string, parameters: seq<nat>, baseNodes: seq<nat>)
    returns (r: Result<Function, CloneError>, g: Arena, ghost last: nat, ghost nodeMap: NodeMap)
    requires WellFormed(start) && AreParameters(start, parameters) && AreOperations(start, baseNodes)
    ensures r.Ok? <==> baseNodes != [] && ClosedPrefix(start, parameters, baseNodes)
    ensures r.Ok? ==> r.value.name == name && IsCloneOf(start, g, parameters, baseNodes, r.value, last, nodeMap)
  {
    g, last, nodeMap := start, 0, map[];
    if baseNodes == [] {
      return Err(NoNodes), g, last, nodeMap;
    }
    var prepared := CopyParameters(start, parameters);
    ClosedPrefixInPrefix(start, prepared.0, parameters, baseNodes);
    var copied := CopyNodes(prepared.0, |start|, prepared.1, baseNodes, parameters, prepared.2);
    if copied.Err? {
      return Err(copied.error), g, last, nodeMap;
    }
    var f;
    f, g, last := FinishClone(start, name, copied.value, parameters, prepared.2, baseNodes);
    nodeMap := copied.value.1;
    r := Ok(f);
  }

  method FinishClone(ghost start: Arena, name: string, copied: (Arena, NodeMap, seq<nat>), ghost parameters: seq<nat>,
                     newParameters: seq<nat>, ghost baseNodes: seq<nat>)
    returns (f: Function, g: Arena, ghost last: nat)
    requires start <= copied.0
    requires NodesCopied(copied.0, |start|, copied.1, parameters, baseNodes, copied.2) && baseNodes != []
    requires ParametersCopied(|start|, copied.0, copied.1, parameters, newParameters)
    ensures f.name == name && IsCloneOf(start, g, parameters, baseNodes, f, last, copied.1)
  {
    var lastNode := copied.2[|copied.2| - 1];
    ghost var base := baseNodes[|baseNodes| - 1];
    assert IsCopy(copied.0, copied.1, base, lastNode);
    var results;
    g, results := AddResults(copied.0, |start|, copied.1, lastNode, parameters, newParameters);
    CopyStaysCopy(copied.0, g, copied.1, copied.1, base, lastNode);
    f, last := Function(results, newParameters, name), lastNode;
  }

  lemma ClosedPrefixInPrefix(g: Arena, longer: Arena, parameters: seq<nat>, baseNodes: seq<nat>)
    requires g <= longer && forall k | 0 <= k < |baseNodes| :: baseNodes[k] < |g|
    ensures ClosedPrefix(longer, parameters, baseNodes) <==> ClosedPrefix(g, parameters, baseNodes)
  {
    assert forall k | 0 <= k < |baseNodes| :: longer[baseNodes[k]] == g[baseNodes[k]];
  }

  function Digit(d: nat): (c: char)
    requires d < 10
    ensures '0' <= c <= '9' && c as int - '0' as int == d
  {
    ('0' as int + d) as char
  }

  function Decimal(n: nat): string {
    (if n < 10 then "" else Decimal(n / 10)) + [Digit(n % 10)]
  }

  /** The number a text of digits stands for. */
  function DecimalValue(digits: string): int {
    if digits == "" then 0
    else 10 * DecimalValue(digits[..|digits| - 1]) + (digits[|digits| - 1] as int - '0' as int)
  }

  lemma ValueNext(digits: string, d: nat)
    requires d < 10
    ensures DecimalValue(digits + [Digit(d)]) == 10 * DecimalValue(digits) + d
  {
    assert (digits + [Digit(d)])[..|digits|] == digits;
  }

  lemma {:induction false} DecimalStandsForIt(n: nat)
    ensures Decimal(n) != "" && DecimalValue(Decimal(n)) == n
    ensures n > 0 ==> Decimal(n)[0] != '0'
  {
    if n >= 10 {
      DecimalStandsForIt(n / 10);
      ValueNext(Decimal(n / 10), n % 10);
    } else {
      ValueNext("", n);
    }
  }

  /** The name of the only output is the node's; otherwise it is followed by the output's number. */
  lemma ResultNameIs(node: Node, k: nat)
    ensures node.outputs == 1 ==> ResultName(node, k) == node.name
    ensures node.outputs != 1 ==>
              && |node.name| < |ResultName(node, k)| && ResultName(node, k)[..|node.name|] == node.name
              && ResultName(node, k)[|node.name|] == '_'
              && ResultName(node, k)[|node.name| + 1..] != ""
              && DecimalValue(ResultName(node, k)[|node.name| + 1..]) == k
  {
    DecimalStandsForIt(k);
    if node.outputs != 1 {
      assert ResultName(node, k)[|node.name| + 1..] == Decimal(k);
    }
  }

  function ResultName(node: Node, k: nat): string {
    if node.outputs == 1 then node.name else node.name + "_" + Decimal(k)
  }

  /** One result for each output of the last node.  The original gives a result the node's name and then makes
      another, unnamed one, and it is the unnamed one it keeps. */
  method AddResults(start: Arena, ghost bound: nat, ghost nodeMap: NodeMap, lastNode: nat,
                    ghost parameters: seq<nat>, ghost copies: seq<nat>)
    returns (g: Arena, results: seq<nat>)
    requires Cloned(start, bound, nodeMap) && bound <= lastNode < |start|
    requires ParametersCopied(bound, start, nodeMap, parameters, copies)
    ensures start <= g && Cloned(g, bound, nodeMap) && ParametersCopied(bound, g, nodeMap, parameters, copies)
    ensures |results| == start[lastNode].outputs
    ensures forall k | 0 <= k < |results| ::
              bound <= results[k] < |g| && g[results[k]] == Node(Output, [Port(lastNode, k)], 1, "")
    ensures forall k | 0 <= k < |results| ::
              bound < results[k]
                  && g[results[k] - 1] == Node(Output, [Port(lastNode, k)], 1, ResultName(start[lastNode], k))
  {
    g, results := start, [];
    for k := 0 to start[lastNode].outputs
      invariant start <= g && Cloned(g, bound, nodeMap) && |results| == k
      invariant forall j | 0 <= j < k ::
                  bound <= results[j] < |g| && g[results[j]] == Node(Output, [Port(lastNode, j)], 1, "")
      invariant forall j | 0 <= j < k ::
                  bound < results[j]
                  && g[results[j] - 1] == Node(Output, [Port(lastNode, j)], 1, ResultName(start[lastNode], j))
    {
      var named := Node(Output, [Port(lastNode, k)], 1, ResultName(start[lastNode], k));
      AppendKeepsCloned(g, bound, nodeMap, named);
      g := g + [named];
      var unnamed := Node(Output, [Port(lastNode, k)], 1, "");
      AppendKeepsCloned(g, bound, nodeMap, unnamed);
      results := results + [|g|];
      g := g + [unnamed];
    }
    PrefixKeepsParameters(bound, start, g, nodeMap, nodeMap, parameters, copies);
  }

  /** Under every semantics and all arguments, result `k` of the clone is output `k` of the last base node. */
  lemma CloneComputesLastNode<V>(
      start: Arena, g: Arena, parameters: seq<nat>, baseNodes: seq<nat>, f: Function, last: nat, nodeMap: NodeMap,
      sem: Semantics<V>, env: nat -> V, env': nat -> V, k: nat)
    requires IsCloneOf(start, g, parameters, baseNodes, f, last, nodeMap) && AreOperations(start, baseNodes)
    requires forall i | 0 <= i < |parameters| :: env'(f.parameters[i]) == env(parameters[i])
    requires k < |f.results|
    ensures WellFormed(start)
    ensures Eval(g, sem, env', f.results[k], 0) == Eval(start, sem, env, baseNodes[|baseNodes| - 1], k)
  {
    var base := baseNodes[|baseNodes| - 1];
    assert g[base] == start[base];
    forall p | p in nodeMap && p < |g| && g[p].op.Parameter? ensures env'(nodeMap[p]) == env(p) {
      assert FirstCopy(nodeMap, parameters, f.parameters, p);
    }
    CopyHasSameValue(g, |start|, nodeMap, sem, env, env', base, last, k);
    EvalOfPrefix(start, g, sem, env, base, k);
  }

  // ---- growing prefixes ----

  /** Every node is listed after its sources, and nothing takes its input from a result. */
  predicate Topological(g: Arena, ordered: seq<nat>) {
    forall k | 0 <= k < |ordered| :: ordered[k] < |g| && SourcesBefore(g, ordered, k)
  }

  predicate SourcesBefore(g: Arena, ordered: seq<nat>, k: nat)
    requires k < |ordered| && ordered[k] < |g|
  {
    forall i | 0 <= i < |g[ordered[k]].inputs| ::
      var source := g[ordered[k]].inputs[i].node;
      source in ordered[..k] && source < |g| && !g[source].op.Output?
  }

  /** What the loop over the ordered operations has collected: neither parameters nor results. */
  function Kept(g: Arena, ordered: seq<nat>): (r: seq<nat>)
    requires forall k | 0 <= k < |ordered| :: ordered[k] < |g|
    ensures AreOperations(g, r)
    ensures forall n | n in ordered && g[n].op.Operation? :: n in r
  {
    if ordered == [] then [] else
    var last := ordered[|ordered| - 1];
    assert ordered == ordered[..|ordered| - 1] + [last];
    Kept(g, ordered[..|ordered| - 1]) + if g[last].op.Operation? then [last] else []
  }

  lemma TopologicalPrefix(g: Arena, ordered: seq<nat>, n: nat)
    requires Topological(g, ordered) && n <= |ordered|
    ensures Topological(g, ordered[..n])
  {
    forall k | 0 <= k < n ensures SourcesBefore(g, ordered[..n], k) {
      assert ordered[..n][..k] == ordered[..k] && SourcesBefore(g, ordered, k);
    }
  }

  lemma KeptSourcesKnown(g: Arena, parameters: seq<nat>, before: seq<nat>, last: nat)
    requires forall k | 0 <= k < |before| :: before[k] < |g|
    requires last < |g| && SourcesBefore(g, before + [last], |before|)
    requires forall n | n in before && g[n].op.Parameter? :: n in parameters
    ensures SourcesAmong(g, last, Among(parameters, Kept(g, before)))
  {
    assert (before + [last])[..|before|] == before && (before + [last])[|before|] == last;
    forall i | 0 <= i < |g[last].inputs|
      ensures g[last].inputs[i].node in Among(parameters, Kept(g, before))
    {
      var source := g[last].inputs[i].node;
      assert source in before && !g[source].op.Output?;
    }
  }

  /** For every prefix of a topological order that has all parameters, cloning what the loop has collected
      never misses a source. */
  lemma {:induction false} CollectedPrefixesAreClosed(g: Arena, parameters: seq<nat>, ordered: seq<nat>)
    requires Topological(g, ordered)
    requires forall n | n in ordered && g[n].op.Parameter? :: n in parameters
    ensures ClosedPrefix(g, parameters, Kept(g, ordered))
  {
    if ordered != [] {
      var before, last := ordered[..|ordered| - 1], ordered[|ordered| - 1];
      assert ordered == before + [last];
      TopologicalPrefix(g, ordered, |before|);
      CollectedPrefixesAreClosed(g, parameters, before);
      if g[last].op.Operation? {
        assert SourcesBefore(g, ordered, |before|);
        KeptSourcesKnown(g, parameters, before, last);
        ClosedPrefixGrows(g, parameters, Kept(g, before), last);
        assert Kept(g, ordered) == Kept(g, before) + [last];
      } else {
        assert Kept(g, ordered) == Kept(g, before);
      }
    }
  }

  lemma ClosedPrefixGrows(g: Arena, parameters: seq<nat>, kept: seq<nat>, b: nat)
    requires b < |g| && (forall j | 0 <= j < |kept| :: kept[j] < |g|) && ClosedPrefix(g, parameters, kept)
    requires SourcesAmong(g, b, Among(parameters, kept))
    ensures ClosedPrefix(g, parameters, kept + [b])
  {
    var all := kept + [b];
    assert all[..|kept|] == kept && all[..|kept| + 1] == all;
    ClosedPrefixNext(g, parameters, all, |kept|);
  }
}
