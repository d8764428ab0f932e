/** Many inferences of one stateful request, with the state set or cleared in between: the shared blobs make
    the request a fold of the graph over its inputs. */
module StatefulSession {
  import opened Wrappers
  import opened StateWiring
  import opened InferRequest

  /** The ports of a device graph; variable `i` is read at `sources[i]` and assigned at `sinks[i]`. */
  datatype Net = Net(ins: seq<string>, outs: seq<string>, sources: seq<string>, sinks: seq<string>)

  datatype Operation =
    | Infer(given: string -> Bytes)
    | SetState(variable: nat, value: Bytes)
    | Reset(variable: nat)

  /** What one operation lets the caller see: the outputs of an inference, or nothing. */
  datatype Seen = Outputs(values: map<string, Bytes>) | Nothing

  // ---- the specification: a fold ----

  function IndexOf(names: seq<string>, name: string): (r: Option<nat>)
    ensures r.None? <==> name !in names
    ensures r.Some? ==> r.value < |names| && names[r.value] == name
  {
    if names == [] then None
    else if names[|names| - 1] == name then Some(|names| - 1)
    else IndexOf(names[..|names| - 1], name)
  }

  /** What the graph is given: the variables' values at their names, the caller's data elsewhere. */
  function GraphInputs(net: Net, s: seq<Bytes>, given: string -> Bytes): map<string, Bytes>
    requires |s| == |net.sources|
  {
    map n | n in net.ins :: var i := IndexOf(net.sources, n); if i.Some? then s[i.value] else given(n)
  }

  function FoldStep(net: Net, g: Graph, s: seq<Bytes>, op: Operation): (r: (seq<Bytes>, Seen))
    requires |s| == |net.sources| == |net.sinks|
    ensures |r.0| == |s|
  {
    match op
    case Infer(given) =>
      var m := GraphInputs(net, s, given);
      (seq(|s|, i requires 0 <= i < |net.sinks| => g(m, net.sinks[i])), Outputs(map n | n in net.outs :: g(m, n)))
    case SetState(i, value) => (if i < |s| && |value| == |s[i]| then s[i := value] else s, Nothing)
    case Reset(i) => (if i < |s| then s[i := Zeros(|s[i]|)] else s, Nothing)
  }

  function Fold(net: Net, g: Graph, s: seq<Bytes>, ops: seq<Operation>): (r: (seq<Bytes>, seq<Seen>))
    requires |s| == |net.sources| == |net.sinks|
    ensures |r.0| == |s| && |r.1| == |ops|
  {
    if ops == [] then (s, []) else
    var before := Fold(net, g, s, ops[..|ops| - 1]);
    var last := FoldStep(net, g, before.0, ops[|ops| - 1]);
    (last.0, before.1 + [last.1])
  }

  // ---- the request ----

  /** Variable `i` owns blob `Own(i)`, bound to both its ends; no two inputs share a blob, and the caller keeps
      to OwnSlotOrOutside. */
  predicate Session(b: Bindings, net: Net) {
    && Bound(b, net.ins, net.outs) && OwnSlotOrOutside(b, net.ins, net.outs)
    && |net.sources| == |net.sinks|
    && (forall i: nat | i < |net.sources| ::
          && net.sources[i] in net.ins && b.inputs[net.sources[i]] == Own(i)
          && net.sinks[i] in net.outs && b.outputs[net.sinks[i]] == Own(i))
    && (forall n, n' | n in net.ins && n' in net.ins && n != n' :: b.inputs[n] != b.inputs[n'])
  }

  function StateOf(b: Bindings, net: Net): (s: seq<Bytes>)
    requires Session(b, net)
    ensures |s| == |net.sources|
  {
    seq(|net.sources|, i requires 0 <= i < |net.sources| => assert b.inputs[net.sources[i]] == Own(i); b.memory[Own(i)])
  }

  /** The caller fills those of its input blobs that are not state. */
  function Provide(b: Bindings, ins: seq<string>, sources: seq<string>, given: string -> Bytes): (r: Bindings)
    requires forall n | n in ins :: n in b.inputs
    ensures r.inputs == b.inputs && r.outputs == b.outputs && b.memory.Keys <= r.memory.Keys
  {
    if ins == [] then b else
    var n := ins[|ins| - 1];
    assert ins == ins[..|ins| - 1] + [n];
    var r := Provide(b, ins[..|ins| - 1], sources, given);
    if n in sources then r else Store(r, b.inputs[n], given(n))
  }

  function Observed(b: Bindings, outs: seq<string>): map<string, Bytes>
    requires forall n | n in outs :: n in b.outputs && b.outputs[n] in b.memory
  {
    map n | n in outs :: b.memory[b.outputs[n]]
  }

  function Perform(b: Bindings, net: Net, g: Graph, op: Operation): (Bindings, Seen)
    requires Session(b, net)
  {
    match op
    case Infer(given) =>
      var after := InferRequest.Infer(Provide(b, net.ins, net.sources, given), net.ins, net.outs, g);
      (after, Outputs(Observed(after, net.outs)))
    case SetState(i, value) =>
      (if i < |net.sources| && |value| == |StateOf(b, net)[i]| then Store(b, Own(i), value) else b, Nothing)
    case Reset(i) =>
      (if i < |net.sources| then Store(b, Own(i), Zeros(|StateOf(b, net)[i]|)) else b, Nothing)
  }

  lemma {:induction false} ProvideDelivers(b: Bindings, ins: seq<string>, sources: seq<string>, given: string -> Bytes)
    requires forall n | n in ins :: n in b.inputs && b.inputs[n] in b.memory
    requires forall n, n' | n in ins && n' in ins && n != n' :: b.inputs[n] != b.inputs[n']
    ensures forall n | n in ins ::
              Provide(b, ins, sources, given).memory[b.inputs[n]]
              == if n in sources then b.memory[b.inputs[n]] else given(n)
    ensures forall blob | blob in b.memory && (forall n | n in ins :: b.inputs[n] != blob) ::
              Provide(b, ins, sources, given).memory[blob] == b.memory[blob]
  {
    if ins != [] {
      var before, last := ins[..|ins| - 1], ins[|ins| - 1];
      assert ins == before + [last];
      ProvideDelivers(b, before, sources, given);
    }
  }

  /** The graph is given exactly what the fold gives it. */
  lemma {:induction false} GivenIsGraphInputs(b: Bindings, net: Net, given: string -> Bytes)
    requires Session(b, net)
    ensures Given(Provide(b, net.ins, net.sources, given), net.ins) == GraphInputs(net, StateOf(b, net), given)
  {
    var given' := Given(Provide(b, net.ins, net.sources, given), net.ins);
    var inputs := GraphInputs(net, StateOf(b, net), given);
    ProvideDelivers(b, net.ins, net.sources, given);
    forall n | n in net.ins ensures given'[n] == inputs[n] {
      GivenAt(b, net, given, n);
    }
    assert given'.Keys == inputs.Keys;
  }

  lemma GivenAt(b: Bindings, net: Net, given: string -> Bytes, n: string)
    requires Session(b, net) && n in net.ins
    ensures GraphInputs(net, StateOf(b, net), given)[n] == if n in net.sources then b.memory[b.inputs[n]] else given(n)
  {
    var i := IndexOf(net.sources, n);
    assert i.Some? ==> b.inputs[n] == Own(i.value);
  }

  lemma SameBindingsSameSession(b: Bindings, after: Bindings, net: Net)
    requires Session(b, net) && after.inputs == b.inputs && after.outputs == b.outputs
    requires b.memory.Keys <= after.memory.Keys
    ensures Session(after, net)
  {
  }

  /** What the output blobs hold is what the graph says, and the sinks among them are the new state. */
  lemma OutputsAreTheFold(after: Bindings, net: Net, g: Graph, m: map<string, Bytes>)
    requires Session(after, net)
    requires forall n | n in net.outs :: after.memory[after.outputs[n]] == g(m, n)
    ensures StateOf(after, net) == seq(|net.sinks|, i requires 0 <= i < |net.sinks| => g(m, net.sinks[i]))
    ensures Observed(after, net.outs) == map n | n in net.outs :: g(m, n)
  {
    forall i: nat | i < |net.sinks| ensures StateOf(after, net)[i] == g(m, net.sinks[i]) {
      assert after.inputs[net.sources[i]] == Own(i) && after.outputs[net.sinks[i]] == Own(i);
    }
  }

  lemma InferFolds(b: Bindings, net: Net, g: Graph, given: string -> Bytes)
    requires Session(b, net)
    ensures Session(Perform(b, net, g, Infer(given)).0, net)
    ensures StateOf(Perform(b, net, g, Infer(given)).0, net) == FoldStep(net, g, StateOf(b, net), Infer(given)).0
    ensures Perform(b, net, g, Infer(given)).1 == FoldStep(net, g, StateOf(b, net), Infer(given)).1
  {
    var p := Provide(b, net.ins, net.sources, given);
    SameBindingsSameSession(b, p, net);
    InferDelivers(p, net.ins, net.outs, g);
    GivenIsGraphInputs(b, net, given);
    var after := InferRequest.Infer(p, net.ins, net.outs, g);
    SameBindingsSameSession(p, after, net);
    OutputsAreTheFold(after, net, g, GraphInputs(net, StateOf(b, net), given));
  }

  lemma StoreKeepsSession(b: Bindings, net: Net, i: nat, data: Bytes)
    requires Session(b, net) && i < |net.sources|
    ensures Session(Store(b, Own(i), data), net)
    ensures StateOf(Store(b, Own(i), data), net) == StateOf(b, net)[i := data]
  {
    assert b.inputs[net.sources[i]] == Own(i);
  }

  lemma PerformFolds(b: Bindings, net: Net, g: Graph, op: Operation)
    requires Session(b, net)
    ensures Session(Perform(b, net, g, op).0, net)
    ensures StateOf(Perform(b, net, g, op).0, net) == FoldStep(net, g, StateOf(b, net), op).0
    ensures Perform(b, net, g, op).1 == FoldStep(net, g, StateOf(b, net), op).1
  {
    match op {
      case Infer(given) => InferFolds(b, net, g, given);
      case SetState(i, value) =>
        if i < |net.sources| {
          StoreKeepsSession(b, net, i, value);
        }
      case Reset(i) =>
        if i < |net.sources| {
          StoreKeepsSession(b, net, i, Zeros(|StateOf(b, net)[i]|));
        }
    }
  }

  // ---- whole sessions ----

  function Run(b: Bindings, net: Net, g: Graph, ops: seq<Operation>): (r: (Bindings, seq<Seen>))
    requires Session(b, net)
    ensures Session(r.0, net)
  {
    if ops == [] then (b, []) else
    var before := Run(b, net, g, ops[..|ops| - 1]);
    var last := Perform(before.0, net, g, ops[|ops| - 1]);
    PerformFolds(before.0, net, g, ops[|ops| - 1]);
    (last.0, before.1 + [last.1])
  }

  /** Over any sequence of inferences, state assignments and resets, the state the request holds and everything
      it shows are those of the fold: each inference starts from the state the previous one left, or from what
      was set or cleared in between. */
  lemma {:induction false} RequestIsAFold(b: Bindings, net: Net, g: Graph, ops: seq<Operation>)
    requires Session(b, net)
    ensures StateOf(Run(b, net, g, ops).0, net) == Fold(net, g, StateOf(b, net), ops).0
    ensures Run(b, net, g, ops).1 == Fold(net, g, StateOf(b, net), ops).1
  {
    if ops != [] {
      RequestIsAFold(b, net, g, ops[..|ops| - 1]);
      PerformFolds(Run(b, net, g, ops[..|ops| - 1]).0, net, g, ops[|ops| - 1]);
    }
  }

  // ---- the operations are those of the request object ----

  /** The handles of a request's variables, each on the variable's own blob. */
  ghost predicate AreHandles(handles: seq<VariableState>, request: ZeroInferRequest, net: Net) {
    && |handles| == |net.sources|
    && forall i: nat | i < |handles| :: handles[i].request == request && handles[i].blob == Own(i)
  }

  /** The request is between inferences, and all its ports match. */
  ghost predicate Serves(request: ZeroInferRequest, net: Net, g: Graph)
    reads request
  {
    && request.deviceInputs == net.ins && request.deviceOutputs == net.outs && request.graph == g
    && (forall n | n in net.ins || n in net.outs :: request.Check(n).Pass?)
    && Session(request.bindings, net) && request.Valid() && request.phase == Idle && request.orderly
  }

  lemma InferStep(b: Bindings, net: Net, g: Graph, given: string -> Bytes)
    requires Session(b, net)
    ensures var p := Provide(b, net.ins, net.sources, given);
            && Session(p, net)
            && var after := InferRequest.Infer(p, net.ins, net.outs, g);
               Session(after, net) && Perform(b, net, g, Infer(given)) == (after, Outputs(Observed(after, net.outs)))
  {
    SameBindingsSameSession(b, Provide(b, net.ins, net.sources, given), net);
    PerformFolds(b, net, g, Infer(given));
  }

  /** The inference itself, between matching ports. */
  method RunInference(request: ZeroInferRequest)
    requires request.Valid() && request.phase == Idle && request.orderly
    requires forall n | n in request.deviceInputs || n in request.deviceOutputs :: request.Check(n).Pass?
    modifies request
    ensures request.Valid() && request.phase == Idle && request.orderly
    ensures request.bindings ==
            InferRequest.Infer(old(request.bindings), request.deviceInputs, request.deviceOutputs, request.graph)
  {
    var r := request.InferImpl();
    assert r.Pass?;
  }

  method InferOn(request: ZeroInferRequest, net: Net, ghost g: Graph, given: string -> Bytes) returns (shown: Seen)
    requires Serves(request, net, g)
    modifies request
    ensures Serves(request, net, g)
    ensures (request.bindings, shown) == Perform(old(request.bindings), net, g, Infer(given))
  {
    ghost var b := request.bindings;
    request.bindings := Provide(request.bindings, net.ins, net.sources, given);
    RunInference(request);
    InferStep(b, net, g, given);
    shown := Outputs(Observed(request.bindings, net.outs));
  }

  method SetStateOn(handles: seq<VariableState>, request: ZeroInferRequest, i: nat, value: Bytes,
                    ghost net: Net, ghost g: Graph)
    requires Serves(request, net, g) && AreHandles(handles, request, net)
    modifies request
    ensures Serves(request, net, g)
    ensures (request.bindings, Nothing) == Perform(old(request.bindings), net, g, SetState(i, value))
  {
    PerformFolds(request.bindings, net, g, SetState(i, value));
    if i < |handles| {
      assert request.bindings.inputs[net.sources[i]] == Own(i);
      var r := handles[i].SetState(value);
    }
  }

  method ResetOn(handles: seq<VariableState>, request: ZeroInferRequest, i: nat, ghost net: Net, ghost g: Graph)
    requires Serves(request, net, g) && AreHandles(handles, request, net)
    modifies request
    ensures Serves(request, net, g)
    ensures (request.bindings, Nothing) == Perform(old(request.bindings), net, g, Reset(i))
  {
    PerformFolds(request.bindings, net, g, Reset(i));
    if i < |handles| {
      assert request.bindings.inputs[net.sources[i]] == Own(i);
      handles[i].Reset();
    }
  }

  /** Any sequence of calls on a request and on the handles of its variables shows, and leaves, what Run does. */
  method DriveRequest(request: ZeroInferRequest, handles: seq<VariableState>, net: Net, ghost g: Graph,
                      ops: seq<Operation>) returns (shown: seq<Seen>)
    requires Serves(request, net, g) && AreHandles(handles, request, net)
    modifies request
    ensures Serves(request, net, g)
    ensures (request.bindings, shown) == Run(old(request.bindings), net, g, ops)
  {
    shown := [];
    for k := 0 to |ops|
      invariant Serves(request, net, g)
      invariant (request.bindings, shown) == Run(old(request.bindings), net, g, ops[..k])
    {
      assert ops[..k + 1][..k] == ops[..k];
      var last := Nothing;
      match ops[k] {
        case Infer(given) => last := InferOn(request, net, g, given);
        case SetState(i, value) => SetStateOn(handles, request, i, value, net, g);
        case Reset(i) => ResetOn(handles, request, i, net, g);
      }
      shown := shown + [last];
    }
    assert ops[..|ops|] == ops;
  }

  // ---- what the fold does ----

  lemma FoldNext(net: Net, g: Graph, s: seq<Bytes>, ops: seq<Operation>, op: Operation)
    requires |s| == |net.sources| == |net.sinks|
    ensures Fold(net, g, s, ops + [op]).0 == FoldStep(net, g, Fold(net, g, s, ops).0, op).0
    ensures Fold(net, g, s, ops + [op]).1 == Fold(net, g, s, ops).1 + [FoldStep(net, g, Fold(net, g, s, ops).0, op).1]
  {
    assert (ops + [op])[..|ops|] == ops;
  }

  /** A variable that is reset is zeros of its size, and nothing else changes. */
  lemma ResetClearsVariable(net: Net, g: Graph, s: seq<Bytes>, ops: seq<Operation>, i: nat)
    requires |s| == |net.sources| == |net.sinks|
    ensures var before, after := Fold(net, g, s, ops), Fold(net, g, s, ops + [Reset(i)]);
            && (i < |s| ==> after.0[i] == Zeros(|before.0[i]|))
            && (forall j: nat | j < |s| && j != i :: after.0[j] == before.0[j])
            && after.1 == before.1 + [Nothing]
  {
    FoldNext(net, g, s, ops, Reset(i));
  }

  /** A variable that is set is what it is set to, when that has its size; nothing else changes. */
  lemma SetStateSetsVariable(net: Net, g: Graph, s: seq<Bytes>, ops: seq<Operation>, i: nat, value: Bytes)
    requires |s| == |net.sources| == |net.sinks|
    ensures var before, after := Fold(net, g, s, ops), Fold(net, g, s, ops + [SetState(i, value)]);
            && (i < |s| ==> after.0[i] == if |value| == |before.0[i]| then value else before.0[i])
            && (forall j: nat | j < |s| && j != i :: after.0[j] == before.0[j])
            && after.1 == before.1 + [Nothing]
  {
    FoldNext(net, g, s, ops, SetState(i, value));
  }

  /** What an inference gives the graph: the variables at their sources, the caller's data at all other inputs. */
  predicate GivesGraph(net: Net, s: seq<Bytes>, given: string -> Bytes, m: map<string, Bytes>) {
    && m.Keys == (set n | n in net.ins)
    && (forall i: nat | i < |s| && i < |net.sources| && net.sources[i] in m :: m[net.sources[i]] == s[i])
    && (forall n | n in net.ins && n !in net.sources :: m[n] == given(n))
  }

  /** An inference shows what the graph makes of that, and leaves it in the variables. */
  lemma InferenceUsesState(net: Net, g: Graph, s: seq<Bytes>, ops: seq<Operation>, given: string -> Bytes,
                           m: map<string, Bytes>)
    requires |s| == |net.sources| == |net.sinks| && GivesGraph(net, Fold(net, g, s, ops).0, given, m)
    ensures var before, after := Fold(net, g, s, ops), Fold(net, g, s, ops + [Infer(given)]);
            && after.1 == before.1 + [Outputs(map n | n in net.outs :: g(m, n))]
            && forall i: nat | i < |s| :: after.0[i] == g(m, net.sinks[i])
  {
    FoldNext(net, g, s, ops, Infer(given));
    assert GraphInputs(net, Fold(net, g, s, ops).0, given) == m;
  }

  lemma StateAfterReset(net: Net, g: Graph, s: seq<Bytes>, ops: seq<Operation>, i: nat)
    requires |s| == |net.sources| == |net.sinks| && i < |s|
    ensures var before := Fold(net, g, s, ops).0; Fold(net, g, s, ops + [Reset(i)]).0 == before[i := Zeros(|before[i]|)]
  {
    ResetClearsVariable(net, g, s, ops, i);
  }

  /** On a request: after a reset the next inference gives the graph zeros for that variable, and what they were
      for all others. */
  lemma ResetIsSeenByNextInference(b: Bindings, net: Net, g: Graph, ops: seq<Operation>, i: nat,
                                   given: string -> Bytes, m: map<string, Bytes>)
    requires Session(b, net) && i < |net.sources|
    requires var s := StateOf(Run(b, net, g, ops).0, net); GivesGraph(net, s[i := Zeros(|s[i]|)], given, m)
    ensures Run(b, net, g, ops + [Reset(i)] + [Infer(given)]).1
            == Run(b, net, g, ops).1 + [Nothing] + [Outputs(map n | n in net.outs :: g(m, n))]
  {
    var s := StateOf(b, net);
    RequestIsAFold(b, net, g, ops);
    RequestIsAFold(b, net, g, ops + [Reset(i)] + [Infer(given)]);
    StateAfterReset(net, g, s, ops, i);
    ResetClearsVariable(net, g, s, ops, i);
    InferenceUsesState(net, g, s, ops + [Reset(i)], given, m);
  }

  function PrefixedNames(prefix: string, vars: seq<Port>): seq<string> {
    seq(|vars|, i requires 0 <= i < |vars| => prefix + vars[i].name)
  }

  /** The ports of the device graph a request is created for. */
  function NetOf(ins: seq<Port>, outs: seq<Port>): Net {
    var vars := Variables(ins);
    Net(Ids(ins), Ids(outs), PrefixedNames(READVALUE_PREFIX, vars), PrefixedNames(ASSIGN_PREFIX, vars))
  }

  function InitialState(vars: seq<Port>): seq<Bytes> {
    seq(|vars|, i requires 0 <= i < |vars| => Zeros(vars[i].bytes))
  }

  lemma NameAmongPorts(ports: seq<Port>, p: Port)
    requires p in ports
    ensures p.name in Ids(ports)
  {
    var i :| 0 <= i < |ports| && ports[i] == p;
    assert Ids(ports)[i] == p.name;
  }

  lemma {:induction false} CountedIsThere(ports: seq<Port>, name: string)
    requires CountNamed(ports, name) > 0
    ensures name in Ids(ports)
  {
    var last := ports[|ports| - 1];
    if last.name == name {
      NameAmongPorts(ports, last);
    } else {
      CountedIsThere(ports[..|ports| - 1], name);
      var i :| 0 <= i < |ports| - 1 && Ids(ports[..|ports| - 1])[i] == name;
      assert Ids(ports)[i] == name;
    }
  }

  /** Both ends of a variable are ports of the device, bound to the variable's blob. */
  lemma VariableEnds(b: Bindings, ins: seq<Port>, outs: seq<Port>, i: nat)
    requires Created(b, ins, outs) && i < |Variables(ins)|
    requires InputNamesAreProper(ins) && forall p | p in ins :: HasItsAssign(p, outs)
    ensures var read, sink := READVALUE_PREFIX + Variables(ins)[i].name, ASSIGN_PREFIX + Variables(ins)[i].name;
            && read in Ids(ins) && sink in Ids(outs)
            && read in b.inputs && b.inputs[read] == Own(i) && sink in b.outputs && b.outputs[sink] == Own(i)
  {
    var v := Variables(ins)[i];
    assert v in Variables(ins);
    var p :| p in ins && IsStateInput(p.name) && v == Port(VariableId(p.name), p.bytes);
    VariableIdRoundTrip(p.name);
    NameAmongPorts(ins, p);
    assert HasItsAssign(p, outs);
    CountedIsThere(outs, ASSIGN_PREFIX + v.name);
    assert Ids(Variables(ins))[i] == v.name;
  }

  lemma BoundToOwnSlotOrVariable(b: Bindings, ins: seq<Port>, outs: seq<Port>)
    requires Created(b, ins, outs)
    ensures forall n | n in b.inputs :: b.inputs[n] == InputSlot(n)
              || (b.inputs[n].Own? && b.inputs[n].id < |Variables(ins)|
                  && n == READVALUE_PREFIX + Variables(ins)[b.inputs[n].id].name)
    ensures forall n | n in b.outputs :: b.outputs[n] == OutputSlot(n)
              || (b.outputs[n].Own? && b.outputs[n].id < |Variables(ins)|
                  && n == ASSIGN_PREFIX + Variables(ins)[b.outputs[n].id].name)
  {
    var vars := Variables(ins);
    forall n | n in b.inputs && n in Prefixed(READVALUE_PREFIX, vars)
      ensures b.inputs[n].Own? && b.inputs[n].id < |vars| && n == READVALUE_PREFIX + vars[b.inputs[n].id].name
    {
      var v :| v in vars && n == READVALUE_PREFIX + v.name;
      var i: nat :| i < |vars| && vars[i] == v;
      assert Ids(vars)[i] == v.name;
    }
    forall n | n in b.outputs && n in Prefixed(ASSIGN_PREFIX, vars)
      ensures b.outputs[n].Own? && b.outputs[n].id < |vars| && n == ASSIGN_PREFIX + vars[b.outputs[n].id].name
    {
      var v :| v in vars && n == ASSIGN_PREFIX + v.name;
      var i: nat :| i < |vars| && vars[i] == v;
      assert Ids(vars)[i] == v.name;
    }
  }

  lemma CreatedIsBound(b: Bindings, ins: seq<Port>, outs: seq<Port>)
    requires Created(b, ins, outs)
    ensures Bound(b, Ids(ins), Ids(outs))
  {
    forall n | n in Ids(ins) ensures n in b.inputs && b.inputs[n] in b.memory && InputSlot(n) in b.memory {
      var i :| 0 <= i < |ins| && Ids(ins)[i] == n;
      assert ins[i] in ins;
    }
    forall n | n in Ids(outs) ensures n in b.outputs && b.outputs[n] in b.memory && OutputSlot(n) in b.memory {
      var i :| 0 <= i < |outs| && Ids(outs)[i] == n;
      assert outs[i] in outs;
    }
  }

  lemma CreatedSharesNothing(b: Bindings, ins: seq<Port>, outs: seq<Port>)
    requires Created(b, ins, outs) && Bound(b, Ids(ins), Ids(outs))
    ensures OwnSlotOrOutside(b, Ids(ins), Ids(outs))
    ensures forall n, n' | n in Ids(ins) && n' in Ids(ins) && n != n' :: b.inputs[n] != b.inputs[n']
  {
    BoundToOwnSlotOrVariable(b, ins, outs);
  }

  lemma CreatedIsSession(b: Bindings, ins: seq<Port>, outs: seq<Port>)
    requires Created(b, ins, outs)
    requires InputNamesAreProper(ins) && forall p | p in ins :: HasItsAssign(p, outs)
    ensures Session(b, NetOf(ins, outs))
  {
    var net := NetOf(ins, outs);
    CreatedIsBound(b, ins, outs);
    CreatedSharesNothing(b, ins, outs);
    forall i: nat | i < |net.sources|
      ensures net.sources[i] in net.ins && net.sources[i] in b.inputs && b.inputs[net.sources[i]] == Own(i)
      ensures net.sinks[i] in net.outs && net.sinks[i] in b.outputs && b.outputs[net.sinks[i]] == Own(i)
    {
      VariableEnds(b, ins, outs, i);
    }
  }

  /** A freshly created request is a session whose state is all zeros, so RequestIsAFold applies to it. */
  lemma CreatedRequestStartsFromZeros(b: Bindings, ins: seq<Port>, outs: seq<Port>)
    requires Created(b, ins, outs)
    requires InputNamesAreProper(ins) && forall p | p in ins :: HasItsAssign(p, outs)
    ensures Session(b, NetOf(ins, outs))
    ensures StateOf(b, NetOf(ins, outs)) == InitialState(Variables(ins))
  {
    var net := NetOf(ins, outs);
    CreatedIsSession(b, ins, outs);
    forall i: nat | i < |net.sources| ensures StateOf(b, net)[i] == Zeros(Variables(ins)[i].bytes) {
      assert b.inputs[net.sources[i]] == Own(i);
    }
  }
}
