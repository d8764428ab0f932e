/** One inference around the pipeline: blobs into the staging region, graph, staging region into blobs. */
module InferRequest {
  import opened Wrappers
  import opened StateWiring

  /** The compiled graph: the value of each named output, given the named inputs. */
  type Graph = (map<string, Bytes>, string) -> Bytes

  datatype InferError =
    | InvalidDescriptor(name: string)
    | AttributesDiffer(name: string)
    | SizesDiffer
    | UnknownState(name: string)

  // ---- what the loops compute ----

  /** Every device port is bound and every blob and slot has contents. */
  predicate Bound(b: Bindings, ins: seq<string>, outs: seq<string>) {
    && (forall n | n in ins :: n in b.inputs && b.inputs[n] in b.memory && InputSlot(n) in b.memory)
    && (forall n | n in outs :: n in b.outputs && b.outputs[n] in b.memory && OutputSlot(n) in b.memory)
  }

  /** A blob anywhere in the input region is taken to be in place already. */
  function CopyOneIn(b: Bindings, name: string): Bindings
    requires name in b.inputs && b.inputs[name] in b.memory
  {
    if b.inputs[name].InputSlot? then b
    else b.(memory := b.memory[InputSlot(name) := b.memory[b.inputs[name]]])
  }

  function CopyOneOut(b: Bindings, name: string): Bindings
    requires name in b.outputs && OutputSlot(name) in b.memory
  {
    if b.outputs[name].OutputSlot? then b
    else b.(memory := b.memory[b.outputs[name] := b.memory[OutputSlot(name)]])
  }

  function CopyIn(b: Bindings, ins: seq<string>): (r: Bindings)
    requires forall n | n in ins :: n in b.inputs && b.inputs[n] in b.memory
    ensures r.inputs == b.inputs && r.outputs == b.outputs && b.memory.Keys <= r.memory.Keys
  {
    if ins == [] then b else
    assert ins == ins[..|ins| - 1] + [ins[|ins| - 1]];
    CopyOneIn(CopyIn(b, ins[..|ins| - 1]), ins[|ins| - 1])
  }

  function CopyOut(b: Bindings, outs: seq<string>): (r: Bindings)
    requires forall n | n in outs :: n in b.outputs && OutputSlot(n) in b.memory
    ensures r.inputs == b.inputs && r.outputs == b.outputs && b.memory.Keys <= r.memory.Keys
  {
    if outs == [] then b else
    assert outs == outs[..|outs| - 1] + [outs[|outs| - 1]];
    CopyOneOut(CopyOut(b, outs[..|outs| - 1]), outs[|outs| - 1])
  }

  function Staged(b: Bindings, ins: seq<string>): map<string, Bytes>
    requires forall n | n in ins :: InputSlot(n) in b.memory
  {
    map n | n in ins :: b.memory[InputSlot(n)]
  }

  /** What push, pull and reset amount to: the output region becomes the graph's value on the input region. */
  function RunGraph(b: Bindings, ins: seq<string>, outs: seq<string>, g: Graph): (r: Bindings)
    requires forall n | n in ins :: InputSlot(n) in b.memory
    ensures r.inputs == b.inputs && r.outputs == b.outputs
    ensures forall blob :: blob in r.memory <==> blob in b.memory || (blob.OutputSlot? && blob.name in outs)
    ensures forall n | n in outs :: r.memory[OutputSlot(n)] == g(Staged(b, ins), n)
    ensures forall blob | blob in b.memory && !(blob.OutputSlot? && blob.name in outs) ::
              r.memory[blob] == b.memory[blob]
  {
    b.(memory := b.memory + AnswerSlots(outs, g, Staged(b, ins)))
  }

  function AnswerSlots(outs: seq<string>, g: Graph, staged: map<string, Bytes>): map<Blob, Bytes> {
    map n | n in outs :: OutputSlot(n) := g(staged, n)
  }

  function Infer(b: Bindings, ins: seq<string>, outs: seq<string>, g: Graph): Bindings
    requires Bound(b, ins, outs)
  {
    CopyOut(RunGraph(CopyIn(b, ins), ins, outs, g), outs)
  }

  // ---- the request object ----

  /** `Pulled` is where a refused output leaves a request: pulled, and not reset. */
  datatype Phase = Idle | Pushed | Pulled

  /** The output region holding whatever it holds. */
  function Filled(b: Bindings, outs: seq<string>, region: string -> Bytes): Bindings {
    b.(memory := b.memory + map n | n in outs :: OutputSlot(n) := region(n))
  }

  class ZeroInferRequest {
    const deviceInputs: seq<string>
    const deviceOutputs: seq<string>
    const graph: Graph
    /** For each port of the executor, whether its attributes match the network's. */
    const matches: map<string, bool>
    /** The names of the variables, and of the ports the network is known to have. */
    const variables: seq<string>
    const networkInputs: set<string>
    const networkOutputs: set<string>
    var bindings: Bindings
    var phase: Phase
    /** Whether every round so far has been reset. */
    var orderly: bool
    var states: seq<VariableState>
    var filled: bool

    predicate Valid()
      reads this
    {
      Bound(bindings, deviceInputs, deviceOutputs)
    }

    function Check(name: string): (r: Outcome<InferError>)
      ensures r.Pass? <==> name in matches && matches[name]
      ensures r == Fail(InvalidDescriptor(name)) <==> name !in matches
      ensures r == Fail(AttributesDiffer(name)) <==> name in matches && !matches[name]
    {
      if name !in matches then Fail(InvalidDescriptor(name))
      else if !matches[name] then Fail(AttributesDiffer(name)) else Pass
    }

    /** Copies what has to be copied and pushes.  If a port does not match, the ports before it have been
        copied, nothing is pushed and the error names that port. */
    method InferAsync() returns (r: Outcome<InferError>)
      requires Valid() && phase != Pushed
      modifies `bindings, `phase
      ensures Valid()
      ensures r.Pass? <==> forall n | n in deviceInputs :: Check(n).Pass?
      ensures r.Pass? ==> bindings == CopyIn(old(bindings), deviceInputs) && phase == Pushed
      ensures r.Fail? ==>
                && phase == old(phase)
                && exists k: nat :: k < |deviceInputs| && r == Check(deviceInputs[k])
                                    && (forall n | n in deviceInputs[..k] :: Check(n).Pass?)
                                    && bindings == CopyIn(old(bindings), deviceInputs[..k])
    {
      for i := 0 to |deviceInputs|
        invariant Valid() && phase == old(phase)
        invariant forall n | n in deviceInputs[..i] :: Check(n).Pass?
        invariant bindings == CopyIn(old(bindings), deviceInputs[..i])
      {
        assert deviceInputs[..i + 1][..i] == deviceInputs[..i];
        var name := deviceInputs[i];
        r := Check(name);
        if r.Fail? {
          return;
        }
        if !bindings.inputs[name].InputSlot? {
          bindings := bindings.(memory := bindings.memory[InputSlot(name) := bindings.memory[bindings.inputs[name]]]);
        }
      }
      assert deviceInputs[..|deviceInputs|] == deviceInputs;
      phase := Pushed;
      return Pass;
    }

    /** The bindings once the device has run. */
    function AfterPull(): Bindings
      requires Valid()
      reads this
    {
      RunGraph(bindings, deviceInputs, deviceOutputs, graph)
    }

    /** Waits for the device.  `region` is what the output region then holds: the graph's answer, as long as every
        round before has been reset. */
    method Pull() returns (ghost region: string -> Bytes)
      requires Valid() && phase == Pushed
      modifies `bindings, `phase
      ensures Valid() && phase == Pulled && bindings == Filled(old(bindings), deviceOutputs, region)
      ensures orderly ==> bindings == old(AfterPull())
    {
      var left: string -> Bytes := *;
      region := left;
      phase := Pulled;
      if orderly {
        region := Answer(bindings);
        bindings := AfterPull();
      } else {
        bindings := Filled(bindings, deviceOutputs, left);
      }
    }

    function Answer(b: Bindings): string -> Bytes
      requires forall n | n in deviceInputs :: InputSlot(n) in b.memory
    {
      var staged := Staged(b, deviceInputs);
      (n: string) => graph(staged, n)
    }

    /** Pulls, copies what has to be copied and resets; a port that does not match leaves the pipeline pulled
        and not reset.  Once that has happened, nothing is known about what a pull finds in the output region. */
    method GetResult() returns (r: Outcome<InferError>, ghost region: string -> Bytes)
      requires Valid() && phase == Pushed
      modifies `bindings, `phase, `orderly
      ensures Valid()
      ensures r.Pass? <==> forall n | n in deviceOutputs :: Check(n).Pass?
      ensures phase == (if r.Pass? then Idle else Pulled) && orderly == (old(orderly) && r.Pass?)
      ensures old(orderly) ==> Filled(old(bindings), deviceOutputs, region) == old(AfterPull())
      ensures r.Pass? ==> bindings == CopyOut(Filled(old(bindings), deviceOutputs, region), deviceOutputs)
      ensures r.Fail? ==> exists k: nat :: k < |deviceOutputs| && r == Check(deviceOutputs[k])
                            && bindings == CopyOut(Filled(old(bindings), deviceOutputs, region), deviceOutputs[..k])
    {
      region := Pull();
      r := CopyResults();
      if r.Pass? {
        phase := Idle;
      } else {
        orderly := false;
      }
    }

    /** The loop over outputs. */
    method CopyResults() returns (r: Outcome<InferError>)
      requires Valid()
      modifies `bindings
      ensures Valid()
      ensures r.Pass? <==> forall n | n in deviceOutputs :: Check(n).Pass?
      ensures r.Pass? ==> bindings == CopyOut(old(bindings), deviceOutputs)
      ensures r.Fail? ==> exists k: nat :: k < |deviceOutputs| && r == Check(deviceOutputs[k])
                                           && bindings == CopyOut(old(bindings), deviceOutputs[..k])
    {
      for i := 0 to |deviceOutputs|
        invariant Valid()
        invariant forall n | n in deviceOutputs[..i] :: Check(n).Pass?
        invariant bindings == CopyOut(old(bindings), deviceOutputs[..i])
      {
        assert deviceOutputs[..i + 1][..i] == deviceOutputs[..i];
        var name := deviceOutputs[i];
        r := Check(name);
        if r.Fail? {
          return;
        }
        if !bindings.outputs[name].OutputSlot? {
          bindings := bindings.(memory := bindings.memory[bindings.outputs[name] := bindings.memory[OutputSlot(name)]]);
        }
      }
      assert deviceOutputs[..|deviceOutputs|] == deviceOutputs;
      return Pass;
    }

    /** One inference.  After a refused output the next answers are not to be relied on, whatever this returns. */
    method InferImpl() returns (r: Outcome<InferError>)
      requires Valid() && phase != Pushed
      modifies `bindings, `phase, `orderly
      ensures Valid() && phase != Pushed
      ensures r.Pass? <==> forall n | n in deviceInputs || n in deviceOutputs :: Check(n).Pass?
      ensures r.Pass? ==> phase == Idle && orderly == old(orderly)
      ensures r.Pass? && old(orderly) ==> bindings == Infer(old(bindings), deviceInputs, deviceOutputs, graph)
    {
      r := InferAsync();
      if r.Fail? {
        return;
      }
      ghost var region;
      r, region := GetResult();
    }

    predicate Knows(id: string) {
      READVALUE_PREFIX + id in networkInputs && ASSIGN_PREFIX + id in networkOutputs
    }

    predicate IsHandle(handle: VariableState, id: string)
      reads this
    {
      && handle.request == this && handle.name == id
      && READVALUE_PREFIX + id in bindings.inputs && handle.blob == bindings.inputs[READVALUE_PREFIX + id]
    }

    /** One handle for each variable, on the blob its read end was bound to when the states were first asked for.
        A variable the network has no ports for ends the first query; what it had listed by then stays. */
    method QueryState() returns (r: Result<seq<VariableState>, InferError>)
      requires forall v | v in variables && Knows(v) :: READVALUE_PREFIX + v in bindings.inputs
      modifies `states, `filled
      ensures r.Ok? <==>
              old(filled) || forall v | v in variables ::
                READVALUE_PREFIX + v in networkInputs && ASSIGN_PREFIX + v in networkOutputs
      ensures r.Ok? ==> filled && r.value == states
      ensures r.Err? ==> !filled
      ensures old(filled) ==> states == old(states)
      ensures old(states) <= states
      ensures !old(filled) && r.Ok? ==>
                && |states| == |old(states)| + |variables|
                && forall j | |old(states)| <= j < |states| :: IsHandle(states[j], variables[j - |old(states)|])
    {
      if !filled {
        for i := 0 to |variables|
          invariant !filled && old(states) <= states && |states| == |old(states)| + i
          invariant forall k | 0 <= k < i :: Knows(variables[k])
          invariant forall j | |old(states)| <= j < |states| :: IsHandle(states[j], variables[j - |old(states)|])
        {
          if !Knows(variables[i]) {
            return Err(UnknownState(variables[i]));
          }
          var handle := new VariableState(this, variables[i], bindings.inputs[READVALUE_PREFIX + variables[i]]);
          states := states + [handle];
        }
        filled := true;
      }
      return Ok(states);
    }

    constructor (deviceInputs: seq<string>, deviceOutputs: seq<string>, matches: map<string, bool>, bindings: Bindings,
                 graph: Graph, variables: seq<string>, networkInputs: set<string>, networkOutputs: set<string>)
      requires Bound(bindings, deviceInputs, deviceOutputs)
      ensures Valid() && phase == Idle && orderly && this.bindings == bindings && states == [] && !filled
      ensures this.deviceInputs == deviceInputs && this.deviceOutputs == deviceOutputs
      ensures this.matches == matches && this.graph == graph && this.variables == variables
      ensures this.networkInputs == networkInputs && this.networkOutputs == networkOutputs
    {
      this.variables, this.networkInputs, this.networkOutputs := variables, networkInputs, networkOutputs;
      states, filled, orderly := [], false, true;
      this.deviceInputs, this.deviceOutputs, this.matches := deviceInputs, deviceOutputs, matches;
      this.bindings, this.graph, phase := bindings, graph, Idle;
    }
  }

  /** A handle on the memory of one state variable. */
  class VariableState {
    const request: ZeroInferRequest
    const name: string
    const blob: Blob

    constructor (request: ZeroInferRequest, name: string, blob: Blob)
      ensures this.request == request && this.name == name && this.blob == blob
    {
      this.request, this.name, this.blob := request, name, blob;
    }

    method Reset()
      requires blob in request.bindings.memory
      modifies request`bindings
      ensures request.bindings == Store(old(request.bindings), blob, Zeros(|old(request.bindings).memory[blob]|))
    {
      var m := request.bindings.memory;
      request.bindings := request.bindings.(memory := m[blob := Zeros(|m[blob]|)]);
    }

    method SetState(newState: Bytes) returns (r: Outcome<InferError>)
      requires blob in request.bindings.memory
      modifies request`bindings
      ensures r.Pass? <==> |newState| == |old(request.bindings).memory[blob]|
      ensures request.bindings
              == if r.Pass? then Store(old(request.bindings), blob, newState) else old(request.bindings)
    {
      var m := request.bindings.memory;
      if |newState| != |m[blob]| {
        return Fail(SizesDiffer);
      }
      request.bindings := request.bindings.(memory := m[blob := newState]);
      return Pass;
    }

    /** The variable's memory itself, not a copy: while the read end stays bound to it, what is read through the
        result at any time is what the next inference starts from. */
    method GetState() returns (state: Blob)
      ensures request.IsHandle(this, name) ==> request.bindings.inputs[READVALUE_PREFIX + name] == state
    {
      state := blob;
    }
  }

  function Store(b: Bindings, blob: Blob, data: Bytes): Bindings {
    b.(memory := b.memory[blob := data])
  }

  // ---- what one inference delivers ----

  /** The caller's side of the bargain: a blob is outside the staging region or is exactly its port's slot,
      and no two outputs go to one place. */
  predicate OwnSlotOrOutside(b: Bindings, ins: seq<string>, outs: seq<string>)
    requires Bound(b, ins, outs)
  {
    && (forall n | n in ins :: b.inputs[n].InputSlot? ==> b.inputs[n] == InputSlot(n))
    && (forall n | n in outs :: b.outputs[n].OutputSlot? ==> b.outputs[n] == OutputSlot(n))
    && (forall n, n' | n in outs && n' in outs && n != n' :: b.outputs[n] != b.outputs[n'])
  }

  /** A blob in any slot of the region, even another port's, is taken to be in place and left alone. */
  lemma BlobsInRegionAreLeft(b: Bindings, n: string, other: string)
    ensures n in b.inputs && b.inputs[n] == InputSlot(other) && InputSlot(other) in b.memory ==> CopyIn(b, [n]) == b
    ensures n in b.outputs && b.outputs[n] == OutputSlot(other) && OutputSlot(n) in b.memory ==> CopyOut(b, [n]) == b
  {
    assert [n][..0] == [];
  }

  lemma {:induction false} CopyInDelivers(b: Bindings, ins: seq<string>)
    requires forall n | n in ins :: n in b.inputs && b.inputs[n] in b.memory
    requires forall n | n in ins :: b.inputs[n].InputSlot? ==> b.inputs[n] == InputSlot(n)
    ensures forall n | n in ins ::
              InputSlot(n) in CopyIn(b, ins).memory && CopyIn(b, ins).memory[InputSlot(n)] == b.memory[b.inputs[n]]
    ensures forall blob | blob in b.memory && !(blob.InputSlot? && blob.name in ins) ::
              CopyIn(b, ins).memory[blob] == b.memory[blob]
    ensures forall blob | blob in CopyIn(b, ins).memory :: blob in b.memory || (blob.InputSlot? && blob.name in ins)
  {
    if ins != [] {
      var before, last := ins[..|ins| - 1], ins[|ins| - 1];
      assert ins == before + [last];
      CopyInDelivers(b, before);
    }
  }

  lemma {:induction false} CopyOutDelivers(b: Bindings, outs: seq<string>)
    requires forall n | n in outs :: n in b.outputs && OutputSlot(n) in b.memory
    requires forall n | n in outs :: b.outputs[n].OutputSlot? ==> b.outputs[n] == OutputSlot(n)
    requires forall n, n' | n in outs && n' in outs && n != n' :: b.outputs[n] != b.outputs[n']
    ensures forall n | n in outs ::
              b.outputs[n] in CopyOut(b, outs).memory
              && CopyOut(b, outs).memory[b.outputs[n]] == b.memory[OutputSlot(n)]
    ensures forall blob | blob in b.memory && (blob.OutputSlot? || forall n | n in outs :: b.outputs[n] != blob) ::
              CopyOut(b, outs).memory[blob] == b.memory[blob]
  {
    if outs != [] {
      var before, last := outs[..|outs| - 1], outs[|outs| - 1];
      assert outs == before + [last];
      CopyOutDelivers(b, before);
    }
  }

  function Given(b: Bindings, ins: seq<string>): map<string, Bytes>
    requires forall n | n in ins :: n in b.inputs && b.inputs[n] in b.memory
  {
    map n | n in ins :: b.memory[b.inputs[n]]
  }

  lemma StagedIsGiven(b: Bindings, ins: seq<string>, outs: seq<string>)
    requires Bound(b, ins, outs) && OwnSlotOrOutside(b, ins, outs)
    ensures Staged(CopyIn(b, ins), ins) == Given(b, ins)
  {
    CopyInDelivers(b, ins);
  }

  lemma InferStaysBound(b: Bindings, ins: seq<string>, outs: seq<string>, g: Graph)
    requires Bound(b, ins, outs)
    ensures Bound(Infer(b, ins, outs, g), ins, outs)
  {
    var after := Infer(b, ins, outs, g);
    assert b.memory.Keys <= after.memory.Keys;
  }

  /** Every output blob receives the graph's value on the input blobs, and no other blob of the user's changes. */
  lemma InferDelivers(b: Bindings, ins: seq<string>, outs: seq<string>, g: Graph)
    requires Bound(b, ins, outs) && OwnSlotOrOutside(b, ins, outs)
    ensures Bound(Infer(b, ins, outs, g), ins, outs)
    ensures forall n | n in outs :: Infer(b, ins, outs, g).memory[b.outputs[n]] == g(Given(b, ins), n)
    ensures forall blob | blob in b.memory && blob.Own? && (forall n | n in outs :: b.outputs[n] != blob) ::
              Infer(b, ins, outs, g).memory[blob] == b.memory[blob]
  {
    InferStaysBound(b, ins, outs, g);
    StagedIsGiven(b, ins, outs);
    CopyInDelivers(b, ins);
    var copied := CopyIn(b, ins);
    CopyOutDelivers(RunGraph(copied, ins, outs, g), outs);
  }
}
