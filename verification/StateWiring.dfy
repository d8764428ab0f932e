/** How recurrent state becomes graph inputs and outputs: names, extraction, and the blob shared by both ends. */
module StateWiring {
  import opened Numbers
  import opened Wrappers

  type Bytes = seq<byte>

  const READVALUE_PREFIX := "vpux_ie_read_value_"
  const ASSIGN_PREFIX := "vpux_ie_assign_"

  /** A graph input or output: its name and size. */
  datatype Port = Port(name: string, bytes: nat)

  datatype WiringError =
    | AssignMissing(name: string)
    | NoPorts
    | InputNotFound(name: string)
    | OutputNotFound(name: string)

  // ---- names ----

  predicate OccursAt(s: string, p: string, i: nat) {
    i + |p| <= |s| && s[i..i + |p|] == p
  }

  /** The original looks for a prefix anywhere in a name. */
  predicate Contains(s: string, p: string) {
    exists i: nat | i <= |s| :: OccursAt(s, p, i)
  }

  predicate IsStateInput(name: string) { Contains(name, READVALUE_PREFIX) }

  predicate IsStateOutput(name: string) { Contains(name, ASSIGN_PREFIX) }

  lemma ContainsExactly(s: string, p: string)
    ensures Contains(s, p) <==> exists a: string, b: string :: s == a + p + b
  {
    if Contains(s, p) {
      var i: nat :| i <= |s| && OccursAt(s, p, i);
      assert s == s[..i] + p + s[i + |p|..];
    }
    if a: string, b: string :| s == a + p + b {
      assert OccursAt(s, p, |a|);
    }
  }

  /** The names of the two ends of a variable are those of a state input and a state output. */
  lemma StateNames(id: string)
    ensures IsStateInput("vpux_ie_read_value_" + id) && VariableId("vpux_ie_read_value_" + id) == id
    ensures IsStateOutput("vpux_ie_assign_" + id)
  {
    ContainsExactly(READVALUE_PREFIX + id, READVALUE_PREFIX);
    ContainsExactly(ASSIGN_PREFIX + id, ASSIGN_PREFIX);
    assert READVALUE_PREFIX + id == "" + READVALUE_PREFIX + id && ASSIGN_PREFIX + id == "" + ASSIGN_PREFIX + id;
  }

  /** What is left after cutting as many characters as the prefix has off the front, wherever the prefix is. */
  function VariableId(name: string): string
    requires IsStateInput(name)
  {
    name[|READVALUE_PREFIX|..]
  }

  /** Cutting and putting back the prefix gives the name again exactly when the prefix was at its front. */
  lemma VariableIdRoundTrip(name: string)
    requires IsStateInput(name)
    ensures READVALUE_PREFIX + VariableId(name) == name <==> READVALUE_PREFIX <= name
  {
    assert name == name[..|READVALUE_PREFIX|] + VariableId(name);
  }

  // ---- what the loops compute ----

  /** The ports among `ports` whose names pass (or fail) a test, in order. */
  function Select(ports: seq<Port>, test: string -> bool): (r: seq<Port>)
    ensures forall p :: p in r <==> p in ports && test(p.name)
  {
    if ports == [] then [] else
    var last := ports[|ports| - 1];
    Select(ports[..|ports| - 1], test) + if test(last.name) then [last] else []
  }

  function NotStateInput(): string -> bool { (name: string) => !IsStateInput(name) }

  function NotStateOutput(): string -> bool { (name: string) => !IsStateOutput(name) }

  /** One variable per state input, under its variable id. */
  function Variables(ins: seq<Port>): (r: seq<Port>)
    ensures forall v ::
              v in r <==> exists p :: p in ins && IsStateInput(p.name) && v == Port(VariableId(p.name), p.bytes)
  {
    if ins == [] then [] else
    var last := ins[|ins| - 1];
    assert ins == ins[..|ins| - 1] + [last];
    Variables(ins[..|ins| - 1]) + if IsStateInput(last.name) then [Port(VariableId(last.name), last.bytes)] else []
  }

  function CountNamed(ports: seq<Port>, name: string): nat {
    if ports == [] then 0 else
    CountNamed(ports[..|ports| - 1], name) + if ports[|ports| - 1].name == name then 1 else 0
  }

  predicate HasItsAssign(p: Port, outs: seq<Port>) {
    IsStateInput(p.name) ==> CountNamed(outs, ASSIGN_PREFIX + VariableId(p.name)) == 1
  }

  lemma {:induction false} NoneNamed(ports: seq<Port>, name: string)
    ensures CountNamed(ports, name) == 0 <==> forall i | 0 <= i < |ports| :: ports[i].name != name
  {
    if ports != [] {
      NoneNamed(ports[..|ports| - 1], name);
      assert forall i | 0 <= i < |ports| - 1 :: ports[i] == ports[..|ports| - 1][i];
    }
  }

  ghost predicate OnlyAt(ports: seq<Port>, name: string, i: nat) {
    i < |ports| && ports[i].name == name && forall j | 0 <= j < |ports| && j != i :: ports[j].name != name
  }

  /** One port is counted exactly when one and no other has the name. */
  lemma {:induction false} OneNamed(ports: seq<Port>, name: string)
    ensures CountNamed(ports, name) == 1 <==> exists i: nat :: OnlyAt(ports, name, i)
  {
    if ports != [] {
      var before, last := ports[..|ports| - 1], ports[|ports| - 1];
      OneNamed(before, name);
      NoneNamed(before, name);
      assert forall i | 0 <= i < |before| :: before[i] == ports[i];
      if last.name == name && CountNamed(before, name) == 0 {
        assert OnlyAt(ports, name, |before|);
      }
      if last.name != name && CountNamed(before, name) == 1 {
        var i: nat :| OnlyAt(before, name, i);
        assert OnlyAt(ports, name, i);
      }
      if i: nat :| OnlyAt(ports, name, i) {
        if i < |before| {
          assert OnlyAt(before, name, i);
        }
      }
    }
  }

  /** A state input has its output exactly when one port, and no other, has the name put together from the prefix and
      what is left of the input's name. */
  lemma HasItsAssignExactly(p: Port, outs: seq<Port>)
    requires IsStateInput(p.name)
    ensures HasItsAssign(p, outs) <==> exists i: nat :: OnlyAt(outs, "vpux_ie_assign_" + VariableId(p.name), i)
  {
    OneNamed(outs, ASSIGN_PREFIX + VariableId(p.name));
  }

  method ExtractStates(ins: seq<Port>, outs: seq<Port>) returns (r: Result<seq<Port>, WiringError>)
    ensures r.Ok? <==> forall p | p in ins :: HasItsAssign(p, outs)
    ensures r.Ok? ==> r.value == Variables(ins)
  {
    var states := [];
    for i := 0 to |ins|
      invariant states == Variables(ins[..i])
      invariant forall p | p in ins[..i] :: HasItsAssign(p, outs)
    {
      assert ins[..i + 1][..i] == ins[..i];
      var p := ins[i];
      if !IsStateInput(p.name) {
        continue;
      }
      var assignName := ASSIGN_PREFIX + VariableId(p.name);
      var count := CountIf(outs, assignName);
      if count != 1 {
        assert !HasItsAssign(p, outs);
        return Err(AssignMissing(assignName));
      }
      states := states + [Port(VariableId(p.name), p.bytes)];
    }
    assert ins[..|ins|] == ins;
    return Ok(states);
  }

  method CountIf(ports: seq<Port>, name: string) returns (count: nat)
    ensures count == CountNamed(ports, name)
  {
    count := 0;
    for i := 0 to |ports|
      invariant count == CountNamed(ports[..i], name)
    {
      assert ports[..i + 1][..i] == ports[..i];
      if ports[i].name == name {
        count := count + 1;
      }
    }
    assert ports[..|ports|] == ports;
  }

  /** The ports the user sees: those that carry no state. */
  method WithoutStates(ports: seq<Port>, test: string -> bool) returns (r: seq<Port>)
    ensures r == Select(ports, test)
  {
    r := [];
    for i := 0 to |ports|
      invariant r == Select(ports[..i], test)
    {
      assert ports[..i + 1][..i] == ports[..i];
      if test(ports[i].name) {
        r := r + [ports[i]];
      }
    }
    assert ports[..|ports|] == ports;
  }

  // ---- memory and bindings of a request ----

  /** What a name can be bound to: a slot of the input or output staging region, or memory of its own. */
  datatype Blob = InputSlot(name: string) | OutputSlot(name: string) | Own(id: nat)

  datatype Bindings = Bindings(inputs: map<string, Blob>, outputs: map<string, Blob>, memory: map<Blob, Bytes>)

  function Zeros(n: nat): (z: Bytes)
    ensures |z| == n && forall k | 0 <= k < n :: z[k] == 0
  {
    seq(n, _ => 0)
  }

  /** State variable `i` lives in `Own(i)`, which is both what the graph reads at the start of an inference
      and what it assigns at the end. */
  predicate Wired(b: Bindings, ids: seq<string>) {
    && (forall i: nat | i < |ids| ::
          && READVALUE_PREFIX + ids[i] in b.inputs && b.inputs[READVALUE_PREFIX + ids[i]] == Own(i)
          && ASSIGN_PREFIX + ids[i] in b.outputs && b.outputs[ASSIGN_PREFIX + ids[i]] == Own(i)
          && Own(i) in b.memory)
    && Backed(b)
  }

  /** Every blob in use is in memory. */
  predicate Backed(b: Bindings) {
    && (forall n | n in b.inputs :: b.inputs[n] in b.memory)
    && (forall n | n in b.outputs :: b.outputs[n] in b.memory)
  }

  function Names(ports: seq<Port>): set<string> {
    set p | p in ports :: p.name
  }

  function Prefixed(prefix: string, vars: seq<Port>): set<string> {
    set v | v in vars :: prefix + v.name
  }

  /** The names a request is created with: the user's ports and both ends of every variable. */
  function NetworkInputs(ins: seq<Port>): set<string> {
    Names(Select(ins, NotStateInput())) + Prefixed(READVALUE_PREFIX, Variables(ins))
  }

  function NetworkOutputs(ins: seq<Port>, outs: seq<Port>): set<string> {
    Names(Select(outs, NotStateOutput())) + Prefixed(ASSIGN_PREFIX, Variables(ins))
  }

  /** A device input is among them unless it is a state input whose prefix is not at its front. */
  lemma InputIsKnown(ins: seq<Port>, p: Port)
    requires p in ins
    ensures p.name in NetworkInputs(ins) <==> (IsStateInput(p.name) ==> READVALUE_PREFIX <= p.name)
  {
    if IsStateInput(p.name) {
      VariableIdRoundTrip(p.name);
      assert Port(VariableId(p.name), p.bytes) in Variables(ins);
      if p.name in Prefixed(READVALUE_PREFIX, Variables(ins)) {
        assert READVALUE_PREFIX <= p.name;
      }
    } else {
      assert p in Select(ins, NotStateInput());
    }
  }

  predicate InputNamesAreProper(ins: seq<Port>) {
    forall p | p in ins && IsStateInput(p.name) :: READVALUE_PREFIX <= p.name
  }

  predicate OutputsAreKnown(ins: seq<Port>, outs: seq<Port>) {
    forall p | p in outs && IsStateOutput(p.name) :: p.name in Prefixed(ASSIGN_PREFIX, Variables(ins))
  }

  lemma OutputIsKnown(ins: seq<Port>, outs: seq<Port>, p: Port)
    requires p in outs
    ensures p.name in NetworkOutputs(ins, outs) <==>
            (IsStateOutput(p.name) ==> p.name in Prefixed(ASSIGN_PREFIX, Variables(ins)))
  {
    assert !IsStateOutput(p.name) ==> p in Select(outs, NotStateOutput());
  }

  function Ids(ports: seq<Port>): seq<string> {
    seq(|ports|, i requires 0 <= i < |ports| => ports[i].name)
  }

  predicate DistinctNames(ports: seq<Port>) {
    forall i, j | 0 <= i < j < |ports| :: ports[i].name != ports[j].name
  }

  /** Every device port, and nothing else, is backed by its own staging slot. */
  predicate BackedBySlots(b: Bindings, ins: seq<Port>, outs: seq<Port>) {
    && b.inputs.Keys == Names(ins) && b.outputs.Keys == Names(outs)
    && (forall n | n in b.inputs :: b.inputs[n] == InputSlot(n) && InputSlot(n) in b.memory)
    && (forall n | n in b.outputs :: b.outputs[n] == OutputSlot(n) && OutputSlot(n) in b.memory)
  }

  /** The bindings a new request starts with: every device port has its slot, each variable has one zeroed blob
      bound to both its ends, and every other port is bound to its own slot. */
  predicate Created(b: Bindings, ins: seq<Port>, outs: seq<Port>) {
    var vars := Variables(ins);
    && Wired(b, Ids(vars))
    && (forall i: nat | i < |vars| :: b.memory[Own(i)] == Zeros(vars[i].bytes))
    && (forall p | p in ins :: p.name in b.inputs && InputSlot(p.name) in b.memory)
    && (forall p | p in outs :: p.name in b.outputs && OutputSlot(p.name) in b.memory)
    && (forall n | n in b.inputs && n !in Prefixed(READVALUE_PREFIX, vars) :: b.inputs[n] == InputSlot(n))
    && (forall n | n in b.outputs && n !in Prefixed(ASSIGN_PREFIX, vars) :: b.outputs[n] == OutputSlot(n))
  }

  /** Every device port's slot is as large as the port. */
  predicate SlotsHaveSizes(b: Bindings, ins: seq<Port>, outs: seq<Port>) {
    && (forall p | p in ins :: InputSlot(p.name) in b.memory && |b.memory[InputSlot(p.name)]| == p.bytes)
    && (forall p | p in outs :: OutputSlot(p.name) in b.memory && |b.memory[OutputSlot(p.name)]| == p.bytes)
  }

  function WithInput(b: Bindings, p: Port): Bindings {
    b.(inputs := b.inputs[p.name := InputSlot(p.name)], memory := b.memory[InputSlot(p.name) := Zeros(p.bytes)])
  }

  function WithOutput(b: Bindings, p: Port): Bindings {
    b.(outputs := b.outputs[p.name := OutputSlot(p.name)], memory := b.memory[OutputSlot(p.name) := Zeros(p.bytes)])
  }

  lemma OneMoreInput(b: Bindings, ins: seq<Port>, p: Port)
    requires BackedBySlots(b, ins, [])
    ensures BackedBySlots(WithInput(b, p), ins + [p], []) && Names(ins + [p]) == Names(ins) + {p.name}
    ensures SlotsHaveSizes(b, ins, []) && (forall q | q in ins :: q.name != p.name) ==>
              SlotsHaveSizes(WithInput(b, p), ins + [p], [])
  {
  }

  lemma OneMoreOutput(b: Bindings, ins: seq<Port>, outs: seq<Port>, p: Port)
    requires BackedBySlots(b, ins, outs)
    ensures BackedBySlots(WithOutput(b, p), ins, outs + [p]) && Names(outs + [p]) == Names(outs) + {p.name}
    ensures SlotsHaveSizes(b, ins, outs) && (forall q | q in outs :: q.name != p.name) ==>
              SlotsHaveSizes(WithOutput(b, p), ins, outs + [p])
  {
  }

  lemma NextNameIsNew(ports: seq<Port>, i: nat)
    requires i < |ports|
    ensures ports[..i + 1] == ports[..i] + [ports[i]] && ports[i].name in Names(ports)
    ensures DistinctNames(ports) ==> forall q | q in ports[..i] :: q.name != ports[i].name
  {
    assert ports[i] in ports;
  }

  method BackInputs(ins: seq<Port>, inputs: set<string>) returns (r: Result<Bindings, WiringError>)
    ensures r.Ok? <==> Names(ins) <= inputs
    ensures r.Ok? ==> BackedBySlots(r.value, ins, []) && (DistinctNames(ins) ==> SlotsHaveSizes(r.value, ins, []))
  {
    var b := Bindings(map[], map[], map[]);
    for i := 0 to |ins|
      invariant Names(ins[..i]) <= inputs && BackedBySlots(b, ins[..i], [])
      invariant DistinctNames(ins) ==> SlotsHaveSizes(b, ins[..i], [])
    {
      NextNameIsNew(ins, i);
      var name := ins[i].name;
      if name !in inputs {
        return Err(InputNotFound(name));
      }
      OneMoreInput(b, ins[..i], ins[i]);
      b := b.(inputs := b.inputs[name := InputSlot(name)], memory := b.memory[InputSlot(name) := Zeros(ins[i].bytes)]);
    }
    assert ins[..|ins|] == ins;
    return Ok(b);
  }

  method BackOutputs(start: Bindings, ins: seq<Port>, outs: seq<Port>, outputs: set<string>)
      returns (r: Result<Bindings, WiringError>)
    requires BackedBySlots(start, ins, [])
    ensures r.Ok? <==> Names(outs) <= outputs
    ensures r.Ok? ==> BackedBySlots(r.value, ins, outs)
    ensures r.Ok? && SlotsHaveSizes(start, ins, []) && DistinctNames(outs) ==> SlotsHaveSizes(r.value, ins, outs)
  {
    var b := start;
    for i := 0 to |outs|
      invariant Names(outs[..i]) <= outputs && BackedBySlots(b, ins, outs[..i])
      invariant SlotsHaveSizes(start, ins, []) && DistinctNames(outs) ==> SlotsHaveSizes(b, ins, outs[..i])
    {
      NextNameIsNew(outs, i);
      var name := outs[i].name;
      if name !in outputs {
        return Err(OutputNotFound(name));
      }
      OneMoreOutput(b, ins, outs[..i], outs[i]);
      b := b.(outputs := b.outputs[name := OutputSlot(name)],
              memory := b.memory[OutputSlot(name) := Zeros(outs[i].bytes)]);
    }
    assert outs[..|outs|] == outs;
    return Ok(b);
  }

  method BackBySlots(ins: seq<Port>, outs: seq<Port>, inputs: set<string>, outputs: set<string>)
    returns (r: Result<Bindings, WiringError>)
    ensures r.Ok? <==> inputs != {} && outputs != {} && Names(ins) <= inputs && Names(outs) <= outputs
    ensures r.Ok? ==> BackedBySlots(r.value, ins, outs)
    ensures r.Ok? && DistinctNames(ins) && DistinctNames(outs) ==> SlotsHaveSizes(r.value, ins, outs)
  {
    if outputs == {} || inputs == {} {
      return Err(NoPorts);
    }
    r := BackInputs(ins, inputs);
    if r.Err? {
      return;
    }
    r := BackOutputs(r.value, ins, outs, outputs);
  }

  /** One end of every variable bound to that variable's blob. */
  function BindEnds(start: map<string, Blob>, prefix: string, vars: seq<Port>): map<string, Blob> {
    if vars == [] then start
    else BindEnds(start, prefix, vars[..|vars| - 1])[prefix + vars[|vars| - 1].name := Own(|vars| - 1)]
  }

  function ZeroBlobs(memory: map<Blob, Bytes>, vars: seq<Port>): map<Blob, Bytes> {
    if vars == [] then memory
    else ZeroBlobs(memory, vars[..|vars| - 1])[Own(|vars| - 1) := Zeros(vars[|vars| - 1].bytes)]
  }

  function BindAll(start: Bindings, vars: seq<Port>): Bindings {
    Bindings(BindEnds(start.inputs, READVALUE_PREFIX, vars), BindEnds(start.outputs, ASSIGN_PREFIX, vars),
             ZeroBlobs(start.memory, vars))
  }

  /** Binds one zeroed blob to both ends of each variable. */
  method BindStates(start: Bindings, vars: seq<Port>) returns (b: Bindings)
    ensures b == BindAll(start, vars)
  {
    var blobs := [];
    for i := 0 to |vars|
      invariant |blobs| == i && forall j: nat | j < i :: blobs[j] == Zeros(vars[j].bytes)
    {
      blobs := blobs + [Zeros(vars[i].bytes)];
    }
    b := start;
    for i := 0 to |vars|
      invariant b == BindAll(start, vars[..i])
    {
      assert vars[..i + 1][..i] == vars[..i];
      b := b.(memory := b.memory[Own(i) := blobs[i]]);
      b := b.(inputs := b.inputs[READVALUE_PREFIX + vars[i].name := Own(i)]);
      b := b.(outputs := b.outputs[ASSIGN_PREFIX + vars[i].name := Own(i)]);
    }
    assert vars[..|vars|] == vars;
  }

  lemma {:induction false} EndsBound(start: map<string, Blob>, prefix: string, vars: seq<Port>)
    ensures var m := BindEnds(start, prefix, vars);
            && m.Keys == start.Keys + Prefixed(prefix, vars)
            && (forall n | n in start && n !in Prefixed(prefix, vars) :: m[n] == start[n])
            && (forall n | n in Prefixed(prefix, vars) :: m[n].Own? && m[n].id < |vars|)
  {
    if vars != [] {
      var before, last := vars[..|vars| - 1], vars[|vars| - 1];
      EndsBound(start, prefix, before);
      assert vars == before + [last];
      assert Prefixed(prefix, vars) == Prefixed(prefix, before) + {prefix + last.name};
    }
  }

  lemma {:induction false} EndBoundToItsBlob(start: map<string, Blob>, prefix: string, vars: seq<Port>, i: nat)
    requires DistinctNames(vars) && i < |vars|
    ensures var m := BindEnds(start, prefix, vars); prefix + vars[i].name in m && m[prefix + vars[i].name] == Own(i)
  {
    if i < |vars| - 1 {
      EndBoundToItsBlob(start, prefix, vars[..|vars| - 1], i);
      PrefixIsInjective(prefix, vars[i].name, vars[|vars| - 1].name);
    }
  }

  lemma EndsBoundToBlobs(start: map<string, Blob>, prefix: string, vars: seq<Port>)
    requires DistinctNames(vars)
    ensures var m, ids := BindEnds(start, prefix, vars), Ids(vars);
            forall i: nat | i < |ids| :: prefix + ids[i] in m && m[prefix + ids[i]] == Own(i)
  {
    var m, ids := BindEnds(start, prefix, vars), Ids(vars);
    forall i: nat | i < |ids| ensures prefix + ids[i] in m && m[prefix + ids[i]] == Own(i) {
      EndBoundToItsBlob(start, prefix, vars, i);
    }
  }

  lemma {:induction false} BlobsZeroed(memory: map<Blob, Bytes>, vars: seq<Port>)
    ensures forall blob | blob in memory :: blob in ZeroBlobs(memory, vars)
    ensures forall blob | blob in memory && !blob.Own? :: ZeroBlobs(memory, vars)[blob] == memory[blob]
    ensures forall i: nat | i < |vars| ::
              Own(i) in ZeroBlobs(memory, vars) && ZeroBlobs(memory, vars)[Own(i)] == Zeros(vars[i].bytes)
  {
    if vars != [] {
      BlobsZeroed(memory, vars[..|vars| - 1]);
    }
  }

  lemma {:induction false} EndsAreBacked(
      start: map<string, Blob>, prefix: string, vars: seq<Port>, memory: map<Blob, Bytes>)
    requires forall n | n in start :: start[n] in memory
    ensures forall n | n in BindEnds(start, prefix, vars) ::
              BindEnds(start, prefix, vars)[n] in ZeroBlobs(memory, vars)
  {
    EndsBound(start, prefix, vars);
    BlobsZeroed(memory, vars);
    var m := BindEnds(start, prefix, vars);
    forall n | n in m ensures m[n] in ZeroBlobs(memory, vars) {
      if n !in Prefixed(prefix, vars) {
        assert m[n] == start[n];
      }
    }
  }

  lemma {:induction false} BindAllBacks(start: Bindings, vars: seq<Port>)
    requires Backed(start)
    ensures Backed(BindAll(start, vars))
  {
    EndsAreBacked(start.inputs, READVALUE_PREFIX, vars, start.memory);
    EndsAreBacked(start.outputs, ASSIGN_PREFIX, vars, start.memory);
    var b := BindAll(start, vars);
    assert forall n | n in b.inputs :: b.inputs[n] in b.memory;
    assert forall n | n in b.outputs :: b.outputs[n] in b.memory;
  }

  lemma BindAllWires(start: Bindings, vars: seq<Port>)
    requires DistinctNames(vars) && Backed(start)
    ensures Wired(BindAll(start, vars), Ids(vars))
  {
    BindAllBacks(start, vars);
    BlobsZeroed(start.memory, vars);
    EndsBoundToBlobs(start.inputs, READVALUE_PREFIX, vars);
    EndsBoundToBlobs(start.outputs, ASSIGN_PREFIX, vars);
  }

  lemma BindAllCreates(start: Bindings, ins: seq<Port>, outs: seq<Port>)
    requires BackedBySlots(start, ins, outs) && DistinctNames(Variables(ins))
    ensures Created(BindAll(start, Variables(ins)), ins, outs)
  {
    var vars := Variables(ins);
    BindAllWires(start, vars);
    EndsBound(start.inputs, READVALUE_PREFIX, vars);
    EndsBound(start.outputs, ASSIGN_PREFIX, vars);
    BlobsZeroed(start.memory, vars);
    assert forall p | p in ins :: p.name in Names(ins);
    assert forall p | p in outs :: p.name in Names(outs);
  }

  /** Binding variables leaves the slots alone. */
  lemma BindAllKeepsSlots(start: Bindings, ins: seq<Port>, outs: seq<Port>, vars: seq<Port>)
    requires SlotsHaveSizes(start, ins, outs)
    ensures SlotsHaveSizes(BindAll(start, vars), ins, outs)
  {
    BlobsZeroed(start.memory, vars);
  }

  lemma PrefixIsInjective(p: string, a: string, b: string)
    ensures p + a == p + b ==> a == b
  {
    assert (p + a)[|p|..] == a && (p + b)[|p|..] == b;
  }

  lemma {:induction false} VariablesAreDistinct(ins: seq<Port>)
    requires DistinctNames(ins) && InputNamesAreProper(ins)
    ensures DistinctNames(Variables(ins))
  {
    if ins != [] {
      var before, last := ins[..|ins| - 1], ins[|ins| - 1];
      assert ins == before + [last];
      VariablesAreDistinct(before);
      if IsStateInput(last.name) {
        forall v | v in Variables(before) ensures v.name != VariableId(last.name) {
          var p :| p in before && IsStateInput(p.name) && v == Port(VariableId(p.name), p.bytes);
          VariableIdRoundTrip(p.name);
          VariableIdRoundTrip(last.name);
        }
      }
    }
  }

  /** A request can be created exactly when every state input has one matching state output, every state name
      carries its prefix at the front and pairs up, and there is something to read and something to write.
      In it each variable has one zeroed blob bound to both its ends. */
  method CreateInferRequest(ins: seq<Port>, outs: seq<Port>) returns (r: Result<Bindings, WiringError>)
    requires DistinctNames(ins)
    ensures r.Ok? <==> && (forall p | p in ins :: HasItsAssign(p, outs))
                       && NetworkInputs(ins) != {} && NetworkOutputs(ins, outs) != {}
                       && InputNamesAreProper(ins) && OutputsAreKnown(ins, outs)
    ensures r.Ok? ==> Created(r.value, ins, outs)
    ensures r.Ok? && DistinctNames(outs) ==> SlotsHaveSizes(r.value, ins, outs)
  {
    var states := ExtractStates(ins, outs);
    if states.Err? {
      return Err(states.error);
    }
    var userInputs := WithoutStates(ins, NotStateInput());
    var userOutputs := WithoutStates(outs, NotStateOutput());
    var inputs := Names(userInputs) + Prefixed(READVALUE_PREFIX, states.value);
    var outputs := Names(userOutputs) + Prefixed(ASSIGN_PREFIX, states.value);
    assert Names(ins) <= inputs <==> InputNamesAreProper(ins) by {
      forall p | p in ins { InputIsKnown(ins, p); }
      assert forall p | p in ins :: p.name in Names(ins);
    }
    assert Names(outs) <= outputs <==> OutputsAreKnown(ins, outs) by {
      forall p | p in outs { OutputIsKnown(ins, outs, p); }
      assert forall p | p in outs :: p.name in Names(outs);
    }
    var backed := BackBySlots(ins, outs, inputs, outputs);
    if backed.Err? {
      return Err(backed.error);
    }
    VariablesAreDistinct(ins);
    BindAllCreates(backed.value, ins, outs);
    if DistinctNames(outs) {
      BindAllKeepsSlots(backed.value, ins, outs, states.value);
    }
    var b := BindStates(backed.value, states.value);
    return Ok(b);
  }
}
