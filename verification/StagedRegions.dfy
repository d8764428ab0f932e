/** The bytes of a staging region and the named slots an inference is about. */
module StagedRegions {
  import opened CommandQueues
  import opened EngineSession
  import opened InferRequest
  import opened Numbers
  import opened PipelineTheorems
  import opened StagingMemory
  import opened StateWiring
  import opened StatefulSession
  import opened Wrappers

  /** The argument a name stands for: the first appended under it, or none. */
  function Named(args: seq<Argument>, name: string): (i: nat)
    ensures i <= |args| && (i < |args| ==> args[i].name == name)
    ensures forall j | 0 <= j < i :: args[j].name != name
  {
    if args == [] then 0 else
    var i := Named(args[..|args| - 1], name);
    if i < |args| - 1 || args[i].name == name then i else |args|
  }

  function Names(args: seq<Argument>): set<string> {
    set i | 0 <= i < |args| :: args[i].name
  }

  /** What a region holds, by the names of its slots. */
  function Slots(args: seq<Argument>, region: seq<byte>): Region
    requires |region| == RegionSize(args)
  {
    map n | n in Names(args) :: SlotContents(args, region, Named(args, n))
  }

  /** It is what is read through the pointer a name resolves to. */
  lemma {:induction false} PointerReadsSlot(from: Allocation, args: seq<Argument>, region: seq<byte>, n: string)
    requires |region| == RegionSize(args) && n in Names(args) && from.address != 0
    ensures var at, bytes := PointerInto(Some(from), args, n), args[Named(args, n)].bytes;
            && at.Ok? && from.address <= at.value <= at.value + bytes <= from.address + |region|
            && region[at.value - from.address..][..bytes] == Slots(args, region)[n]
  {
    var i := Named(args, n);
    NameResolvesToItsSlot(from, args, i);
    SlotsAreSeparate(args, i);
    var start := SlotStart(args, i);
    assert region[start..][..args[i].bytes] == region[start..start + args[i].bytes];
  }

  lemma SlotAfterSplice(args: seq<Argument>, region: seq<byte>, i: nat, data: seq<byte>, j: nat)
    requires i < |args| && j < |args| && |region| == RegionSize(args) && |data| == args[i].bytes
    ensures SlotStart(args, i) + |data| <= |region|
    ensures SlotContents(args, Splice(region, SlotStart(args, i), data), j)
            == if j == i then data else SlotContents(args, region, j)
  {
    SpliceKeepsOtherSlots(args, region, i, data);
  }

  /** Storing data in a name's slot updates that name and no other. */
  lemma SpliceIsUpdate(args: seq<Argument>, region: seq<byte>, n: string, data: seq<byte>)
    requires |region| == RegionSize(args) && n in Names(args) && |data| == args[Named(args, n)].bytes
    ensures SlotStart(args, Named(args, n)) + |data| <= |region|
    ensures Slots(args, Splice(region, SlotStart(args, Named(args, n)), data)) == Slots(args, region)[n := data]
  {
    var i := Named(args, n);
    SlotAfterSplice(args, region, i, data, i);
    forall o | o in Names(args)
      ensures Slots(args, Splice(region, SlotStart(args, i), data))[o] == Slots(args, region)[n := data][o]
    {
      SlotAfterSplice(args, region, i, data, Named(args, o));
    }
  }

  /** The bulk copy of a region takes all named slots with it. */
  lemma {:induction false} BulkCopyKeepsSlots(args: seq<Argument>, dst: seq<byte>, src: seq<byte>)
    requires |dst| == |src| == RegionSize(args)
    ensures Slots(args, CopyArguments(args, dst, src, |args|)) == Slots(args, src)
  {
    BulkCopyCopiesEveryArgument(args, dst, src);
  }

  // ---- any contents of the right sizes are the reading of a region ----

  /** Each name has data as long as its slot. */
  predicate OfSize(args: seq<Argument>, m: Region) {
    m.Keys == Names(args) && forall n | n in m :: |m[n]| == args[Named(args, n)].bytes
  }

  /** Data for every argument; one whose name stands for an earlier one is zero. */
  function DataOf(args: seq<Argument>, m: Region): (data: seq<seq<byte>>)
    requires OfSize(args, m)
    ensures |data| == |args| && forall i | 0 <= i < |args| :: |data[i]| == args[i].bytes
  {
    seq(|args|, i requires 0 <= i < |args| =>
      if Named(args, args[i].name) == i then m[args[i].name] else Zeros(args[i].bytes))
  }

  /** A region with the data of the first `n` arguments stored, zero elsewhere. */
  function Rendered(args: seq<Argument>, data: seq<seq<byte>>, n: nat): (region: seq<byte>)
    requires n <= |args| == |data| && forall i | 0 <= i < |args| :: |data[i]| == args[i].bytes
    ensures |region| == RegionSize(args)
  {
    if n == 0 then Zeros(RegionSize(args)) else
    SlotsAreSeparate(args, n - 1);
    Splice(Rendered(args, data, n - 1), SlotStart(args, n - 1), data[n - 1])
  }

  lemma {:induction false} RenderedSlot(args: seq<Argument>, data: seq<seq<byte>>, n: nat, i: nat)
    requires i < n <= |args| == |data| && forall k | 0 <= k < |args| :: |data[k]| == args[k].bytes
    ensures SlotContents(args, Rendered(args, data, n), i) == data[i]
  {
    var before := Rendered(args, data, n - 1);
    SlotAfterSplice(args, before, n - 1, data[n - 1], i);
    if i < n - 1 {
      RenderedSlot(args, data, n - 1, i);
      assert SlotContents(args, before, i) == data[i];
    }
  }

  function RegionOf(args: seq<Argument>, m: Region): (region: seq<byte>)
    requires OfSize(args, m)
    ensures |region| == RegionSize(args)
  {
    Rendered(args, DataOf(args, m), |args|)
  }

  lemma SlotsOfRegionOf(args: seq<Argument>, m: Region)
    requires OfSize(args, m)
    ensures Slots(args, RegionOf(args, m)) == m
  {
    forall n | n in m ensures SlotContents(args, RegionOf(args, m), Named(args, n)) == m[n] {
      RenderedSlot(args, DataOf(args, m), |args|, Named(args, n));
    }
  }

  lemma SlotsAreOfSize(args: seq<Argument>, region: seq<byte>)
    requires |region| == RegionSize(args)
    ensures OfSize(args, Slots(args, region))
  {
  }

  // ---- staging inputs ----

  /** The data of every input is as long as its slot, which its port's check asks for. */
  predicate Fits(b: Bindings, args: seq<Argument>, ins: seq<string>) {
    forall n | n in ins ::
      n in Names(args) && n in b.inputs && b.inputs[n] in b.memory
      && |b.memory[b.inputs[n]]| == args[Named(args, n)].bytes
  }

  /** The input region after the inputs have been copied in, in order. */
  function StageAll(b: Bindings, args: seq<Argument>, region: seq<byte>, ins: seq<string>): (r: seq<byte>)
    requires |region| == RegionSize(args) && Fits(b, args, ins)
    ensures |r| == |region|
  {
    if ins == [] then region else
    var n := ins[|ins| - 1];
    assert ins == ins[..|ins| - 1] + [n];
    var before := StageAll(b, args, region, ins[..|ins| - 1]);
    SpliceIsUpdate(args, before, n, b.memory[b.inputs[n]]);
    if b.inputs[n].InputSlot? then before
    else Splice(before, SlotStart(args, Named(args, n)), b.memory[b.inputs[n]])
  }

  /** The slots of the bindings are those of the region. */
  predicate Mirrors(b: Bindings, args: seq<Argument>, region: seq<byte>)
    requires |region| == RegionSize(args)
  {
    forall n | n in Names(args) :: InputSlot(n) in b.memory && b.memory[InputSlot(n)] == Slots(args, region)[n]
  }

  lemma {:induction false} CopyInKeepsSources(b: Bindings, ins: seq<string>, blob: Blob)
    requires forall n | n in ins :: n in b.inputs && b.inputs[n] in b.memory
    requires blob in b.memory && !blob.InputSlot?
    ensures CopyIn(b, ins).memory[blob] == b.memory[blob]
  {
    if ins != [] {
      assert ins == ins[..|ins| - 1] + [ins[|ins| - 1]];
      CopyInKeepsSources(b, ins[..|ins| - 1], blob);
    }
  }

  /** Copying bytes into the region does to it what copying blobs does to the bindings. */
  lemma {:induction false} StagingMirrors(b: Bindings, args: seq<Argument>, region: seq<byte>, ins: seq<string>)
    requires |region| == RegionSize(args) && Fits(b, args, ins) && Mirrors(b, args, region)
    ensures Mirrors(CopyIn(b, ins), args, StageAll(b, args, region, ins))
  {
    if ins != [] {
      var before, n := ins[..|ins| - 1], ins[|ins| - 1];
      assert ins == before + [n];
      StagingMirrors(b, args, region, before);
      if !b.inputs[n].InputSlot? {
        CopyInKeepsSources(b, before, b.inputs[n]);
        SpliceIsUpdate(args, StageAll(b, args, region, before), n, b.memory[b.inputs[n]]);
      }
    }
  }

  /** So the slots of the region handed over are what the bindings have staged. */
  lemma StagedBytesAreStaged(b: Bindings, args: seq<Argument>, region: seq<byte>, ins: seq<string>)
    requires |region| == RegionSize(args) && Fits(b, args, ins) && Mirrors(b, args, region)
    requires forall n :: n in Names(args) <==> n in ins
    ensures forall n | n in ins :: InputSlot(n) in CopyIn(b, ins).memory
    ensures Staged(CopyIn(b, ins), ins) == Slots(args, StageAll(b, args, region, ins))
  {
    StagingMirrors(b, args, region, ins);
  }

  // ---- the engine on bytes ----

  /** The compiled graph as it runs on regions of bytes. */
  ghost predicate ComputesOnBytes(
    inArgs: seq<Argument>, outArgs: seq<Argument>, outs: seq<string>, g: Graph, h: seq<byte> -> seq<byte>)
  {
    forall region | |region| == RegionSize(inArgs) ::
      && |h(region)| == RegionSize(outArgs)
      && Slots(outArgs, h(region)) == OnRegions(outs, g)(Slots(inArgs, region))
  }

  /** Such a function on bytes exists for every graph whose outputs have the sizes of their slots. */
  function OnBytes(inArgs: seq<Argument>, outArgs: seq<Argument>, outs: seq<string>, g: Graph): seq<byte> -> seq<byte>
  {
    (region: seq<byte>) =>
      if |region| != RegionSize(inArgs) then []
      else
        var answer := OnRegions(outs, g)(Slots(inArgs, region));
        if OfSize(outArgs, answer) then RegionOf(outArgs, answer) else []
  }

  lemma OnBytesComputes(inArgs: seq<Argument>, outArgs: seq<Argument>, outs: seq<string>, g: Graph)
    requires forall m | OfSize(inArgs, m) :: OfSize(outArgs, OnRegions(outs, g)(m))
    ensures ComputesOnBytes(inArgs, outArgs, outs, g, OnBytes(inArgs, outArgs, outs, g))
  {
    forall region | |region| == RegionSize(inArgs)
      ensures |OnBytes(inArgs, outArgs, outs, g)(region)| == RegionSize(outArgs)
      ensures Slots(outArgs, OnBytes(inArgs, outArgs, outs, g)(region)) == OnRegions(outs, g)(Slots(inArgs, region))
    {
      SlotsAreOfSize(inArgs, region);
      SlotsOfRegionOf(outArgs, OnRegions(outs, g)(Slots(inArgs, region)));
    }
  }

  predicate AllOfSize(regions: seq<seq<byte>>, args: seq<Argument>) {
    forall i | 0 <= i < |regions| :: |regions[i]| == RegionSize(args)
  }

  function AllSlots(args: seq<Argument>, regions: seq<seq<byte>>): (r: seq<Region>)
    requires AllOfSize(regions, args)
    ensures |r| == |regions|
  {
    seq(|regions|, i requires 0 <= i < |regions| => Slots(args, regions[i]))
  }

  lemma AnsweredOnBytes(
      inputs: seq<seq<byte>>, outputs: seq<seq<byte>>, inArgs: seq<Argument>, outArgs: seq<Argument>, outs: seq<string>,
      g: Graph, h: seq<byte> -> seq<byte>)
    requires ComputesOnBytes(inArgs, outArgs, outs, g, h) && AllOfSize(inputs, inArgs) && |outputs| <= |inputs|
    requires forall k: nat | k < |outputs| :: outputs[k] == h(inputs[k])
    ensures AllOfSize(outputs, outArgs)
    ensures forall k: nat | k < |outputs| ::
              AllSlots(outArgs, outputs)[k] == OnRegions(outs, g)(AllSlots(inArgs, inputs)[k])
  {
    forall k: nat | k < |outputs|
      ensures |outputs[k]| == RegionSize(outArgs)
      ensures Slots(outArgs, outputs[k]) == OnRegions(outs, g)(Slots(inArgs, inputs[k]))
    {
      assert |inputs[k]| == RegionSize(inArgs);
    }
  }

  /** Down to the bytes: on any number of requests whose regions of bytes go through the shared queues in any
      interleaving, one that writes regions whose slots are what it has staged sees its own fold in the slots of the
      regions it reads. */
  lemma EveryRequestSeesItsOwnFoldInBytes(
      s: System<seq<byte>>, labels: seq<Label<seq<byte>>>, t: System<seq<byte>>, r: nat,
      inArgs: seq<Argument>, outArgs: seq<Argument>, h: seq<byte> -> seq<byte>,
      b: Bindings, net: Net, g: Graph, ops: seq<Operation>)
    requires IsStart(s) && IsRun(s, labels, t, h) && r < |t.requests| && Session(b, net)
    requires ComputesOnBytes(inArgs, outArgs, net.outs, g, h) && AllOfSize(t.requests[r].inputs, inArgs)
    ensures AllOfSize(t.requests[r].outputs, outArgs)
    ensures var answers := AllSlots(outArgs, t.requests[r].outputs);
            var trace := Replay(b, net, g, ops, answers);
            |trace.fed| <= |answers| && trace.fed <= AllSlots(inArgs, t.requests[r].inputs) ==>
              && trace.seen == Fold(net, g, StateOf(b, net), ops).1
              && StateOf(trace.b, net) == Fold(net, g, StateOf(b, net), ops).0
  {
    AnswersMatchInputs(s, labels, t, h, r);
    var q := t.requests[r];
    AnsweredOnBytes(q.inputs, q.outputs, inArgs, outArgs, net.outs, g, h);
    var answers := AllSlots(outArgs, q.outputs);
    var fed := Replay(b, net, g, ops, answers).fed;
    if |fed| <= |answers| && fed <= AllSlots(inArgs, q.inputs) {
      assert Answered(fed, answers, net.outs, g);
      ReplayIsRun(b, net, g, ops, answers);
      RequestIsAFold(b, net, g, ops);
    }
  }
}
