/** The pipeline objects: constructors that record command lists, and methods that call the driver. */
module ZeroPipeline {
  import opened CommandQueues
  import opened PipelineInvariant
  import opened PipelineTheorems

  /** What one request sees of the device.  Other requests only decide when its commands run, and here they may
      run at any time they can. */
  class Device<D> {
    const graph: D -> D
    var request: Request<D>

    ghost predicate Valid()
      reads this
    {
      RequestInv(request, graph) && request.pc < |Round(request.kind)|
    }

    constructor (kind: Kind, mem: Memory<D>, graph: D -> D)
      ensures Valid() && request == Start(kind, mem) && this.graph == graph
    {
      request, this.graph := Start(kind, mem), graph;
    }

    /** The device runs any number of commands in any order in which they can run. */
    method Runs()
      requires Valid()
      modifies this
      ensures Valid() && SameHost(old(request), request)
    {
      var n: nat :| true;
      for k := 0 to n
        invariant Valid() && SameHost(old(request), request)
      {
        var stage: Stage := *;
        var i: nat := *;
        if DeviceEnabled(request, stage, i) {
          Run(stage, i);
        }
      }
    }

    method Run(stage: Stage, i: nat)
      requires Valid() && DeviceEnabled(request, stage, i)
      modifies this
      ensures Valid() && SameHost(old(request), request) && RequestWork(request) == RequestWork(old(request)) - 1
    {
      DeviceKeepsRequest(request, stage, i, graph);
      DeviceNextWork(request, stage, i, graph);
      DeviceKeepsHost(request, stage, i, graph);
      request := DeviceNext(request, stage, i, graph);
    }

    /** Blocks until the operation can be performed.  The device keeps running, so this ends. */
    method Await(op: HostOp)
      requires Valid() && Round(request.kind)[request.pc] == op
      modifies this
      ensures Valid() && SameHost(old(request), request) && CanPerform(request, op)
    {
      Runs();
      while !CanPerform(request, op)
        invariant Valid() && SameHost(old(request), request)
        decreases RequestWork(request)
      {
        WaitingForDevice(request, graph);
        var stage, i :| stage in {UPLOAD, EXECUTE, READBACK} && 0 <= i < 3 && DeviceEnabled(request, stage, i);
        Run(stage, i);
      }
    }

    /** One driver call, made where the protocol has it. */
    method Issue(op: HostOp)
      requires Valid() && Round(request.kind)[request.pc] == op && !op.WriteInput? && !op.ReadOutput?
      modifies this
      ensures Valid() && Follows(old(request), request)
      ensures request.inputs == old(request).inputs && request.outputs == old(request).outputs
    {
      Await(op);
      HostKeepsRequest(request, request.mem.hostInput, graph);
      request := HostNext(request, request.mem.hostInput);
    }

    method ExecuteCommandList(list: seq<Command>, stage: Stage, fenced: bool)
      requires Valid() && list == Recorded(request.kind, stage)
      requires Round(request.kind)[request.pc] == Submit(stage, fenced)
      modifies this
      ensures Valid() && Follows(old(request), request)
      ensures request.inputs == old(request).inputs && request.outputs == old(request).outputs
    {
      Issue(Submit(stage, fenced));
    }

    method WriteInput(v: D)
      requires Valid() && Quiescent(request)
      modifies this
      ensures Valid() && Follows(old(request), request)
      ensures request.inputs == old(request).inputs + [v] && request.outputs == old(request).outputs
    {
      HostKeepsRequest(request, v, graph);
      request := HostNext(request, v);
    }

    method ReadOutput() returns (out: D)
      requires Valid() && Round(request.kind)[request.pc].ReadOutput?
      modifies this
      ensures Valid() && Follows(old(request), request)
      ensures request.inputs == old(request).inputs && request.outputs == old(request).outputs + [out]
    {
      out := request.mem.hostOutput;
      HostKeepsRequest(request, request.mem.hostInput, graph);
      request := HostNext(request, request.mem.hostInput);
    }
  }

  ghost predicate SameHost<D>(a: Request<D>, b: Request<D>) {
    b.kind == a.kind && b.pc == a.pc && b.inputs == a.inputs && b.outputs == a.outputs
  }

  lemma DeviceKeepsHost<D>(r: Request<D>, stage: Stage, i: nat, g: D -> D)
    requires DeviceEnabled(r, stage, i)
    ensures SameHost(r, DeviceNext(r, stage, i, g))
  {
  }

  predicate Follows<D>(a: Request<D>, b: Request<D>) {
    b.kind == a.kind && b.pc == if a.pc + 1 == |Round(a.kind)| then 0 else a.pc + 1
  }

  lemma WaitingForDevice<D>(r: Request<D>, g: D -> D)
    requires RequestInv(r, g) && r.pc < |Round(r.kind)| && !CanPerform(r, Round(r.kind)[r.pc])
    ensures exists stage, i :: stage in {UPLOAD, EXECUTE, READBACK} && 0 <= i < 3 && DeviceEnabled(r, stage, i)
  {
    RoundLaidOut();
    var stage := if UPLOAD in r.jobs then UPLOAD else if EXECUTE in r.jobs then EXECUTE else READBACK;
    assert stage in r.jobs;
    if stage == EXECUTE {
      ExecuteListCanRun(r, g);
    } else {
      CopyListsCanRun(r, stage, g);
    }
    var i: nat :| DeviceEnabled(r, stage, i);
    assert stage in {UPLOAD, EXECUTE, READBACK} && 0 <= i < 3;
  }

  // ---- where a round stands between the calls of a request ----

  function WrittenAt(): nat { 1 }

  function PushedAt(kind: Kind): nat { WrittenAt() + |PushOps(kind)| }

  function PulledAt(kind: Kind): nat { PushedAt(kind) + |PullOps(kind)| }

  function ReadAt(kind: Kind): nat { PulledAt(kind) + 1 }

  /** After a pull the region holds the answer to the open input. */
  lemma PulledHoldsAnswer<D>(r: Request<D>, g: D -> D)
    requires RequestInv(r, g) && r.pc == PulledAt(r.kind)
    ensures |r.inputs| == |r.outputs| + 1 && r.mem.hostOutput == g(Current(r)) && Round(r.kind)[r.pc] == ReadOutput
  {
    RoundLaidOut();
  }

  class DiscretePipeline<D> {
    const device: Device<D>
    var lists: map<Stage, seq<Command>>

    ghost predicate Valid()
      reads this, device
    {
      && device.Valid() && device.request.kind == Discrete
      && lists == map[UPLOAD := Recorded(Discrete, UPLOAD), EXECUTE := Recorded(Discrete, EXECUTE),
                      READBACK := Recorded(Discrete, READBACK)]
    }

    /** Graph arguments are the device regions, and a recorded graph execution keeps the arguments set when it
        was appended. */
    constructor (mem: Memory<D>, graph: D -> D)
      ensures Valid() && fresh(device) && Quiescent(device.request) && device.graph == graph
    {
      var upload, execute, readback := [], [], [];
      upload := upload + [Copy(DeviceInput, HostInput)];
      var graphInput := DeviceInput;
      upload := upload + [Barrier];
      upload := upload + [SignalEvent];
      readback := readback + [Copy(HostOutput, DeviceOutput)];
      var graphOutput := DeviceOutput;
      execute := execute + [WaitEvent];
      execute := execute + [GraphExecute(graphInput, graphOutput)];
      readback := readback + [ResetEvent];
      lists := map[UPLOAD := upload, EXECUTE := execute, READBACK := readback];
      device := new Device(Discrete, mem, graph);
      assert upload == Recorded(Discrete, UPLOAD);
      assert execute == Recorded(Discrete, EXECUTE);
      assert readback == Recorded(Discrete, READBACK);
    }

    method Push()
      requires Valid() && device.request.pc == WrittenAt()
      modifies device
      ensures Valid() && device.request.pc == PushedAt(Discrete)
      ensures device.request.inputs == old(device.request.inputs)
      ensures device.request.outputs == old(device.request.outputs)
    {
      RoundLaidOut();
      device.ExecuteCommandList(lists[UPLOAD], UPLOAD, false);
      device.ExecuteCommandList(lists[EXECUTE], EXECUTE, true);
    }

    /** However the device has been running, the output region then holds the graph's value on the open input. */
    method Pull()
      requires Valid() && device.request.pc == PushedAt(Discrete)
      modifies device
      ensures Valid() && device.request.pc == PulledAt(Discrete)
      ensures device.request.inputs == old(device.request.inputs)
      ensures device.request.outputs == old(device.request.outputs)
      ensures |device.request.inputs| > |device.request.outputs|
      ensures device.request.mem.hostOutput == device.graph(Current(device.request))
    {
      RoundLaidOut();
      device.Issue(AwaitFence(EXECUTE));
      device.ExecuteCommandList(lists[READBACK], READBACK, true);
      device.Issue(AwaitFence(READBACK));
      PulledHoldsAnswer(device.request, device.graph);
    }

    /** The next round starts as the first did. */
    method Reset()
      requires Valid() && device.request.pc == ReadAt(Discrete)
      modifies device
      ensures Valid() && Quiescent(device.request)
      ensures device.request.inputs == old(device.request.inputs)
      ensures device.request.outputs == old(device.request.outputs)
    {
      RoundLaidOut();
      var fences := [UPLOAD, EXECUTE, READBACK];
      for i := 0 to |fences|
        invariant Valid() && device.request.pc == if i == |fences| then 0 else ReadAt(Discrete) + i
        invariant device.request.inputs == old(device.request.inputs)
        invariant device.request.outputs == old(device.request.outputs)
      {
        device.Issue(ClearFence(fences[i]));
      }
    }

    /** One inference: the one-step specification out := G(in), and ready for the next. */
    method Infer(v: D) returns (out: D)
      requires Valid() && Quiescent(device.request)
      modifies device
      ensures Valid() && Quiescent(device.request) && out == device.graph(v)
    {
      device.WriteInput(v);
      Push();
      Pull();
      PulledHoldsAnswer(device.request, device.graph);
      out := device.ReadOutput();
      Reset();
    }
  }

  class IntegratedPipeline<D> {
    const device: Device<D>
    const syncOutputWithFences: bool
    var list: seq<Command>

    function Kind(): Kind {
      if syncOutputWithFences then IntegratedFence else IntegratedEvent
    }

    ghost predicate Valid()
      reads this, device
    {
      device.Valid() && device.request.kind == Kind() && list == Recorded(Kind(), EXECUTE)
    }

    constructor (mem: Memory<D>, graph: D -> D, syncOutputWithFences: bool)
      ensures Valid() && fresh(device) && Quiescent(device.request) && device.graph == graph
      ensures this.syncOutputWithFences == syncOutputWithFences
    {
      this.syncOutputWithFences := syncOutputWithFences;
      var recorded := [GraphExecute(HostInput, HostOutput)];
      if !syncOutputWithFences {
        recorded := recorded + [Barrier];
        recorded := recorded + [SignalEvent];
      }
      list := recorded;
      device := new Device(if syncOutputWithFences then IntegratedFence else IntegratedEvent, mem, graph);
    }

    method Push()
      requires Valid() && device.request.pc == WrittenAt()
      modifies device
      ensures Valid() && device.request.pc == PushedAt(Kind())
      ensures device.request.inputs == old(device.request.inputs)
      ensures device.request.outputs == old(device.request.outputs)
    {
      RoundLaidOut();
      if syncOutputWithFences {
        device.ExecuteCommandList(list, EXECUTE, true);
      } else {
        device.ExecuteCommandList(list, EXECUTE, false);
      }
    }

    /** However the device has been running, the output region then holds the graph's value on the open input. */
    method Pull()
      requires Valid() && device.request.pc == PushedAt(Kind())
      modifies device
      ensures Valid() && device.request.pc == PulledAt(Kind())
      ensures device.request.inputs == old(device.request.inputs)
      ensures device.request.outputs == old(device.request.outputs)
      ensures |device.request.inputs| > |device.request.outputs|
      ensures device.request.mem.hostOutput == device.graph(Current(device.request))
    {
      RoundLaidOut();
      if syncOutputWithFences {
        device.Issue(AwaitFence(EXECUTE));
      } else {
        device.Issue(AwaitEvent);
      }
      PulledHoldsAnswer(device.request, device.graph);
    }

    /** The next round starts as the first did. */
    method Reset()
      requires Valid() && device.request.pc == ReadAt(Kind())
      modifies device
      ensures Valid() && Quiescent(device.request)
      ensures device.request.inputs == old(device.request.inputs)
      ensures device.request.outputs == old(device.request.outputs)
    {
      RoundLaidOut();
      if syncOutputWithFences {
        device.Issue(ClearFence(EXECUTE));
      } else {
        device.Issue(ClearEvent);
      }
    }

    /** One inference: the one-step specification out := G(in), and ready for the next. */
    method Infer(v: D) returns (out: D)
      requires Valid() && Quiescent(device.request)
      modifies device
      ensures Valid() && Quiescent(device.request) && out == device.graph(v)
    {
      device.WriteInput(v);
      Push();
      Pull();
      PulledHoldsAnswer(device.request, device.graph);
      out := device.ReadOutput();
      Reset();
    }
  }
}
