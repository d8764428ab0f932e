/** What every step keeps, for every request, pipeline variant and interleaving. */
module PipelineInvariant {
  import opened CommandQueues

  /** The input of the round that is open. */
  function Current<D>(r: Request<D>): D
    requires |r.inputs| > |r.outputs|
  {
    r.inputs[|r.outputs|]
  }

  /** The answers so far are the graph's answers to the inputs so far, and `open` says whether an input still
      waits for its answer. */
  ghost predicate History<D>(r: Request<D>, open: bool, g: D -> D) {
    && |r.inputs| == |r.outputs| + (if open then 1 else 0)
    && forall n: nat | n < |r.outputs| :: r.outputs[n] == g(r.inputs[n])
  }

  /** Between rounds nothing is signalled and nothing is queued. */
  predicate Quiescent<D>(r: Request<D>) {
    r.pc == 0 && !r.event && r.fences == {} && r.jobs == map[]
  }

  ghost predicate UploadInv<D>(r: Request<D>, g: D -> D)
    requires |r.inputs| > |r.outputs|
  {
    && r.mem.hostInput == Current(r)
    && (UPLOAD in r.jobs <==> !r.event)
    && (UPLOAD !in r.jobs ==> r.mem.deviceInput == Current(r))
    && (UPLOAD in r.jobs ==>
          var job := r.jobs[UPLOAD];
          && !job.fenced && 2 !in job.done
          && (1 in job.done ==> 0 in job.done)
          && (0 in job.done ==> r.mem.deviceInput == Current(r)))
  }

  ghost predicate DiscreteInv<D>(r: Request<D>, g: D -> D) {
    && History(r, 1 <= r.pc <= 6, g)
    && match r.pc
       case 0 => Quiescent(r)
       case 1 => !r.event && r.fences == {} && r.jobs == map[] && r.mem.hostInput == Current(r)
       case 2 => r.fences == {} && r.jobs.Keys <= {UPLOAD} && UploadInv(r, g)
       case 3 =>
         && r.jobs.Keys <= {UPLOAD, EXECUTE} && r.fences <= {EXECUTE} && UploadInv(r, g)
         && (EXECUTE in r.jobs <==> EXECUTE !in r.fences)
         && (EXECUTE in r.jobs ==>
               r.jobs[EXECUTE].fenced && 1 !in r.jobs[EXECUTE].done && (0 in r.jobs[EXECUTE].done ==> r.event))
         && (EXECUTE in r.fences ==> r.event && r.mem.deviceOutput == g(Current(r)))
       case 4 =>
         r.event && r.fences == {EXECUTE} && r.jobs == map[] && r.mem.deviceOutput == g(Current(r))
       case 5 =>
         && r.jobs.Keys <= {READBACK} && {EXECUTE} <= r.fences <= {EXECUTE, READBACK}
         && r.mem.deviceOutput == g(Current(r))
         && (READBACK in r.jobs <==> READBACK !in r.fences)
         && (READBACK in r.jobs ==>
               var job := r.jobs[READBACK];
               && job.fenced && !(0 in job.done && 1 in job.done)
               && (r.event <==> 1 !in job.done)
               && (0 in job.done ==> r.mem.hostOutput == g(Current(r))))
         && (READBACK in r.fences ==> !r.event && r.mem.hostOutput == g(Current(r)))
       case 6 =>
         !r.event && r.fences == {EXECUTE, READBACK} && r.jobs == map[] && r.mem.hostOutput == g(Current(r))
       case 7 => !r.event && r.fences == {EXECUTE, READBACK} && r.jobs == map[]
       case 8 => !r.event && r.fences == {EXECUTE, READBACK} && r.jobs == map[]
       case 9 => !r.event && r.fences == {READBACK} && r.jobs == map[]
       case _ => false
  }

  ghost predicate FenceInv<D>(r: Request<D>, g: D -> D) {
    && History(r, 1 <= r.pc <= 3, g)
    && !r.event
    && match r.pc
       case 0 => Quiescent(r)
       case 1 => r.fences == {} && r.jobs == map[] && r.mem.hostInput == Current(r)
       case 2 =>
         && r.jobs.Keys <= {EXECUTE} && r.fences <= {EXECUTE} && r.mem.hostInput == Current(r)
         && (EXECUTE in r.jobs <==> EXECUTE !in r.fences)
         && (EXECUTE in r.jobs ==> r.jobs[EXECUTE].fenced && 0 !in r.jobs[EXECUTE].done)
         && (EXECUTE in r.fences ==> r.mem.hostOutput == g(Current(r)))
       case 3 => r.fences == {EXECUTE} && r.jobs == map[] && r.mem.hostOutput == g(Current(r))
       case 4 => r.fences == {EXECUTE} && r.jobs == map[]
       case _ => false
  }

  ghost predicate EventInv<D>(r: Request<D>, g: D -> D) {
    && History(r, 1 <= r.pc <= 3, g)
    && r.fences == {}
    && match r.pc
       case 0 => Quiescent(r)
       case 1 => !r.event && r.jobs == map[] && r.mem.hostInput == Current(r)
       case 2 =>
         && r.jobs.Keys <= {EXECUTE} && r.mem.hostInput == Current(r)
         && (EXECUTE in r.jobs <==> !r.event)
         && (EXECUTE in r.jobs ==>
               var job := r.jobs[EXECUTE];
               && !job.fenced && 2 !in job.done && (1 in job.done ==> 0 in job.done)
               && (0 in job.done ==> r.mem.hostOutput == g(Current(r))))
         && (r.event ==> r.mem.hostOutput == g(Current(r)))
       case 3 => r.event && r.jobs == map[] && r.mem.hostOutput == g(Current(r))
       case 4 => r.event && r.jobs == map[]
       case _ => false
  }

  ghost predicate RequestInv<D>(r: Request<D>, g: D -> D) {
    match r.kind
    case Discrete => DiscreteInv(r, g)
    case IntegratedFence => FenceInv(r, g)
    case IntegratedEvent => EventInv(r, g)
  }

  /** Each queue holds exactly the requests with a pending list on it, once each. */
  ghost predicate QueueInv<D>(s: System<D>, stage: Stage) {
    var q := s.queues.At(stage);
    && (forall p: nat | p < |q| :: q[p] < |s.requests| && stage in s.requests[q[p]].jobs)
    && (forall p: nat, p': nat | p < p' < |q| :: q[p] != q[p'])
    && (forall r: nat | r < |s.requests| && stage in s.requests[r].jobs :: r in q)
  }

  ghost predicate Inv<D>(s: System<D>, g: D -> D) {
    && (forall r: nat | r < |s.requests| :: RequestInv(s.requests[r], g))
    && (forall stage :: QueueInv(s, stage))
  }

  lemma StartInv<D>(s: System<D>, g: D -> D)
    requires IsStart(s)
    ensures Inv(s, g)
  {
    forall r: nat | r < |s.requests| ensures RequestInv(s.requests[r], g) {
      assert s.requests[r] == Start(s.requests[r].kind, s.requests[r].mem);
    }
    forall stage ensures QueueInv(s, stage) {
    }
  }

  lemma RoundLaidOut()
    ensures Round(Discrete) == [
              WriteInput, Submit(UPLOAD, false), Submit(EXECUTE, true), AwaitFence(EXECUTE), Submit(READBACK, true),
              AwaitFence(READBACK), ReadOutput, ClearFence(UPLOAD), ClearFence(EXECUTE), ClearFence(READBACK)]
    ensures Round(IntegratedFence) ==
            [WriteInput, Submit(EXECUTE, true), AwaitFence(EXECUTE), ReadOutput, ClearFence(EXECUTE)]
    ensures Round(IntegratedEvent) ==
            [WriteInput, Submit(EXECUTE, false), AwaitEvent, ReadOutput, ClearEvent]
  {
  }

  lemma DiscreteHostKeeps<D>(r: Request<D>, v: D, g: D -> D)
    requires r.kind.Discrete? && DiscreteInv(r, g) && HostEnabled(r)
    ensures DiscreteInv(HostNext(r, v), g)
  {
    RoundLaidOut();
    match r.pc {
      case 0 => case 1 => case 2 => case 3 => case 4 => case 5 => case 6 => case 7 => case 8 => case 9 =>
    }
  }

  lemma FenceHostKeeps<D>(r: Request<D>, v: D, g: D -> D)
    requires r.kind.IntegratedFence? && FenceInv(r, g) && HostEnabled(r)
    ensures FenceInv(HostNext(r, v), g)
  {
    RoundLaidOut();
  }

  lemma EventHostKeeps<D>(r: Request<D>, v: D, g: D -> D)
    requires r.kind.IntegratedEvent? && EventInv(r, g) && HostEnabled(r)
    ensures EventInv(HostNext(r, v), g)
  {
    RoundLaidOut();
  }

  lemma HostKeepsRequest<D>(r: Request<D>, v: D, g: D -> D)
    requires RequestInv(r, g) && HostEnabled(r)
    ensures RequestInv(HostNext(r, v), g)
  {
    match r.kind {
      case Discrete => DiscreteHostKeeps(r, v, g);
      case IntegratedFence => FenceHostKeeps(r, v, g);
      case IntegratedEvent => EventHostKeeps(r, v, g);
    }
  }

  lemma UploadKeeps<D>(r: Request<D>, i: nat, g: D -> D)
    requires r.kind.Discrete? && DiscreteInv(r, g) && DeviceEnabled(r, UPLOAD, i)
    ensures DiscreteInv(DeviceNext(r, UPLOAD, i, g), g)
  {
    assert r.pc == 2 || r.pc == 3;
    assert i == 2 ==> 0 in r.jobs[UPLOAD].done && 1 in r.jobs[UPLOAD].done;
  }

  lemma ExecuteKeeps<D>(r: Request<D>, i: nat, g: D -> D)
    requires r.kind.Discrete? && DiscreteInv(r, g) && DeviceEnabled(r, EXECUTE, i)
    ensures DiscreteInv(DeviceNext(r, EXECUTE, i, g), g)
  {
    assert r.pc == 3;
    assert i == 1 ==> 0 in r.jobs[EXECUTE].done;
  }

  lemma ReadbackKeeps<D>(r: Request<D>, i: nat, g: D -> D)
    requires r.kind.Discrete? && DiscreteInv(r, g) && DeviceEnabled(r, READBACK, i)
    ensures DiscreteInv(DeviceNext(r, READBACK, i, g), g)
  {
    assert r.pc == 5;
  }

  lemma IntegratedKeeps<D>(r: Request<D>, i: nat, g: D -> D)
    requires !r.kind.Discrete? && RequestInv(r, g) && DeviceEnabled(r, EXECUTE, i)
    ensures RequestInv(DeviceNext(r, EXECUTE, i, g), g)
  {
    assert r.pc == 2;
    assert i == 2 ==> 0 in r.jobs[EXECUTE].done && 1 in r.jobs[EXECUTE].done;
  }

  lemma DiscreteDeviceKeeps<D>(r: Request<D>, stage: Stage, i: nat, g: D -> D)
    requires r.kind.Discrete? && DiscreteInv(r, g) && DeviceEnabled(r, stage, i)
    ensures DiscreteInv(DeviceNext(r, stage, i, g), g)
  {
    match stage {
      case UPLOAD => UploadKeeps(r, i, g);
      case EXECUTE => ExecuteKeeps(r, i, g);
      case READBACK => ReadbackKeeps(r, i, g);
    }
  }

  lemma DeviceKeepsRequest<D>(r: Request<D>, stage: Stage, i: nat, g: D -> D)
    requires RequestInv(r, g) && DeviceEnabled(r, stage, i)
    ensures RequestInv(DeviceNext(r, stage, i, g), g)
  {
    assert DeviceNext(r, stage, i, g).kind == r.kind;
    if r.kind.Discrete? {
      DiscreteDeviceKeeps(r, stage, i, g);
    } else {
      IntegratedKeeps(r, i, g);
    }
  }

  lemma HostTouchesSubmittedStage<D>(r: Request<D>, v: D, stage: Stage)
    requires HostEnabled(r)
    ensures var op := Round(r.kind)[r.pc];
            && (stage in HostNext(r, v).jobs <==> stage in r.jobs || (op.Submit? && op.stage == stage))
            && (op.Submit? && op.stage == stage ==> stage !in r.jobs)
  {
  }

  lemma SubmittedListJoinsQueue<D>(s: System<D>, t: System<D>, stage: Stage, r: nat)
    requires QueueInv(s, stage) && r < |s.requests| == |t.requests| && stage !in s.requests[r].jobs
    requires t.queues.At(stage) == s.queues.At(stage) + [r] && stage in t.requests[r].jobs
    requires forall o: nat | o < |t.requests| && o != r :: t.requests[o] == s.requests[o]
    ensures QueueInv(t, stage)
  {
    var q := s.queues.At(stage);
    assert r !in q;
    assert q == t.queues.At(stage)[..|q|] && t.queues.At(stage)[|q|] == r;
  }

  lemma HostKeepsQueue<D>(s: System<D>, r: nat, v: D, g: D -> D, stage: Stage)
    requires CanStep(s, Host(r, v)) && QueueInv(s, stage)
    ensures QueueInv(Step(s, Host(r, v), g), stage)
  {
    var t := Step(s, Host(r, v), g);
    var op := Round(s.requests[r].kind)[s.requests[r].pc];
    HostTouchesSubmittedStage(s.requests[r], v, stage);
    assert t.requests == s.requests[r := HostNext(s.requests[r], v)];
    if op.Submit? && op.stage == stage {
      SubmittedListJoinsQueue(s, t, stage, r);
    } else {
      PendingListsUnchanged(s, t, stage);
    }
  }

  lemma WithoutRemovesOne(q: seq<nat>, pos: nat)
    requires pos < |q| && forall p: nat, p': nat | p < p' < |q| :: q[p] != q[p']
    ensures forall x: nat :: x in Without(q, pos) <==> x in q && x != q[pos]
    ensures forall p: nat, p': nat | p < p' < |q| - 1 :: Without(q, pos)[p] != Without(q, pos)[p']
  {
    forall x: nat | x in q && x != q[pos] ensures x in Without(q, pos) {
      var p :| 0 <= p < |q| && q[p] == x;
      assert Without(q, pos)[if p < pos then p else p - 1] == x;
    }
  }

  lemma FinishedListLeavesQueue<D>(s: System<D>, t: System<D>, stage: Stage, pos: nat)
    requires QueueInv(s, stage) && pos < |s.queues.At(stage)| && |t.requests| == |s.requests|
    requires t.queues.At(stage) == Without(s.queues.At(stage), pos)
    requires stage !in t.requests[s.queues.At(stage)[pos]].jobs
    requires forall o: nat | o < |t.requests| && o != s.queues.At(stage)[pos] :: t.requests[o] == s.requests[o]
    ensures QueueInv(t, stage)
  {
    WithoutRemovesOne(s.queues.At(stage), pos);
  }

  lemma DeviceTouchesItsStage<D>(r: Request<D>, stage: Stage, i: nat, g: D -> D)
    requires DeviceEnabled(r, stage, i)
    ensures forall st | st != stage :: st in DeviceNext(r, stage, i, g).jobs <==> st in r.jobs
  {
  }

  lemma PendingListsUnchanged<D>(s: System<D>, t: System<D>, stage: Stage)
    requires QueueInv(s, stage) && |t.requests| == |s.requests| && t.queues.At(stage) == s.queues.At(stage)
    requires forall o: nat | o < |t.requests| :: stage in t.requests[o].jobs <==> stage in s.requests[o].jobs
    ensures QueueInv(t, stage)
  {
  }

  lemma DeviceKeepsQueue<D>(s: System<D>, st: Stage, pos: nat, i: nat, g: D -> D, stage: Stage)
    requires CanStep(s, Device(st, pos, i)) && QueueInv(s, stage) && QueueInv(s, st)
    ensures QueueInv(Step(s, Device(st, pos, i), g), stage)
  {
    var t := Step(s, Device(st, pos, i), g);
    var r := s.queues.At(st)[pos];
    var after := DeviceNext(s.requests[r], st, i, g);
    DeviceTouchesItsStage(s.requests[r], st, i, g);
    assert t.requests == s.requests[r := after];
    if st == stage && st !in after.jobs {
      FinishedListLeavesQueue(s, t, stage, pos);
    } else {
      PendingListsUnchanged(s, t, stage);
    }
  }

  /** No step of any host thread or of the device breaks the invariant. */
  lemma StepKeepsInv<D>(s: System<D>, l: Label<D>, g: D -> D)
    requires Inv(s, g) && CanStep(s, l)
    ensures Inv(Step(s, l, g), g)
  {
    var t := Step(s, l, g);
    match l {
      case Host(r, v) =>
        HostKeepsRequest(s.requests[r], v, g);
        forall stage ensures QueueInv(t, stage) {
          HostKeepsQueue(s, r, v, g, stage);
        }
      case Device(st, pos, i) =>
        DeviceKeepsRequest(s.requests[s.queues.At(st)[pos]], st, i, g);
        forall stage ensures QueueInv(t, stage) {
          DeviceKeepsQueue(s, st, pos, i, g, stage);
        }
    }
  }

  lemma {:induction false} RunKeepsInv<D>(s: System<D>, labels: seq<Label<D>>, t: System<D>, g: D -> D)
    requires Inv(s, g) && IsRun(s, labels, t, g)
    ensures Inv(t, g)
    decreases |labels|
  {
    if labels != [] {
      StepKeepsInv(s, labels[0], g);
      RunKeepsInv(Step(s, labels[0], g), labels[1..], t, g);
    }
  }
}
