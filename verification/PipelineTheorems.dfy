/** What a caller of the inference engine may rely on, for whole runs of any number of requests. */
module PipelineTheorems {
  import opened CommandQueues
  import opened PipelineInvariant

  // ---- every answer belongs to its own question ----

  /** In every run, in every interleaving of host threads and queues, the n-th output a request reads is the
      graph's value on the n-th input that request wrote, and at most one input is unanswered. */
  lemma AnswersMatchInputs<D>(s: System<D>, labels: seq<Label<D>>, t: System<D>, g: D -> D, r: nat)
    requires IsStart(s) && IsRun(s, labels, t, g) && r < |t.requests|
    ensures |t.requests[r].outputs| <= |t.requests[r].inputs| <= |t.requests[r].outputs| + 1
    ensures forall n: nat | n < |t.requests[r].outputs| :: t.requests[r].outputs[n] == g(t.requests[r].inputs[n])
  {
    StartInv(s, g);
    RunKeepsInv(s, labels, t, g);
    assert RequestInv(t.requests[r], g);
  }

  /** Every round ends where it began: event and fences unsignalled, no list of the request queued anywhere. */
  lemma RoundsEndQuiescent<D>(s: System<D>, labels: seq<Label<D>>, t: System<D>, g: D -> D, r: nat)
    requires IsStart(s) && IsRun(s, labels, t, g) && r < |t.requests| && t.requests[r].pc == 0
    ensures Quiescent(t.requests[r])
    ensures forall stage :: r !in t.queues.At(stage)
    ensures |t.requests[r].outputs| == |t.requests[r].inputs|
  {
    StartInv(s, g);
    RunKeepsInv(s, labels, t, g);
    assert RequestInv(t.requests[r], g);
    forall stage ensures r !in t.queues.At(stage) {
      assert QueueInv(t, stage);
    }
  }

  /** A graph never starts on anything but the input of the round it belongs to. */
  lemma GraphReadsItsRoundsInput<D>(s: System<D>, l: Label<D>, g: D -> D)
    requires Inv(s, g) && CanStep(s, l) && l.Device?
    ensures var r := s.requests[s.queues.At(l.stage)[l.pos]];
            var c := Recorded(r.kind, l.stage)[l.i];
            c.GraphExecute? ==> |r.inputs| > |r.outputs| && r.mem.Read(c.input) == Current(r)
  {
    var r := s.requests[s.queues.At(l.stage)[l.pos]];
    assert RequestInv(r, g);
    if Recorded(r.kind, l.stage)[l.i].GraphExecute? && r.kind.Discrete? {
      assert l.stage == EXECUTE && l.i == 1 && r.pc == 3;
      assert 0 in r.jobs[EXECUTE].done;
    }
  }

  /** The host touches the input and output regions only while the device owes the request nothing. */
  lemma HostOwnsItsRegions<D>(r: Request<D>, g: D -> D)
    requires RequestInv(r, g) && r.pc < |Round(r.kind)|
    requires Round(r.kind)[r.pc].WriteInput? || Round(r.kind)[r.pc].ReadOutput?
    ensures r.jobs == map[]
  {
    RoundLaidOut();
  }

  /** When a thread comes to submit a list, that list has left its queue: UPLOAD is submitted without a fence, and
      still no list is ever submitted while it is in flight. */
  lemma SubmitNeverWaits<D>(s: System<D>, labels: seq<Label<D>>, t: System<D>, g: D -> D, r: nat)
    requires IsStart(s) && IsRun(s, labels, t, g) && r < |t.requests|
    ensures var q := t.requests[r]; q.pc < |Round(q.kind)| && (Round(q.kind)[q.pc].Submit? ==> HostEnabled(q))
  {
    StartInv(s, g);
    RunKeepsInv(s, labels, t, g);
    assert RequestInv(t.requests[r], g);
    RoundLaidOut();
  }

  /** The only commands of one request that can be running at the same time are the two of READBACK. */
  lemma OnlyReadbackOverlaps<D>(r: Request<D>, g: D -> D, st: Stage, i: nat, st': Stage, i': nat)
    requires RequestInv(r, g) && DeviceEnabled(r, st, i) && DeviceEnabled(r, st', i') && (st, i) != (st', i')
    ensures r.kind.Discrete? && st == st' == READBACK && {i, i'} == {0, 1}
  {
    assert r.kind.Discrete? ==> (UPLOAD in r.jobs && EXECUTE in r.jobs ==> !r.event);
  }

  /** Commands of one request that can be running at the same time neither disable each other nor care which comes
      first -- memory, event, fences and what is left of their lists are the same -- so running them one at a time
      loses no behaviour. */
  lemma ConcurrentCommandsCommute<D>(r: Request<D>, g: D -> D, st: Stage, i: nat, st': Stage, i': nat)
    requires RequestInv(r, g) && DeviceEnabled(r, st, i) && DeviceEnabled(r, st', i') && (st, i) != (st', i')
    ensures DeviceEnabled(DeviceNext(r, st, i, g), st', i') && DeviceEnabled(DeviceNext(r, st', i', g), st, i)
    ensures DeviceNext(DeviceNext(r, st, i, g), st', i', g) == DeviceNext(DeviceNext(r, st', i', g), st, i, g)
  {
    OnlyReadbackOverlaps(r, g, st, i, st', i');
    if i == 0 {
      ReadbackCommutes(r, g);
    } else {
      ReadbackCommutes(r, g);
    }
  }

  lemma ReadbackCommutes<D>(r: Request<D>, g: D -> D)
    requires r.kind.Discrete? && DeviceEnabled(r, READBACK, 0) && DeviceEnabled(r, READBACK, 1)
    ensures DeviceEnabled(DeviceNext(r, READBACK, 0, g), READBACK, 1)
    ensures DeviceEnabled(DeviceNext(r, READBACK, 1, g), READBACK, 0)
    ensures DeviceNext(DeviceNext(r, READBACK, 0, g), READBACK, 1, g)
            == DeviceNext(DeviceNext(r, READBACK, 1, g), READBACK, 0, g)
  {
    var job := r.jobs[READBACK];
    assert job.done + {0} + {1} == job.done + {1} + {0};
    var a, b := DeviceNext(r, READBACK, 0, g), DeviceNext(r, READBACK, 1, g);
    assert a.jobs == r.jobs[READBACK := Job(job.done + {0}, job.fenced)];
    assert b.jobs == r.jobs[READBACK := Job(job.done + {1}, job.fenced)];
    assert a.jobs - {READBACK} == b.jobs - {READBACK};
  }

  // ---- a round that was not reset ----

  /** What a thread leaves behind when it gives up on a round after pulling: the input goes unanswered and nothing
      is reset. */
  function Abandoned<D>(r: Request<D>): Request<D>
    requires |r.inputs| > |r.outputs|
  {
    r.(pc := 0, inputs := r.inputs[..|r.outputs|])
  }

  /** The operations of a request's thread, from wherever it is, with no step of the device among them. */
  ghost predicate HostOnly<D>(r: Request<D>, values: seq<D>, after: Request<D>)
    decreases |values|
  {
    if values == [] then after == r else HostEnabled(r) && HostOnly(HostNext(r, values[0]), values[1..], after)
  }

  lemma HostStep<D>(r: Request<D>, v: D, n: nat, after: Request<D>)
    requires HostEnabled(r) && HostOnly(HostNext(r, v), Repeat(v, n), after)
    ensures HostOnly(r, Repeat(v, n + 1), after)
  {
    assert Repeat(v, n + 1)[1..] == Repeat(v, n);
  }

  function Repeat<D>(v: D, n: nat): (vs: seq<D>)
    ensures |vs| == n
  {
    seq(n, _ => v)
  }

  /** What a pull waits for is signalled before anything has been pushed. */
  predicate Unreset<D>(r: Request<D>) {
    && r.pc == 0 && r.jobs == map[] && |r.inputs| == |r.outputs|
    && match r.kind
       case Discrete => !r.event && r.fences == {EXECUTE, READBACK}
       case IntegratedFence => !r.event && r.fences == {EXECUTE}
       case IntegratedEvent => r.event && r.fences == {}
  }

  lemma AbandonedRoundIsUnreset<D>(r: Request<D>, g: D -> D)
    requires RequestInv(r, g) && r.pc < |Round(r.kind)| && Round(r.kind)[r.pc].ReadOutput?
    ensures |r.inputs| > |r.outputs| && Unreset(Abandoned(r)) && Abandoned(r).outputs == r.outputs
    ensures Abandoned(r).mem.hostOutput == g(Current(r))
  {
    RoundLaidOut();
  }

  /** The thread gets through such a round without the device, and reads what the region held before: whatever
      the input, an answer to it if and only if the answer left behind happens to be one. */
  lemma UnresetRoundRepeatsTheLastAnswer<D>(r: Request<D>, v: D)
    requires Unreset(r)
    ensures exists values, after :: HostOnly(r, values, after) && (forall n: nat | n < |values| :: values[n] == v)
              && after.inputs == r.inputs + [v] && after.outputs == r.outputs + [r.mem.hostOutput]
  {
    if r.kind.Discrete? {
      UnresetDiscrete(r, v);
    } else {
      UnresetIntegrated(r, v);
    }
  }

  lemma {:induction false} UnresetDiscrete<D>(r: Request<D>, v: D)
    requires Unreset(r) && r.kind.Discrete?
    ensures exists after :: HostOnly(r, Repeat(v, 7), after)
              && after.inputs == r.inputs + [v] && after.outputs == r.outputs + [r.mem.hostOutput]
  {
    RoundLaidOut();
    var r1 := HostNext(r, v);
    var r2 := HostNext(r1, v);
    var r3 := HostNext(r2, v);
    UnresetPull(r3, v, r.mem.hostOutput);
    var after :| HostOnly(r3, Repeat(v, 4), after)
                 && after.inputs == r3.inputs && after.outputs == r.outputs + [r.mem.hostOutput];
    HostStep(r2, v, 4, after);
    HostStep(r1, v, 5, after);
    HostStep(r, v, 6, after);
  }

  lemma {:induction false} UnresetIntegrated<D>(r: Request<D>, v: D)
    requires Unreset(r) && !r.kind.Discrete?
    ensures exists after :: HostOnly(r, Repeat(v, 4), after)
              && after.inputs == r.inputs + [v] && after.outputs == r.outputs + [r.mem.hostOutput]
  {
    RoundLaidOut();
    var r1 := HostNext(r, v);
    var r2 := HostNext(r1, v);
    var r3 := HostNext(r2, v);
    var after := HostNext(r3, v);
    HostStep(r3, v, 0, after);
    HostStep(r2, v, 1, after);
    HostStep(r1, v, 2, after);
    HostStep(r, v, 3, after);
  }

  lemma UnresetPull<D>(r: Request<D>, v: D, left: D)
    requires r.kind.Discrete? && r.pc == 3 && {EXECUTE, READBACK} <= r.fences
    requires READBACK !in r.jobs && r.mem.hostOutput == left
    ensures exists after ::
              HostOnly(r, Repeat(v, 4), after) && after.inputs == r.inputs && after.outputs == r.outputs + [left]
  {
    RoundLaidOut();
    var r1 := HostNext(r, v);
    var r2 := HostNext(r1, v);
    var r3 := HostNext(r2, v);
    var after := HostNext(r3, v);
    HostStep(r3, v, 0, after);
    HostStep(r2, v, 1, after);
    HostStep(r1, v, 2, after);
    HostStep(r, v, 3, after);
  }
  // ---- refinement of the one-step specification ----

  /** All an engine is: it takes an input when it owes nothing, and answers it with the graph's value. */
  datatype Engine<D> = Engine(inputs: seq<D>, outputs: seq<D>)

  function Abstraction<D>(r: Request<D>): Engine<D> {
    Engine(r.inputs, r.outputs)
  }

  ghost predicate Takes<D>(a: Engine<D>, v: D, b: Engine<D>) {
    |a.inputs| == |a.outputs| && b == a.(inputs := a.inputs + [v])
  }

  ghost predicate Answers<D>(a: Engine<D>, b: Engine<D>, g: D -> D) {
    |a.inputs| == |a.outputs| + 1 && b == a.(outputs := a.outputs + [g(a.inputs[|a.outputs|])])
  }

  lemma HostRefinesEngine<D>(r: Request<D>, v: D, g: D -> D)
    requires RequestInv(r, g) && HostEnabled(r)
    ensures var a, b := Abstraction(r), Abstraction(HostNext(r, v));
            b == a || Takes(a, v, b) || Answers(a, b, g)
  {
    RoundLaidOut();
  }

  lemma DeviceInvisible<D>(r: Request<D>, stage: Stage, i: nat, g: D -> D)
    requires DeviceEnabled(r, stage, i)
    ensures Abstraction(DeviceNext(r, stage, i, g)) == Abstraction(r)
  {
  }

  /** Discrete and integrated, fence and event mode alike: each step of a request is a step of the one-step
      engine or invisible in it, and it is invisible to every other request. */
  lemma StepRefinesEngine<D>(s: System<D>, l: Label<D>, g: D -> D, r: nat)
    requires Inv(s, g) && CanStep(s, l) && r < |s.requests|
    ensures var a, b := Abstraction(s.requests[r]), Abstraction(Step(s, l, g).requests[r]);
            b == a || (l.Host? && l.r == r && (Takes(a, l.v, b) || Answers(a, b, g)))
  {
    assert RequestInv(s.requests[r], g);
    if l.Host? && l.r == r {
      HostRefinesEngine(s.requests[r], l.v, g);
    } else if l.Device? && s.queues.At(l.stage)[l.pos] == r {
      DeviceInvisible(s.requests[r], l.stage, l.i, g);
    }
  }

  // ---- progress ----

  /** Commands among the first `n` that are still to run. */
  function Left(n: nat, done: set<nat>): nat {
    if n == 0 then 0 else Left(n - 1, done) + (if n - 1 in done then 0 else 1)
  }

  lemma {:induction false} LeftAfter(n: nat, done: set<nat>, i: nat)
    requires i !in done
    ensures Left(n, done + {i}) == Left(n, done) - (if i < n then 1 else 0)
  {
    if n > 0 {
      LeftAfter(n - 1, done, i);
    }
  }

  lemma {:induction false} LeftNone(n: nat, done: set<nat>)
    ensures Left(n, done) == 0 <==> forall j: nat | j < n :: j in done
  {
    if n > 0 {
      LeftNone(n - 1, done);
    }
  }

  function JobWork<D>(r: Request<D>, stage: Stage): nat {
    if stage in r.jobs then Left(|Recorded(r.kind, stage)|, r.jobs[stage].done) else 0
  }

  function RequestWork<D>(r: Request<D>): nat {
    JobWork(r, UPLOAD) + JobWork(r, EXECUTE) + JobWork(r, READBACK)
  }

  /** Commands submitted and not yet run, over all requests. */
  function Work<D>(requests: seq<Request<D>>): nat {
    if requests == [] then 0 else RequestWork(requests[0]) + Work(requests[1..])
  }

  lemma {:induction false} WorkAfterUpdate<D>(requests: seq<Request<D>>, r: nat, after: Request<D>)
    requires r < |requests|
    ensures Work(requests[r := after]) == Work(requests) - RequestWork(requests[r]) + RequestWork(after)
  {
    var updated := requests[r := after];
    if r == 0 {
      assert updated[1..] == requests[1..];
    } else {
      assert updated[1..] == requests[1..][r - 1 := after];
      WorkAfterUpdate(requests[1..], r - 1, after);
    }
  }

  lemma DeviceNextWork<D>(r: Request<D>, stage: Stage, i: nat, g: D -> D)
    requires DeviceEnabled(r, stage, i)
    ensures RequestWork(DeviceNext(r, stage, i, g)) == RequestWork(r) - 1
  {
    var list := Recorded(r.kind, stage);
    LeftAfter(|list|, r.jobs[stage].done, i);
    LeftNone(|list|, r.jobs[stage].done + {i});
    var r' := DeviceNext(r, stage, i, g);
    assert r'.kind == r.kind;
    assert JobWork(r', stage) == JobWork(r, stage) - 1;
    assert forall st | st != stage :: JobWork(r', st) == JobWork(r, st);
  }

  /** Each device step takes exactly one command off what is outstanding, so device activity always ends. */
  lemma DeviceStepConsumesWork<D>(s: System<D>, l: Label<D>, g: D -> D)
    requires CanStep(s, l) && l.Device?
    ensures Work(Step(s, l, g).requests) == Work(s.requests) - 1
  {
    var r := s.queues.At(l.stage)[l.pos];
    DeviceNextWork(s.requests[r], l.stage, l.i, g);
    WorkAfterUpdate(s.requests, r, DeviceNext(s.requests[r], l.stage, l.i, g));
  }

  lemma CopyListsCanRun<D>(r: Request<D>, stage: Stage, g: D -> D)
    requires RequestInv(r, g) && stage in r.jobs && stage != EXECUTE
    ensures exists i: nat :: DeviceEnabled(r, stage, i)
  {
    var done := r.jobs[stage].done;
    if stage == UPLOAD {
      var i: nat := if 0 !in done then 0 else if 1 !in done then 1 else 2;
      assert DeviceEnabled(r, stage, i);
    } else {
      var i: nat := if 0 !in done then 0 else 1;
      assert DeviceEnabled(r, stage, i);
    }
  }

  lemma ExecuteListCanRun<D>(r: Request<D>, g: D -> D)
    requires RequestInv(r, g) && EXECUTE in r.jobs && UPLOAD !in r.jobs
    ensures exists i: nat :: DeviceEnabled(r, EXECUTE, i)
  {
    var done := r.jobs[EXECUTE].done;
    var i: nat := if 0 !in done then 0 else if 1 !in done then 1 else 2;
    assert DeviceEnabled(r, EXECUTE, i);
  }

  predicate Drained(q: Queues) { q == Queues([], [], []) }

  /** Even on strictly in-order queues the head of some queue can always run: an EXECUTE list waits only for
      the UPLOAD list of its own request, and that one waits for nothing. */
  lemma SomeQueueHeadCanRun<D>(s: System<D>, g: D -> D)
    requires Inv(s, g) && !Drained(s.queues)
    ensures exists stage: Stage, i: nat :: CanStep(s, Device(stage, 0, i))
  {
    assert QueueInv(s, UPLOAD) && QueueInv(s, EXECUTE) && QueueInv(s, READBACK);
    var stage := if s.queues.upload != [] then UPLOAD else if s.queues.readback != [] then READBACK else EXECUTE;
    var r := s.queues.At(stage)[0];
    assert RequestInv(s.requests[r], g);
    if stage == EXECUTE {
      ExecuteListCanRun(s.requests[r], g);
    } else {
      CopyListsCanRun(s.requests[r], stage, g);
    }
    var i: nat :| DeviceEnabled(s.requests[r], stage, i);
    assert CanStep(s, Device(stage, 0, i));
  }

  /** Nor need it be the head: once the lists before it have started, so may any other, except that an EXECUTE list
      waits for its UPLOAD list. */
  lemma LaterListsCanRun<D>(s: System<D>, g: D -> D, stage: Stage, pos: nat)
    requires Inv(s, g) && pos < |s.queues.At(stage)|
    requires stage == EXECUTE ==> s.queues.execute[pos] !in s.queues.upload
    ensures exists i: nat :: CanStep(s, Device(stage, pos, i))
  {
    assert QueueInv(s, stage) && QueueInv(s, UPLOAD);
    var r := s.queues.At(stage)[pos];
    assert RequestInv(s.requests[r], g);
    if stage == EXECUTE {
      ExecuteListCanRun(s.requests[r], g);
    } else {
      CopyListsCanRun(s.requests[r], stage, g);
    }
    var i: nat :| DeviceEnabled(s.requests[r], stage, i);
    assert CanStep(s, Device(stage, pos, i));
  }

  /** The copy and the event's reset may run in either order. */
  lemma ReadbackMayReorder<D>(r: Request<D>, g: D -> D)
    requires RequestInv(r, g) && READBACK in r.jobs && r.jobs[READBACK].done == {}
    ensures DeviceEnabled(r, READBACK, 0) && DeviceEnabled(r, READBACK, 1)
  {
  }

  /** A host thread only ever waits for work of its own request that is still on a queue. */
  lemma BlockedHostHasPendingWork<D>(s: System<D>, g: D -> D, r: nat)
    requires Inv(s, g) && r < |s.requests| && !HostEnabled(s.requests[r])
    ensures exists stage: Stage :: r in s.queues.At(stage)
  {
    RoundLaidOut();
    assert RequestInv(s.requests[r], g);
    assert s.requests[r].jobs.Keys != {};
    var stage :| stage in s.requests[r].jobs;
    assert QueueInv(s, stage);
    assert r in s.queues.At(stage);
  }

  lemma {:induction false} IdleRequestsHaveNoWork<D>(requests: seq<Request<D>>)
    requires forall r: nat | r < |requests| :: requests[r].jobs == map[]
    ensures Work(requests) == 0
  {
    if requests != [] {
      IdleRequestsHaveNoWork(requests[1..]);
    }
  }

  lemma DrainedMeansIdle<D>(s: System<D>, g: D -> D)
    requires Inv(s, g) && Drained(s.queues)
    ensures Work(s.requests) == 0
    ensures forall r: nat | r < |s.requests| :: HostEnabled(s.requests[r])
  {
    assert QueueInv(s, UPLOAD) && QueueInv(s, EXECUTE) && QueueInv(s, READBACK);
    forall r: nat | r < |s.requests| ensures s.requests[r].jobs == map[] && HostEnabled(s.requests[r]) {
      assert forall stage :: stage !in s.requests[r].jobs;
      if !HostEnabled(s.requests[r]) {
        BlockedHostHasPendingWork(s, g, r);
      }
    }
    IdleRequestsHaveNoWork(s.requests);
  }

  /** A run of the device alone, on strictly in-order queues, that finishes everything. */
  ghost predicate Drains<D>(s: System<D>, labels: seq<Label<D>>, t: System<D>, g: D -> D) {
    && IsRun(s, labels, t, g)
    && (forall n: nat | n < |labels| :: labels[n].Device? && labels[n].pos == 0)
    && Drained(t.queues)
    && (forall r: nat | r < |t.requests| :: HostEnabled(t.requests[r]))
  }

  lemma DrainsFirst<D>(s: System<D>, l: Label<D>, rest: seq<Label<D>>, t: System<D>, g: D -> D)
    requires CanStep(s, l) && l.Device? && l.pos == 0 && Drains(Step(s, l, g), rest, t, g)
    ensures Drains(s, [l] + rest, t, g)
  {
    assert ([l] + rest)[1..] == rest;
  }

  lemma HeadStep<D>(s: System<D>, g: D -> D) returns (l: Label<D>)
    requires Inv(s, g) && !Drained(s.queues)
    ensures CanStep(s, l) && l.Device? && l.pos == 0
    ensures Inv(Step(s, l, g), g) && Work(Step(s, l, g).requests) == Work(s.requests) - 1
  {
    SomeQueueHeadCanRun(s, g);
    var stage: Stage, i: nat :| CanStep(s, Device(stage, 0, i));
    l := Device(stage, 0, i);
    StepKeepsInv(s, l, g);
    DeviceStepConsumesWork(s, l, g);
  }

  lemma {:induction false} DrainingRun<D>(s: System<D>, g: D -> D) returns (labels: seq<Label<D>>, t: System<D>)
    requires Inv(s, g)
    ensures Drains(s, labels, t, g) && |labels| == Work(s.requests)
    decreases Work(s.requests)
  {
    if Drained(s.queues) {
      DrainedMeansIdle(s, g);
      labels, t := [], s;
    } else {
      var l := HeadStep(s, g);
      var rest;
      rest, t := DrainingRun(Step(s, l, g), g);
      DrainsFirst(s, l, rest, t, g);
      labels := [l] + rest;
    }
  }

  /** No reachable state is stuck: the device alone, with strictly in-order queues, can finish everything
      submitted, in exactly as many steps as there are outstanding commands, and then no host thread waits. */
  lemma EverythingSubmittedDrains<D>(s: System<D>, g: D -> D)
    requires Inv(s, g)
    ensures exists labels, t :: Drains(s, labels, t, g) && |labels| == Work(s.requests)
  {
    var labels, t := DrainingRun(s, g);
  }

  lemma FirstOfConcat<T>(xs: seq<T>, ys: seq<T>)
    requires xs != []
    ensures [xs[0]] + (xs[1..] + ys) == xs + ys
  {
  }

  lemma {:induction false} RunsCompose<D>(
      s: System<D>, xs: seq<Label<D>>, t: System<D>, ys: seq<Label<D>>, u: System<D>, g: D -> D)
    requires IsRun(s, xs, t, g) && IsRun(t, ys, u, g)
    ensures IsRun(s, xs + ys, u, g)
    decreases |xs|
  {
    if xs == [] {
      assert xs + ys == ys;
    } else {
      RunsCompose(Step(s, xs[0], g), xs[1..], t, ys, u, g);
      RunBegins(s, xs[0], xs[1..] + ys, u, g);
      FirstOfConcat(xs, ys);
    }
  }

  lemma RunBegins<D>(s: System<D>, l: Label<D>, rest: seq<Label<D>>, u: System<D>, g: D -> D)
    requires CanStep(s, l) && IsRun(Step(s, l, g), rest, u, g)
    ensures IsRun(s, [l] + rest, u, g)
  {
    assert ([l] + rest)[1..] == rest;
  }

  /** The host thread stands where it stood, having written and read what it had. */
  predicate SameThread<D(==)>(a: Request<D>, b: Request<D>) {
    a.kind == b.kind && a.pc == b.pc && a.inputs == b.inputs && a.outputs == b.outputs
  }

  lemma {:induction false} DrainLeavesHostsAlone<D>(
      s: System<D>, labels: seq<Label<D>>, t: System<D>, g: D -> D, r: nat)
    requires IsRun(s, labels, t, g) && r < |s.requests| && forall n: nat | n < |labels| :: labels[n].Device?
    ensures |t.requests| == |s.requests| && SameThread(s.requests[r], t.requests[r])
    decreases |labels|
  {
    if labels != [] {
      DeviceLeavesHostsAlone(s, labels[0], g, r);
      DrainLeavesHostsAlone(Step(s, labels[0], g), labels[1..], t, g, r);
    }
  }

  lemma DeviceLeavesHostsAlone<D>(s: System<D>, l: Label<D>, g: D -> D, r: nat)
    requires CanStep(s, l) && l.Device? && r < |s.requests|
    ensures var t := Step(s, l, g); |t.requests| == |s.requests| && SameThread(s.requests[r], t.requests[r])
  {
  }

  lemma OneStepRun<D>(s: System<D>, l: Label<D>, g: D -> D)
    requires CanStep(s, l)
    ensures IsRun(s, [l], Step(s, l, g), g)
  {
    assert [l][1..] == [];
  }

  /** The thread of `r` may have gone on, and taken `v` if it was to take an input; no other thread has. */
  ghost predicate OnlyMoved<D>(s: System<D>, t: System<D>, r: nat, v: D)
    requires r < |s.requests|
  {
    && |t.requests| == |s.requests|
    && var a, b := s.requests[r], t.requests[r];
    && b.kind == a.kind && b.inputs == (if a.pc == 0 then a.inputs + [v] else a.inputs) && a.outputs <= b.outputs
    && forall o: nat | o < |s.requests| && o != r :: SameThread(s.requests[o], t.requests[o])
  }

  lemma OnlyFirstWrites(kind: Kind, i: nat)
    requires i < |Round(kind)|
    ensures Round(kind)[i].WriteInput? <==> i == 0
    ensures |Round(kind)| > 1
  {
    RoundLaidOut();
  }

  lemma HostTakesInput<D>(r: Request<D>, v: D)
    requires HostEnabled(r)
    ensures var r' := HostNext(r, v);
            && r'.kind == r.kind && (r'.pc == 0 || r'.pc == r.pc + 1) && r.outputs <= r'.outputs
            && (if r.pc == 0 then r'.pc == 1 && r'.inputs == r.inputs + [v] else r'.inputs == r.inputs)
  {
    OnlyFirstWrites(r.kind, r.pc);
  }

  /** Drains the device, then lets the thread of `r` do its next operation. */
  lemma AdvanceHost<D>(s: System<D>, g: D -> D, r: nat, v: D) returns (labels: seq<Label<D>>, t: System<D>)
    requires Inv(s, g) && r < |s.requests|
    ensures IsRun(s, labels, t, g) && Inv(t, g) && OnlyMoved(s, t, r, v)
    ensures t.requests[r].pc == (if s.requests[r].pc == 0 then 1 else s.requests[r].pc + 1) ||
            (s.requests[r].pc != 0 && t.requests[r].pc == 0)
  {
    var drain, u := DrainingRun(s, g);
    forall o: nat | o < |s.requests| ensures |u.requests| == |s.requests| && SameThread(s.requests[o], u.requests[o]) {
      DrainLeavesHostsAlone(s, drain, u, g, o);
    }
    RunKeepsInv(s, drain, u, g);
    var l := Host(r, v);
    StepKeepsInv(u, l, g);
    HostTakesInput(u.requests[r], v);
    OneStepRun(u, l, g);
    labels, t := drain + [l], Step(u, l, g);
    RunsCompose(s, drain, u, [l], t, g);
  }

  lemma PcInRound<D>(r: Request<D>, g: D -> D)
    requires RequestInv(r, g)
    ensures r.pc < |Round(r.kind)| <= 10
    ensures r.pc == 0 ==> |r.inputs| == |r.outputs|
  {
    RoundLaidOut();
  }

  /** Takes a request to the end of its round, or, from there, through a whole round with input `v`; the threads of
      all others stay where they are. */
  lemma {:induction false} RoundRun<D>(s: System<D>, g: D -> D, r: nat, v: D)
      returns (labels: seq<Label<D>>, t: System<D>)
    requires Inv(s, g) && r < |s.requests|
    ensures IsRun(s, labels, t, g) && Inv(t, g) && OnlyMoved(s, t, r, v)
    ensures t.requests[r].pc == 0 && |t.requests[r].inputs| == |t.requests[r].outputs|
    decreases 20 - s.requests[r].pc
  {
    PcInRound(s.requests[r], g);
    labels, t := AdvanceHost(s, g, r, v);
    PcInRound(t.requests[r], g);
    if t.requests[r].pc != 0 {
      var rest, u := RoundRun(t, g, r, v);
      RunsCompose(s, labels, t, rest, u, g);
      labels, t := labels + rest, u;
    }
  }

  /** From every reachable state any request can be taken to the end of its round, while no other thread moves. */
  lemma EveryRoundCanFinish<D(!new)>(s: System<D>, g: D -> D, r: nat, v: D)
    requires Inv(s, g) && r < |s.requests|
    ensures exists labels, t :: IsRun(s, labels, t, g) && OnlyMoved(s, t, r, v) && t.requests[r].pc == 0
  {
    var labels, t := RoundRun(s, g, r, v);
  }
}
