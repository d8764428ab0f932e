/** The Level Zero objects a request owns and the device that serves them: recorded command lists, in-order
    queues shared by all requests of an executor, one event and three fences per request.  `D` is what a whole
    staging region holds and `g` is the compiled graph, about which nothing is assumed. */
module CommandQueues {

  datatype Stage = UPLOAD | EXECUTE | READBACK

  datatype Buffer = HostInput | DeviceInput | DeviceOutput | HostOutput

  datatype Command =
    | Copy(dst: Buffer, src: Buffer)
    | Barrier
    | SignalEvent
    | WaitEvent
    | ResetEvent
    | GraphExecute(input: Buffer, output: Buffer)
  {
    /** No command of the same list moves across one of these. */
    predicate Orders() { Barrier? || WaitEvent? }
  }

  /** What the host thread of a request does next. */
  datatype HostOp =
    | WriteInput
    | Submit(stage: Stage, fenced: bool)
    | AwaitFence(stage: Stage)
    | AwaitEvent
    | ReadOutput
    | ClearFence(stage: Stage)
    | ClearEvent

  datatype Kind = Discrete | IntegratedFence | IntegratedEvent

  /** The command list recorded once for a stage. */
  function Recorded(kind: Kind, stage: Stage): seq<Command> {
    match (kind, stage)
    case (Discrete, UPLOAD) => [Copy(DeviceInput, HostInput), Barrier, SignalEvent]
    case (Discrete, EXECUTE) => [WaitEvent, GraphExecute(DeviceInput, DeviceOutput)]
    case (Discrete, READBACK) => [Copy(HostOutput, DeviceOutput), ResetEvent]
    case (IntegratedFence, EXECUTE) => [GraphExecute(HostInput, HostOutput)]
    case (IntegratedEvent, EXECUTE) => [GraphExecute(HostInput, HostOutput), Barrier, SignalEvent]
    case _ => []
  }

  function PushOps(kind: Kind): seq<HostOp> {
    match kind
    case Discrete => [Submit(UPLOAD, false), Submit(EXECUTE, true)]
    case IntegratedFence => [Submit(EXECUTE, true)]
    case IntegratedEvent => [Submit(EXECUTE, false)]
  }

  function PullOps(kind: Kind): seq<HostOp> {
    match kind
    case Discrete => [AwaitFence(EXECUTE), Submit(READBACK, true), AwaitFence(READBACK)]
    case IntegratedFence => [AwaitFence(EXECUTE)]
    case IntegratedEvent => [AwaitEvent]
  }

  function ResetOps(kind: Kind): seq<HostOp> {
    match kind
    case Discrete => [ClearFence(UPLOAD), ClearFence(EXECUTE), ClearFence(READBACK)]
    case IntegratedFence => [ClearFence(EXECUTE)]
    case IntegratedEvent => [ClearEvent]
  }

  /** One inference: fill the input region, push, pull, read the output region, reset. */
  function Round(kind: Kind): seq<HostOp> {
    [WriteInput] + PushOps(kind) + PullOps(kind) + [ReadOutput] + ResetOps(kind)
  }

  datatype Memory<D> = Memory(hostInput: D, deviceInput: D, deviceOutput: D, hostOutput: D) {
    function Read(b: Buffer): D {
      match b
      case HostInput => hostInput
      case DeviceInput => deviceInput
      case DeviceOutput => deviceOutput
      case HostOutput => hostOutput
    }

    function Write(b: Buffer, d: D): Memory<D> {
      match b
      case HostInput => this.(hostInput := d)
      case DeviceInput => this.(deviceInput := d)
      case DeviceOutput => this.(deviceOutput := d)
      case HostOutput => this.(hostOutput := d)
    }
  }

  /** A submitted command list: the indices of its finished commands, and whether a fence was attached. */
  datatype Job = Job(done: set<nat>, fenced: bool)

  /** One infer request.  `inputs` and `outputs` are the history of what its host thread wrote and read. */
  datatype Request<D> = Request(
    kind: Kind, pc: nat, event: bool, fences: set<Stage>, jobs: map<Stage, Job>,
    mem: Memory<D>, inputs: seq<D>, outputs: seq<D>)

  function Start<D>(kind: Kind, mem: Memory<D>): Request<D> {
    Request(kind, 0, false, {}, map[], mem, [], [])
  }

  // ---- host steps ----

  /** A wait ends when what it waits for is signalled.  A list may not be submitted again while it is still in
      flight; PipelineTheorems.SubmitNeverWaits shows that no host thread ever comes to that. */
  predicate CanPerform<D>(r: Request<D>, op: HostOp) {
    match op
    case Submit(stage, _) => stage !in r.jobs
    case AwaitFence(stage) => stage in r.fences
    case AwaitEvent => r.event
    case _ => true
  }

  /** What an operation does, wherever it is called.  `v` is the input the caller supplies; only WriteInput looks
      at it. */
  function Performed<D>(r: Request<D>, op: HostOp, v: D): Request<D> {
    match op
    case WriteInput => r.(mem := r.mem.Write(HostInput, v), inputs := r.inputs + [v])
    case Submit(stage, fenced) => r.(jobs := r.jobs[stage := Job({}, fenced)])
    case ReadOutput => r.(outputs := r.outputs + [r.mem.Read(HostOutput)])
    case ClearFence(stage) => r.(fences := r.fences - {stage})
    case ClearEvent => r.(event := false)
    case _ => r
  }

  predicate HostEnabled<D>(r: Request<D>) {
    r.pc < |Round(r.kind)| && CanPerform(r, Round(r.kind)[r.pc])
  }

  function HostNext<D>(r: Request<D>, v: D): Request<D>
    requires HostEnabled(r)
  {
    Performed(r, Round(r.kind)[r.pc], v).(pc := if r.pc + 1 == |Round(r.kind)| then 0 else r.pc + 1)
  }

  // ---- device steps ----

  /** Command `i` of a started list may run: it has not run yet, nothing it must follow is unfinished, and a
      wait needs its event. */
  predicate Ready(list: seq<Command>, done: set<nat>, i: nat, event: bool) {
    && i < |list|
    && i !in done
    && (forall j: nat | j < i :: j in done || !(list[i].Orders() || list[j].Orders()))
    && (list[i].WaitEvent? ==> event)
  }

  predicate DeviceEnabled<D>(r: Request<D>, stage: Stage, i: nat) {
    stage in r.jobs && Ready(Recorded(r.kind, stage), r.jobs[stage].done, i, r.event)
  }

  function Effect<D>(r: Request<D>, c: Command, g: D -> D): Request<D> {
    match c
    case Copy(dst, src) => r.(mem := r.mem.Write(dst, r.mem.Read(src)))
    case GraphExecute(input, output) => r.(mem := r.mem.Write(output, g(r.mem.Read(input))))
    case SignalEvent => r.(event := true)
    case ResetEvent => r.(event := false)
    case _ => r
  }

  predicate Finished(list: seq<Command>, done: set<nat>) {
    forall j: nat | j < |list| :: j in done
  }

  /** Runs command `i`; when it is the last one, the list leaves its queue and its fence fires. */
  function DeviceNext<D>(r: Request<D>, stage: Stage, i: nat, g: D -> D): Request<D>
    requires DeviceEnabled(r, stage, i)
  {
    var list := Recorded(r.kind, stage);
    var r' := Effect(r, list[i], g);
    var job := r.jobs[stage];
    var done := job.done + {i};
    if Finished(list, done) then
      r'.(jobs := r.jobs - {stage}, fences := if job.fenced then r.fences + {stage} else r.fences)
    else
      r'.(jobs := r.jobs[stage := Job(done, job.fenced)])
  }

  // ---- the whole system ----

  datatype Queues = Queues(upload: seq<nat>, execute: seq<nat>, readback: seq<nat>) {
    function At(stage: Stage): seq<nat> {
      match stage
      case UPLOAD => upload
      case EXECUTE => execute
      case READBACK => readback
    }

    function With(stage: Stage, q: seq<nat>): (r: Queues)
      ensures forall st :: r.At(st) == if st == stage then q else At(st)
    {
      match stage
      case UPLOAD => this.(upload := q)
      case EXECUTE => this.(execute := q)
      case READBACK => this.(readback := q)
    }
  }

  /** Any number of requests on the executor's three queues; a queue lists the owners of its pending lists in
      submission order. */
  datatype System<D> = System(requests: seq<Request<D>>, queues: Queues)

  /** Host: the thread of `r` performs its next operation.  Device: command `i` of the list at position `pos`
      of a queue runs.  Only `pos == 0` is a strictly in-order queue; larger positions let a queue overlap
      lists it has started in order. */
  datatype Label<D> = Host(r: nat, v: D) | Device(stage: Stage, pos: nat, i: nat)

  predicate CanStep<D>(s: System<D>, l: Label<D>) {
    match l
    case Host(r, _) => r < |s.requests| && HostEnabled(s.requests[r])
    case Device(stage, pos, i) =>
      pos < |s.queues.At(stage)| && s.queues.At(stage)[pos] < |s.requests| &&
      DeviceEnabled(s.requests[s.queues.At(stage)[pos]], stage, i)
  }

  function Without(q: seq<nat>, pos: nat): seq<nat>
    requires pos < |q|
  {
    q[..pos] + q[pos + 1..]
  }

  function Step<D>(s: System<D>, l: Label<D>, g: D -> D): System<D>
    requires CanStep(s, l)
  {
    match l
    case Host(r, v) =>
      var before := s.requests[r];
      var op := Round(before.kind)[before.pc];
      System(s.requests[r := HostNext(before, v)],
             if op.Submit? then s.queues.With(op.stage, s.queues.At(op.stage) + [r]) else s.queues)
    case Device(stage, pos, i) =>
      var r := s.queues.At(stage)[pos];
      var after := DeviceNext(s.requests[r], stage, i, g);
      System(s.requests[r := after],
             if stage in after.jobs then s.queues else s.queues.With(stage, Without(s.queues.At(stage), pos)))
  }

  ghost predicate IsRun<D>(s: System<D>, labels: seq<Label<D>>, t: System<D>, g: D -> D)
    decreases |labels|
  {
    if labels == [] then t == s
    else CanStep(s, labels[0]) && IsRun(Step(s, labels[0], g), labels[1..], t, g)
  }

  ghost predicate IsStart<D>(s: System<D>) {
    && s.queues == Queues([], [], [])
    && forall r: nat | r < |s.requests| :: s.requests[r] == Start(s.requests[r].kind, s.requests[r].mem)
  }
}
