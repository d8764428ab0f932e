/** How asynchronous requests are run: one thread starts inferences, another collects results, each taking its
    tasks first come, first served. */
module AsyncExecutors {
  import opened CommandQueues
  import opened PipelineInvariant
  import opened PipelineTheorems

  /** The system, and the requests waiting for the thread that runs InferAsync and for the one that runs GetResult. */
  datatype Schedule<D> = Schedule(sys: System<D>, submit: seq<nat>, collect: seq<nat>)

  datatype Turn<D> =
    | StartAsync(r: nat)                             // a caller starts a request that is not busy
    | SubmitTurn(v: D)                               // the first thread goes on with the task at its head
    | CollectTurn                                    // the second thread goes on with the task at its head
    | DeviceTurn(stage: Stage, pos: nat, i: nat)

  /** InferAsync ends, and GetResult begins, with the push. */
  function PushEnd(kind: Kind): nat {
    1 + |PushOps(kind)|
  }

  predicate HeadCanGoOn<D>(sys: System<D>, tasks: seq<nat>) {
    tasks != [] && tasks[0] < |sys.requests| && HostEnabled(sys.requests[tasks[0]])
  }

  predicate CanTurn<D>(s: Schedule<D>, l: Turn<D>) {
    match l
    case StartAsync(r) => r < |s.sys.requests| && r !in s.submit && r !in s.collect
    case SubmitTurn(_) => HeadCanGoOn(s.sys, s.submit)
    case CollectTurn => HeadCanGoOn(s.sys, s.collect)
    case DeviceTurn(stage, pos, i) => CanStep(s.sys, Device(stage, pos, i))
  }

  function Turned<D>(s: Schedule<D>, l: Turn<D>, g: D -> D): Schedule<D>
    requires CanTurn(s, l)
  {
    match l
    case StartAsync(r) => s.(submit := s.submit + [r])
    case SubmitTurn(v) =>
      var r := s.submit[0];
      var sys := Step(s.sys, Host(r, v), g);
      if sys.requests[r].pc == PushEnd(sys.requests[r].kind) then Schedule(sys, s.submit[1..], s.collect + [r])
      else s.(sys := sys)
    case CollectTurn =>
      var r := s.collect[0];
      var sys := Step(s.sys, Host(r, s.sys.requests[r].mem.hostInput), g);
      if sys.requests[r].pc == 0 then Schedule(sys, s.submit, s.collect[1..]) else s.(sys := sys)
    case DeviceTurn(stage, pos, i) => s.(sys := Step(s.sys, Device(stage, pos, i), g))
  }

  ghost predicate IsSchedule<D>(s: Schedule<D>, turns: seq<Turn<D>>, t: Schedule<D>, g: D -> D)
    decreases |turns|
  {
    if turns == [] then t == s
    else CanTurn(s, turns[0]) && IsSchedule(Turned(s, turns[0], g), turns[1..], t, g)
  }

  ghost predicate IsFirst<D>(s: Schedule<D>) {
    IsStart(s.sys) && s.submit == [] && s.collect == []
  }

  // ---- what every turn keeps ----

  predicate Distinct(ids: seq<nat>) {
    forall i, j | 0 <= i < j < |ids| :: ids[i] != ids[j]
  }

  predicate Within(ids: seq<nat>, n: nat) {
    forall i | 0 <= i < |ids| :: ids[i] < n
  }

  /** Where a request stands in its round says which thread has it. */
  predicate Placed<D>(s: Schedule<D>, r: nat)
    requires r < |s.sys.requests|
  {
    var q := s.sys.requests[r];
    if r in s.submit then r !in s.collect && q.pc < PushEnd(q.kind)
    else if r in s.collect then PushEnd(q.kind) <= q.pc
    else q.pc == 0
  }

  ghost predicate ScheduleInv<D>(s: Schedule<D>, g: D -> D) {
    && Inv(s.sys, g) && Distinct(s.submit) && Distinct(s.collect)
    && Within(s.submit, |s.sys.requests|) && Within(s.collect, |s.sys.requests|)
    && (forall r: nat | r < |s.sys.requests| :: Placed(s, r))
  }

  /** Each turn is a step of the system in which every thread runs freely, or no step at all. */
  lemma TurnIsStep<D>(s: Schedule<D>, l: Turn<D>, g: D -> D) returns (labels: seq<Label<D>>)
    requires CanTurn(s, l)
    ensures IsRun(s.sys, labels, Turned(s, l, g).sys, g)
  {
    match l {
      case StartAsync(_) => labels := [];
      case SubmitTurn(v) =>
        labels := [Host(s.submit[0], v)];
        OneStepRun(s.sys, labels[0], g);
      case CollectTurn =>
        labels := [Host(s.collect[0], s.sys.requests[s.collect[0]].mem.hostInput)];
        OneStepRun(s.sys, labels[0], g);
      case DeviceTurn(stage, pos, i) =>
        labels := [Device(stage, pos, i)];
        OneStepRun(s.sys, labels[0], g);
    }
  }

  /** So whatever holds of all its runs holds under the two executors. */
  lemma {:induction false} ScheduledRunsAreRuns<D>(s: Schedule<D>, turns: seq<Turn<D>>, t: Schedule<D>, g: D -> D)
      returns (labels: seq<Label<D>>)
    requires IsSchedule(s, turns, t, g)
    ensures IsRun(s.sys, labels, t.sys, g)
    decreases |turns|
  {
    if turns == [] {
      labels := [];
    } else {
      var first := TurnIsStep(s, turns[0], g);
      var rest := ScheduledRunsAreRuns(Turned(s, turns[0], g), turns[1..], t, g);
      RunsCompose(s.sys, first, Turned(s, turns[0], g).sys, rest, t.sys, g);
      labels := first + rest;
    }
  }

  /** Every result collected belongs to the request's own input. */
  lemma CollectedAnswersMatch<D>(s: Schedule<D>, turns: seq<Turn<D>>, t: Schedule<D>, g: D -> D, r: nat)
    requires IsFirst(s) && IsSchedule(s, turns, t, g) && r < |t.sys.requests|
    ensures forall n: nat | n < |t.sys.requests[r].outputs| ::
              n < |t.sys.requests[r].inputs| && t.sys.requests[r].outputs[n] == g(t.sys.requests[r].inputs[n])
  {
    var labels := ScheduledRunsAreRuns(s, turns, t, g);
    AnswersMatchInputs(s.sys, labels, t.sys, g, r);
  }

  lemma HostMovesOn<D>(s: System<D>, r: nat, v: D, g: D -> D)
    requires Inv(s, g) && CanStep(s, Host(r, v))
    ensures var t := Step(s, Host(r, v), g);
            && Inv(t, g) && |t.requests| == |s.requests| && t.requests[r].kind == s.requests[r].kind
            && t.requests[r].pc
               == (if s.requests[r].pc + 1 == |Round(s.requests[r].kind)| then 0 else s.requests[r].pc + 1)
            && forall o: nat | o < |s.requests| && o != r :: t.requests[o] == s.requests[o]
  {
    StepKeepsInv(s, Host(r, v), g);
  }

  lemma RoundContinues(kind: Kind)
    ensures 1 < PushEnd(kind) < |Round(kind)|
  {
    RoundLaidOut();
  }

  lemma RestOfDistinct(ids: seq<nat>)
    requires ids != [] && Distinct(ids)
    ensures Distinct(ids[1..]) && forall r: nat :: r in ids[1..] <==> r in ids && r != ids[0]
  {
  }

  lemma TurnKeepsSchedule<D>(s: Schedule<D>, l: Turn<D>, g: D -> D)
    requires ScheduleInv(s, g) && CanTurn(s, l)
    ensures ScheduleInv(Turned(s, l, g), g)
  {
    match l {
      case StartAsync(r) => StartKeepsSchedule(s, r, g);
      case SubmitTurn(v) => SubmitKeepsSchedule(s, v, g);
      case CollectTurn => CollectKeepsSchedule(s, g);
      case DeviceTurn(stage, pos, i) => DeviceKeepsSchedule(s, stage, pos, i, g);
    }
  }

  lemma StartKeepsSchedule<D>(s: Schedule<D>, r: nat, g: D -> D)
    requires ScheduleInv(s, g) && CanTurn(s, StartAsync(r))
    ensures ScheduleInv(Turned(s, StartAsync(r), g), g)
  {
    assert Placed(s, r);
    RoundContinues(s.sys.requests[r].kind);
    forall o: nat | o < |s.sys.requests| ensures Placed(Turned(s, StartAsync(r), g), o) {
      assert Placed(s, o);
    }
  }

  lemma SubmitKeepsSchedule<D>(s: Schedule<D>, v: D, g: D -> D)
    requires ScheduleInv(s, g) && CanTurn(s, SubmitTurn(v))
    ensures ScheduleInv(Turned(s, SubmitTurn(v), g), g)
  {
    var r, t := s.submit[0], Turned(s, SubmitTurn(v), g);
    HostMovesOn(s.sys, r, v, g);
    RoundContinues(s.sys.requests[r].kind);
    assert Placed(s, r);
    if t.sys.requests[r].pc == PushEnd(t.sys.requests[r].kind) {
      HandedOver(s, t, r);
    } else {
      forall o: nat | o < |t.sys.requests| ensures Placed(t, o) {
        assert Placed(s, o);
      }
    }
  }

  lemma HandedOver<D>(s: Schedule<D>, t: Schedule<D>, r: nat)
    requires Distinct(s.submit) && Distinct(s.collect) && s.submit != [] && s.submit[0] == r && r !in s.collect
    requires Within(s.submit, |s.sys.requests|) && Within(s.collect, |s.sys.requests|)
    requires |t.sys.requests| == |s.sys.requests|
    requires t.submit == s.submit[1..] && t.collect == s.collect + [r]
    requires forall o: nat | o < |s.sys.requests| :: Placed(s, o)
    requires t.sys.requests[r].pc == PushEnd(t.sys.requests[r].kind)
    requires forall o: nat | o < |s.sys.requests| && o != r :: t.sys.requests[o] == s.sys.requests[o]
    ensures Distinct(t.submit) && Distinct(t.collect)
    ensures Within(t.submit, |t.sys.requests|) && Within(t.collect, |t.sys.requests|)
    ensures forall o: nat | o < |t.sys.requests| :: Placed(t, o)
  {
    RestOfDistinct(s.submit);
    forall o: nat | o < |t.sys.requests| ensures Placed(t, o) {
      assert Placed(s, o);
    }
  }

  lemma CollectKeepsSchedule<D>(s: Schedule<D>, g: D -> D)
    requires ScheduleInv(s, g) && CanTurn(s, CollectTurn)
    ensures ScheduleInv(Turned(s, CollectTurn, g), g)
  {
    var r, t := s.collect[0], Turned(s, CollectTurn, g);
    HostMovesOn(s.sys, r, s.sys.requests[r].mem.hostInput, g);
    RoundContinues(s.sys.requests[r].kind);
    RestOfDistinct(s.collect);
    assert Placed(s, r);
    forall o: nat | o < |t.sys.requests| ensures Placed(t, o) {
      assert Placed(s, o);
    }
  }

  lemma DeviceKeepsSchedule<D>(s: Schedule<D>, stage: Stage, pos: nat, i: nat, g: D -> D)
    requires ScheduleInv(s, g) && CanTurn(s, DeviceTurn(stage, pos, i))
    ensures ScheduleInv(Turned(s, DeviceTurn(stage, pos, i), g), g)
  {
    var t := Turned(s, DeviceTurn(stage, pos, i), g);
    StepKeepsInv(s.sys, Device(stage, pos, i), g);
    forall o: nat | o < |t.sys.requests| ensures Placed(t, o) {
      DeviceLeavesHostsAlone(s.sys, Device(stage, pos, i), g, o);
      assert Placed(s, o);
    }
  }

  lemma FirstIsInvariant<D>(s: Schedule<D>, g: D -> D)
    requires IsFirst(s)
    ensures ScheduleInv(s, g)
  {
    StartInv(s.sys, g);
    forall r: nat | r < |s.sys.requests| ensures Placed(s, r) {
      assert s.sys.requests[r] == Start(s.sys.requests[r].kind, s.sys.requests[r].mem);
    }
  }

  lemma {:induction false} ScheduleKeepsInv<D>(s: Schedule<D>, turns: seq<Turn<D>>, t: Schedule<D>, g: D -> D)
    requires ScheduleInv(s, g) && IsSchedule(s, turns, t, g)
    ensures ScheduleInv(t, g)
    decreases |turns|
  {
    if turns != [] {
      TurnKeepsSchedule(s, turns[0], g);
      ScheduleKeepsInv(Turned(s, turns[0], g), turns[1..], t, g);
    }
  }

  // ---- first come, first served ----

  /** InferAsync is the part of a round up to the push, GetResult the rest. */
  lemma TasksMakeUpRound(kind: Kind)
    ensures PushEnd(kind) <= |Round(kind)|
    ensures Round(kind)[..PushEnd(kind)] == [WriteInput] + PushOps(kind)
    ensures Round(kind)[PushEnd(kind)..] == PullOps(kind) + [ReadOutput] + ResetOps(kind)
  {
  }

  /** Of the requests waiting for a thread only the first has begun. */
  predicate OnlyHeadsBegun<D>(s: Schedule<D>) {
    && Within(s.submit, |s.sys.requests|) && Within(s.collect, |s.sys.requests|)
    && (forall i | 0 < i < |s.submit| :: s.sys.requests[s.submit[i]].pc == 0)
    && (forall i | 0 < i < |s.collect| ::
          s.sys.requests[s.collect[i]].pc == PushEnd(s.sys.requests[s.collect[i]].kind))
  }

  lemma StartKeepsHeads<D>(s: Schedule<D>, r: nat, g: D -> D)
    requires ScheduleInv(s, g) && OnlyHeadsBegun(s) && CanTurn(s, StartAsync(r))
    ensures OnlyHeadsBegun(Turned(s, StartAsync(r), g))
  {
    assert Placed(s, r);
  }

  lemma {:induction false} HeadGoesOn<D>(s: Schedule<D>, t: Schedule<D>, r: nat)
    requires OnlyHeadsBegun(s) && Distinct(s.submit) && s.submit != [] && s.submit[0] == r && r !in s.collect
    requires t.submit == s.submit && t.collect == s.collect && |t.sys.requests| == |s.sys.requests|
    requires forall o: nat | o < |s.sys.requests| && o != r :: t.sys.requests[o] == s.sys.requests[o]
    ensures OnlyHeadsBegun(t)
  {
  }

  lemma {:induction false} HeadHandedOver<D>(s: Schedule<D>, t: Schedule<D>, r: nat)
    requires OnlyHeadsBegun(s) && Distinct(s.submit) && s.submit != [] && s.submit[0] == r && r !in s.collect
    requires t.submit == s.submit[1..] && t.collect == s.collect + [r] && |t.sys.requests| == |s.sys.requests|
    requires forall o: nat | o < |s.sys.requests| && o != r :: t.sys.requests[o] == s.sys.requests[o]
    requires t.sys.requests[r].pc == PushEnd(t.sys.requests[r].kind)
    ensures OnlyHeadsBegun(t)
  {
    forall i | 0 < i < |t.submit| ensures t.sys.requests[t.submit[i]].pc == 0 {
      assert t.submit[i] == s.submit[i + 1];
    }
  }

  lemma {:induction false} SubmitKeepsHeads<D>(s: Schedule<D>, v: D, g: D -> D)
    requires ScheduleInv(s, g) && OnlyHeadsBegun(s) && CanTurn(s, SubmitTurn(v))
    ensures OnlyHeadsBegun(Turned(s, SubmitTurn(v), g))
  {
    var r, t := s.submit[0], Turned(s, SubmitTurn(v), g);
    HostMovesOn(s.sys, r, v, g);
    assert Placed(s, r);
    if t.sys.requests[r].pc == PushEnd(t.sys.requests[r].kind) {
      HeadHandedOver(s, t, r);
    } else {
      HeadGoesOn(s, t, r);
    }
  }

  lemma CollectKeepsHeads<D>(s: Schedule<D>, g: D -> D)
    requires ScheduleInv(s, g) && OnlyHeadsBegun(s) && CanTurn(s, CollectTurn)
    ensures OnlyHeadsBegun(Turned(s, CollectTurn, g))
  {
    var r := s.collect[0];
    HostMovesOn(s.sys, r, s.sys.requests[r].mem.hostInput, g);
    RestOfDistinct(s.collect);
    assert Placed(s, r);
  }

  lemma DeviceKeepsHeads<D>(s: Schedule<D>, stage: Stage, pos: nat, i: nat, g: D -> D)
    requires OnlyHeadsBegun(s) && CanTurn(s, DeviceTurn(stage, pos, i))
    ensures OnlyHeadsBegun(Turned(s, DeviceTurn(stage, pos, i), g))
  {
    var t := Turned(s, DeviceTurn(stage, pos, i), g);
    forall o: nat | o < |s.sys.requests|
      ensures |t.sys.requests| == |s.sys.requests| && SameThread(s.sys.requests[o], t.sys.requests[o])
    {
      DeviceLeavesHostsAlone(s.sys, Device(stage, pos, i), g, o);
    }
  }

  lemma TurnKeepsHeads<D>(s: Schedule<D>, l: Turn<D>, g: D -> D)
    requires ScheduleInv(s, g) && OnlyHeadsBegun(s) && CanTurn(s, l)
    ensures OnlyHeadsBegun(Turned(s, l, g))
  {
    match l {
      case StartAsync(r) => StartKeepsHeads(s, r, g);
      case SubmitTurn(v) => SubmitKeepsHeads(s, v, g);
      case CollectTurn => CollectKeepsHeads(s, g);
      case DeviceTurn(stage, pos, i) => DeviceKeepsHeads(s, stage, pos, i, g);
    }
  }

  lemma {:induction false} ScheduleKeepsHeads<D>(s: Schedule<D>, turns: seq<Turn<D>>, t: Schedule<D>, g: D -> D)
    requires ScheduleInv(s, g) && OnlyHeadsBegun(s) && IsSchedule(s, turns, t, g)
    ensures OnlyHeadsBegun(t)
    decreases |turns|
  {
    if turns != [] {
      TurnKeepsSchedule(s, turns[0], g);
      TurnKeepsHeads(s, turns[0], g);
      ScheduleKeepsHeads(Turned(s, turns[0], g), turns[1..], t, g);
    }
  }

  /** Each thread is done with a task before it begins another one: in every reachable state no request waiting for
      the first thread has begun but the first, and none waiting for the second has gone past its push but the first. */
  lemma TasksRunWhole<D>(s: Schedule<D>, turns: seq<Turn<D>>, t: Schedule<D>, g: D -> D)
    requires IsFirst(s) && IsSchedule(s, turns, t, g)
    ensures OnlyHeadsBegun(t)
  {
    FirstIsInvariant(s, g);
    ScheduleKeepsHeads(s, turns, t, g);
  }

  function StartedBy<D>(l: Turn<D>): seq<nat> {
    if l.StartAsync? then [l.r] else []
  }

  /** The requests in the order in which they were started. */
  function Started<D>(turns: seq<Turn<D>>): seq<nat> {
    if turns == [] then [] else StartedBy(turns[0]) + Started(turns[1..])
  }

  /** The requests in the hands of the threads, those that have been pushed first. */
  function Held<D>(s: Schedule<D>): seq<nat> {
    s.collect + s.submit
  }

  /** The request whose round ends with this turn, if one's does. */
  function FinishedBy<D>(s: Schedule<D>, l: Turn<D>, g: D -> D): seq<nat>
    requires CanTurn(s, l)
  {
    if l.CollectTurn? && Turned(s, l, g).sys.requests[s.collect[0]].pc == 0 then [s.collect[0]] else []
  }

  /** The requests in the order in which their rounds have ended. */
  ghost function Finished<D>(s: Schedule<D>, turns: seq<Turn<D>>, t: Schedule<D>, g: D -> D): seq<nat>
    requires IsSchedule(s, turns, t, g)
    decreases |turns|
  {
    if turns == [] then []
    else FinishedBy(s, turns[0], g) + Finished(Turned(s, turns[0], g), turns[1..], t, g)
  }

  lemma HeadMovesOver(a: seq<nat>, b: seq<nat>)
    requires b != []
    ensures (a + [b[0]]) + b[1..] == a + b
  {
    assert b == [b[0]] + b[1..];
  }

  lemma HeadLeaves(a: seq<nat>, b: seq<nat>)
    requires a != []
    ensures [a[0]] + (a[1..] + b) == a + b
  {
    assert a == [a[0]] + a[1..];
  }

  lemma TurnKeepsOrder<D>(s: Schedule<D>, l: Turn<D>, g: D -> D)
    requires CanTurn(s, l)
    ensures Held(s) + StartedBy(l) == FinishedBy(s, l, g) + Held(Turned(s, l, g))
  {
    if l.SubmitTurn? {
      HeadMovesOver(s.collect, s.submit);
    } else if l.CollectTurn? {
      HeadLeaves(s.collect, s.submit);
    }
  }

  lemma Regroup(a: seq<nat>, b: seq<nat>, c: seq<nat>, d: seq<nat>, e: seq<nat>, f: seq<nat>, h: seq<nat>)
    requires a + b == c + d && d + e == f + h
    ensures a + (b + e) == (c + f) + h
  {
    assert a + (b + e) == (a + b) + e == c + (d + e);
  }

  /** Those in the hands of the threads, then those started since, are those finished since, then those still in the
      hands of the threads, in the same order. */
  lemma {:induction false} TasksStayInOrder<D>(s: Schedule<D>, turns: seq<Turn<D>>, t: Schedule<D>, g: D -> D)
    requires IsSchedule(s, turns, t, g)
    ensures Held(s) + Started(turns) == Finished(s, turns, t, g) + Held(t)
    decreases |turns|
  {
    if turns == [] {
      assert Held(s) + [] == [] + Held(t);
    } else {
      var u := Turned(s, turns[0], g);
      TurnKeepsOrder(s, turns[0], g);
      TasksStayInOrder(u, turns[1..], t, g);
      Regroup(Held(s), StartedBy(turns[0]), FinishedBy(s, turns[0], g), Held(u),
              Started(turns[1..]), Finished(u, turns[1..], t, g), Held(t));
    }
  }

  /** First come, first served: in every run the requests in the order of their starts are those that have finished,
      in the order they have, then those whose results are waited for, then those yet to be submitted. */
  lemma FirstComeFirstServed<D>(s: Schedule<D>, turns: seq<Turn<D>>, t: Schedule<D>, g: D -> D)
    requires IsFirst(s) && IsSchedule(s, turns, t, g)
    ensures Started(turns) == Finished(s, turns, t, g) + (t.collect + t.submit)
  {
    TasksStayInOrder(s, turns, t, g);
    assert Held(s) + Started(turns) == Started(turns);
  }

  // ---- what is left to do ----

  /** Operations the threads still have to perform for these requests. */
  function Todo<D>(requests: seq<Request<D>>, ids: seq<nat>): int
    requires Within(ids, |requests|)
  {
    if ids == [] then 0 else OperationsLeft(requests[ids[0]]) + Todo(requests, ids[1..])
  }

  function OperationsLeft<D>(q: Request<D>): int {
    |Round(q.kind)| - q.pc
  }

  /** The requests stand where they stood, except possibly one. */
  predicate StandStill<D>(before: seq<Request<D>>, after: seq<Request<D>>, ids: seq<nat>) {
    && Within(ids, |before|) && Within(ids, |after|)
    && forall i | 0 <= i < |ids| :: OperationsLeft(after[ids[i]]) == OperationsLeft(before[ids[i]])
  }

  lemma {:induction false} TodoSame<D>(before: seq<Request<D>>, after: seq<Request<D>>, ids: seq<nat>)
    requires StandStill(before, after, ids)
    ensures Todo(after, ids) == Todo(before, ids)
  {
    if ids != [] {
      TodoSame(before, after, ids[1..]);
    }
  }

  lemma {:induction false} TodoAppend<D>(requests: seq<Request<D>>, ids: seq<nat>, r: nat)
    requires r < |requests| && Within(ids, |requests|)
    ensures Within(ids + [r], |requests|)
    ensures Todo(requests, ids + [r]) == Todo(requests, ids) + OperationsLeft(requests[r])
  {
    if ids == [] {
      assert ids + [r] == [r] && [r][1..] == [];
    } else {
      TodoAppend(requests, ids[1..], r);
      assert (ids + [r])[1..] == ids[1..] + [r];
    }
  }

  lemma {:induction false} TodoIsPositive<D>(s: System<D>, g: D -> D, ids: seq<nat>)
    requires Inv(s, g) && Within(ids, |s.requests|)
    ensures 0 <= Todo(s.requests, ids)
  {
    if ids != [] {
      PcInRound(s.requests[ids[0]], g);
      TodoIsPositive(s, g, ids[1..]);
    }
  }

  /** When only the head of some tasks moves, what is left of the others does not change. */
  lemma HeadMoves<D>(before: seq<Request<D>>, after: seq<Request<D>>, tasks: seq<nat>, others: seq<nat>)
    requires tasks != [] && Distinct(tasks) && tasks[0] !in others && |after| == |before|
    requires Within(tasks, |before|) && Within(others, |before|)
    requires forall o: nat | o < |before| && o != tasks[0] :: after[o] == before[o]
    ensures Todo(after, others) == Todo(before, others) && Todo(after, tasks[1..]) == Todo(before, tasks[1..])
  {
    TodoSame(before, after, others);
    TodoSame(before, after, tasks[1..]);
  }

  function Remaining<D>(s: Schedule<D>): int
    requires Within(s.submit, |s.sys.requests|) && Within(s.collect, |s.sys.requests|)
  {
    Todo(s.sys.requests, s.submit) + Todo(s.sys.requests, s.collect)
  }

  lemma SubmitMakesProgress<D>(s: Schedule<D>, v: D, g: D -> D)
    requires ScheduleInv(s, g) && CanTurn(s, SubmitTurn(v))
    ensures var t := Turned(s, SubmitTurn(v), g); ScheduleInv(t, g) && Remaining(t) < Remaining(s)
  {
    var r, t := s.submit[0], Turned(s, SubmitTurn(v), g);
    SubmitKeepsSchedule(s, v, g);
    HostMovesOn(s.sys, r, v, g);
    RoundContinues(s.sys.requests[r].kind);
    assert Placed(s, r);
    HeadMoves(s.sys.requests, t.sys.requests, s.submit, s.collect);
    TodoAppend(t.sys.requests, s.collect, r);
  }

  lemma CollectMakesProgress<D>(s: Schedule<D>, g: D -> D)
    requires ScheduleInv(s, g) && CanTurn(s, CollectTurn)
    ensures var t := Turned(s, CollectTurn, g); ScheduleInv(t, g) && Remaining(t) < Remaining(s)
  {
    var r, t := s.collect[0], Turned(s, CollectTurn, g);
    CollectKeepsSchedule(s, g);
    HostMovesOn(s.sys, r, s.sys.requests[r].mem.hostInput, g);
    PcInRound(s.sys.requests[r], g);
    assert Placed(s, r);
    HeadMoves(s.sys.requests, t.sys.requests, s.collect, s.submit);
  }

  lemma {:induction false} SchedulesCompose<D>(
      s: Schedule<D>, xs: seq<Turn<D>>, t: Schedule<D>, ys: seq<Turn<D>>, u: Schedule<D>, g: D -> D)
    requires IsSchedule(s, xs, t, g) && IsSchedule(t, ys, u, g)
    ensures IsSchedule(s, xs + ys, u, g)
    decreases |xs|
  {
    if xs == [] {
      assert xs + ys == ys;
    } else {
      SchedulesCompose(Turned(s, xs[0], g), xs[1..], t, ys, u, g);
      ScheduleBegins(s, xs[0], xs[1..] + ys, u, g);
      FirstOfConcat(xs, ys);
    }
  }

  lemma ScheduleBegins<D>(s: Schedule<D>, l: Turn<D>, rest: seq<Turn<D>>, u: Schedule<D>, g: D -> D)
    requires CanTurn(s, l) && IsSchedule(Turned(s, l, g), rest, u, g)
    ensures IsSchedule(s, [l] + rest, u, g)
  {
    assert ([l] + rest)[1..] == rest;
  }

  // ---- every turn but a start uses something up ----

  lemma {:induction false} NothingDone(n: nat)
    ensures Left(n, {}) == n
  {
    if n > 0 {
      NothingDone(n - 1);
    }
  }

  /** A host operation submits at most one list, of at most three commands. */
  lemma HostAddsLittleWork<D>(r: Request<D>, v: D)
    requires HostEnabled(r)
    ensures RequestWork(HostNext(r, v)) <= RequestWork(r) + 3
  {
    var op, r' := Round(r.kind)[r.pc], HostNext(r, v);
    if op.Submit? {
      NothingDone(|Recorded(r.kind, op.stage)|);
      assert JobWork(r', op.stage) <= JobWork(r, op.stage) + 3;
      assert forall st | st != op.stage :: JobWork(r', st) == JobWork(r, st);
    } else {
      assert forall st :: JobWork(r', st) == JobWork(r, st);
    }
  }

  lemma HostStepWork<D>(s: System<D>, r: nat, v: D, g: D -> D)
    requires CanStep(s, Host(r, v))
    ensures Work(Step(s, Host(r, v), g).requests) <= Work(s.requests) + 3
  {
    HostAddsLittleWork(s.requests[r], v);
    WorkAfterUpdate(s.requests, r, HostNext(s.requests[r], v));
  }

  /** What is left to do: operations of the threads, each worth more than any list it may submit, and commands of
      the device. */
  function Effort<D>(s: Schedule<D>): int
    requires Within(s.submit, |s.sys.requests|) && Within(s.collect, |s.sys.requests|)
  {
    4 * Remaining(s) + Work(s.sys.requests)
  }

  lemma EffortIsNotNegative<D>(s: Schedule<D>, g: D -> D)
    requires ScheduleInv(s, g)
    ensures Effort(s) >= 0
  {
    TodoIsPositive(s.sys, g, s.submit);
    TodoIsPositive(s.sys, g, s.collect);
  }

  lemma DeviceLeavesTodo<D>(s: Schedule<D>, l: Label<D>, g: D -> D, ids: seq<nat>)
    requires CanStep(s.sys, l) && l.Device? && Within(ids, |s.sys.requests|)
    ensures var t := Step(s.sys, l, g); Within(ids, |t.requests|) && Todo(t.requests, ids) == Todo(s.sys.requests, ids)
  {
    var t := Step(s.sys, l, g);
    forall i | 0 <= i < |ids| ensures OperationsLeft(t.requests[ids[i]]) == OperationsLeft(s.sys.requests[ids[i]]) {
      DeviceLeavesHostsAlone(s.sys, l, g, ids[i]);
    }
    TodoSame(s.sys.requests, t.requests, ids);
  }

  lemma TurnTakesEffort<D>(s: Schedule<D>, l: Turn<D>, g: D -> D)
    requires ScheduleInv(s, g) && CanTurn(s, l) && !l.StartAsync?
    ensures ScheduleInv(Turned(s, l, g), g) && Effort(Turned(s, l, g)) < Effort(s)
  {
    TurnKeepsSchedule(s, l, g);
    match l {
      case SubmitTurn(v) =>
        SubmitMakesProgress(s, v, g);
        HostStepWork(s.sys, s.submit[0], v, g);
      case CollectTurn =>
        CollectMakesProgress(s, g);
        HostStepWork(s.sys, s.collect[0], s.sys.requests[s.collect[0]].mem.hostInput, g);
      case DeviceTurn(stage, pos, i) =>
        DeviceLeavesTodo(s, Device(stage, pos, i), g, s.submit);
        DeviceLeavesTodo(s, Device(stage, pos, i), g, s.collect);
        DeviceStepConsumesWork(s.sys, Device(stage, pos, i), g);
    }
  }

  predicate NoStarts<D>(turns: seq<Turn<D>>) {
    forall i | 0 <= i < |turns| :: !turns[i].StartAsync?
  }

  /** However threads and queues take turns, they use up what is left to do. */
  lemma {:induction false} ScheduleTakesEffort<D>(s: Schedule<D>, turns: seq<Turn<D>>, t: Schedule<D>, g: D -> D)
    requires ScheduleInv(s, g) && IsSchedule(s, turns, t, g) && NoStarts(turns)
    ensures ScheduleInv(t, g) && |turns| + Effort(t) <= Effort(s)
    decreases |turns|
  {
    if turns != [] {
      TurnTakesEffort(s, turns[0], g);
      ScheduleTakesEffort(Turned(s, turns[0], g), turns[1..], t, g);
    }
  }

  // ---- everything started finishes ----

  /** Nothing is left to do for anybody. */
  predicate AllIdle<D>(s: Schedule<D>) {
    s.submit == [] && s.collect == [] && forall r: nat | r < |s.sys.requests| :: s.sys.requests[r].pc == 0
  }

  lemma NoTasksNobodyBusy<D>(s: Schedule<D>, g: D -> D)
    requires ScheduleInv(s, g) && s.submit == [] && s.collect == []
    ensures AllIdle(s)
  {
    forall r: nat | r < |s.sys.requests| ensures s.sys.requests[r].pc == 0 {
      assert Placed(s, r);
    }
  }

  /** Unless nothing is left to do, a thread or, with strictly ordered queues, the device can go on. */
  lemma SomeTurnIsPossible<D>(s: Schedule<D>, g: D -> D, next: nat -> D) returns (l: Turn<D>)
    requires ScheduleInv(s, g) && !AllIdle(s)
    ensures CanTurn(s, l) && !l.StartAsync? && (l.DeviceTurn? ==> l.pos == 0)
    ensures l.SubmitTurn? ==> l.v == next(s.submit[0])
  {
    if !Drained(s.sys.queues) {
      SomeQueueHeadCanRun(s.sys, g);
      var stage: Stage, i: nat :| CanStep(s.sys, Device(stage, 0, i));
      l := DeviceTurn(stage, 0, i);
    } else {
      DrainedMeansIdle(s.sys, g);
      if s.submit != [] {
        l := SubmitTurn(next(s.submit[0]));
      } else {
        if s.collect == [] {
          NoTasksNobodyBusy(s, g);
        }
        l := CollectTurn;
      }
    }
  }

  lemma IdleHasNoJobs<D>(s: Schedule<D>, g: D -> D)
    requires ScheduleInv(s, g) && AllIdle(s)
    ensures forall r: nat | r < |s.sys.requests| :: s.sys.requests[r].jobs == map[]
  {
    forall r: nat | r < |s.sys.requests| ensures s.sys.requests[r].jobs == map[] {
      RoundLaidOut();
      HostOwnsItsRegions(s.sys.requests[r], g);
    }
  }

  ghost predicate Stuck<D(!new)>(s: Schedule<D>) {
    forall l | CanTurn(s, l) :: l.StartAsync?
  }

  lemma IdleNeedsAStart<D(!new)>(s: Schedule<D>, g: D -> D)
    requires ScheduleInv(s, g) && AllIdle(s)
    ensures Stuck(s)
  {
    IdleHasNoJobs(s, g);
    forall l | CanTurn(s, l) ensures !l.DeviceTurn? {
    }
  }

  /** Each request writes again what its region holds. */
  function SameInputs<D>(s: Schedule<D>): nat -> D
    requires s.sys.requests != []
  {
    (r: nat) => if r < |s.sys.requests| then s.sys.requests[r].mem.hostInput else s.sys.requests[0].mem.hostInput
  }

  /** Something is left to do exactly when something can go on. */
  lemma StuckMeansIdle<D(!new)>(s: Schedule<D>, g: D -> D)
    requires ScheduleInv(s, g)
    ensures Stuck(s) <==> AllIdle(s)
    ensures Effort(s) >= 0 && (Effort(s) == 0 ==> AllIdle(s))
  {
    EffortIsNotNegative(s, g);
    if AllIdle(s) {
      IdleNeedsAStart(s, g);
    } else {
      var l := SomeTurnIsPossible(s, g, SameInputs(s));
      TurnTakesEffort(s, l, g);
      EffortIsNotNegative(Turned(s, l, g), g);
    }
  }

  /** With one thread that submits and one that collects, each stuck with the task at its head until that is done,
      and all requests on the same three queues: from every reachable state, whatever is chosen to go on and however
      the queues overlap their lists, everything started is finished after at most Effort turns, unless callers
      start more in between; and until then something can always go on. */
  lemma EverythingStartedFinishes<D(!new)>(
      s: Schedule<D>, turns: seq<Turn<D>>, t: Schedule<D>, g: D -> D, more: seq<Turn<D>>, u: Schedule<D>)
    requires IsFirst(s) && IsSchedule(s, turns, t, g) && IsSchedule(t, more, u, g) && NoStarts(more)
    ensures ScheduleInv(t, g) && |more| <= Effort(t)
    ensures Stuck(u) <==> AllIdle(u)
    ensures |more| == Effort(t) ==> AllIdle(u)
  {
    FirstIsInvariant(s, g);
    ScheduleKeepsInv(s, turns, t, g);
    ScheduleTakesEffort(t, more, u, g);
    StuckMeansIdle(u, g);
  }

  /** Started, with the input still to be written. */
  predicate Unwritten<D>(s: Schedule<D>, r: nat)
    requires r < |s.sys.requests|
  {
    r in s.submit && s.sys.requests[r].pc == 0
  }

  /** From `s` to `t`, what has been written is the value `next` gives for each request, and no answer is lost. */
  ghost predicate Writes<D>(s: Schedule<D>, t: Schedule<D>, next: nat -> D) {
    && |t.sys.requests| == |s.sys.requests|
    && forall r: nat | r < |s.sys.requests| :: WritesOne(s, t, next, r)
  }

  predicate WritesOne<D(==)>(s: Schedule<D>, t: Schedule<D>, next: nat -> D, r: nat)
    requires r < |s.sys.requests| && |t.sys.requests| == |s.sys.requests|
  {
    var before, after := s.sys.requests[r], t.sys.requests[r];
    && after.kind == before.kind && before.outputs <= after.outputs && (Unwritten(t, r) ==> Unwritten(s, r))
    && after.inputs == if Unwritten(s, r) && !Unwritten(t, r) then before.inputs + [next(r)] else before.inputs
  }

  lemma WritesCompose<D>(s: Schedule<D>, t: Schedule<D>, u: Schedule<D>, next: nat -> D)
    requires Writes(s, t, next) && Writes(t, u, next)
    ensures Writes(s, u, next)
  {
    forall r: nat | r < |s.sys.requests| ensures WritesOne(s, u, next, r) {
      assert WritesOne(s, t, next, r) && WritesOne(t, u, next, r);
    }
  }

  lemma TurnWrites<D>(s: Schedule<D>, l: Turn<D>, g: D -> D, next: nat -> D)
    requires ScheduleInv(s, g) && CanTurn(s, l) && !l.StartAsync?
    requires l.SubmitTurn? ==> l.v == next(s.submit[0])
    ensures Writes(s, Turned(s, l, g), next)
  {
    match l {
      case SubmitTurn(v) => SubmitWrites(s, v, g, next);
      case CollectTurn => CollectWrites(s, g, next);
      case DeviceTurn(stage, pos, i) =>
        forall r: nat | r < |s.sys.requests|
          ensures |Turned(s, l, g).sys.requests| == |s.sys.requests| && WritesOne(s, Turned(s, l, g), next, r)
        {
          DeviceLeavesHostsAlone(s.sys, Device(stage, pos, i), g, r);
        }
    }
  }

  lemma SubmitWrites<D>(s: Schedule<D>, v: D, g: D -> D, next: nat -> D)
    requires ScheduleInv(s, g) && CanTurn(s, SubmitTurn(v)) && v == next(s.submit[0])
    ensures Writes(s, Turned(s, SubmitTurn(v), g), next)
  {
    var r, t := s.submit[0], Turned(s, SubmitTurn(v), g);
    HostMovesOn(s.sys, r, v, g);
    HostTakesInput(s.sys.requests[r], v);
    RoundContinues(s.sys.requests[r].kind);
    RestOfDistinct(s.submit);
    assert Placed(s, r);
    forall o: nat | o < |s.sys.requests| ensures WritesOne(s, t, next, o) {
    }
  }

  lemma CollectWrites<D>(s: Schedule<D>, g: D -> D, next: nat -> D)
    requires ScheduleInv(s, g) && CanTurn(s, CollectTurn)
    ensures Writes(s, Turned(s, CollectTurn, g), next)
  {
    var r, t := s.collect[0], Turned(s, CollectTurn, g);
    var v := s.sys.requests[r].mem.hostInput;
    HostMovesOn(s.sys, r, v, g);
    HostTakesInput(s.sys.requests[r], v);
    RoundContinues(s.sys.requests[r].kind);
    assert Placed(s, r);
    forall o: nat | o < |s.sys.requests| ensures WritesOne(s, t, next, o) {
    }
  }

  /** A way to finish all that has been started, with any inputs for those that have not written theirs. */
  lemma {:induction false} FinishingRun<D>(s: Schedule<D>, g: D -> D, next: nat -> D)
      returns (turns: seq<Turn<D>>, t: Schedule<D>)
    requires ScheduleInv(s, g)
    ensures IsSchedule(s, turns, t, g) && NoStarts(turns) && AllIdle(t) && ScheduleInv(t, g) && Writes(s, t, next)
    decreases Effort(s)
  {
    EffortIsNotNegative(s, g);
    if AllIdle(s) {
      turns, t := [], s;
    } else {
      var l := SomeTurnIsPossible(s, g, next);
      TurnTakesEffort(s, l, g);
      TurnWrites(s, l, g, next);
      EffortIsNotNegative(Turned(s, l, g), g);
      var rest;
      rest, t := FinishingRun(Turned(s, l, g), g, next);
      WritesCompose(s, Turned(s, l, g), t, next);
      ScheduleBegins(s, l, rest, t, g);
      turns := [l] + rest;
    }
  }

  /** So there is a way to finish from every reachable state. */
  lemma EverythingStartedCanFinish<D(!new)>(
      s: Schedule<D>, turns: seq<Turn<D>>, t: Schedule<D>, g: D -> D, next: nat -> D)
    requires IsFirst(s) && IsSchedule(s, turns, t, g)
    ensures exists more, u :: IsSchedule(t, more, u, g) && NoStarts(more) && AllIdle(u) && Writes(t, u, next)
  {
    FirstIsInvariant(s, g);
    ScheduleKeepsInv(s, turns, t, g);
    var more, u := FinishingRun(t, g, next);
  }
}
