/** Stateful requests under the two executor threads. */
module AsyncSessions {
  import opened AsyncExecutors
  import opened CommandQueues
  import opened EngineSession
  import opened PipelineInvariant
  import opened PipelineTheorems
  import opened InferRequest
  import opened StatefulSession
  import opened StateWiring

  /** With one thread submitting and one collecting for everybody, each request that writes as input what it has
      staged sees its own fold. */
  lemma EveryAsyncRequestSeesItsOwnFold(
      s: Schedule<Region>, turns: seq<Turn<Region>>, t: Schedule<Region>, r: nat,
      b: Bindings, net: Net, g: Graph, ops: seq<Operation>)
    requires IsFirst(s) && IsSchedule(s, turns, t, OnRegions(net.outs, g)) && r < |t.sys.requests| && Session(b, net)
    requires var fed := Replay(b, net, g, ops, t.sys.requests[r].outputs).fed;
             |fed| <= |t.sys.requests[r].outputs| && fed <= t.sys.requests[r].inputs
    ensures var trace := Replay(b, net, g, ops, t.sys.requests[r].outputs);
            && trace.seen == Fold(net, g, StateOf(b, net), ops).1
            && StateOf(trace.b, net) == Fold(net, g, StateOf(b, net), ops).0
  {
    var labels := ScheduledRunsAreRuns(s, turns, t, OnRegions(net.outs, g));
    EveryRequestSeesItsOwnFold(s.sys, labels, t.sys, r, b, net, g, ops);
  }

  // ---- sessions can be carried through ----

  /** Each request has followed its session, and none has been started that has nothing more to hand over. */
  predicate AllFollow(s: Schedule<Region>, bs: seq<Bindings>, net: Net, g: Graph, opss: seq<seq<Operation>>)
    requires |opss| == |s.sys.requests| && Sessions(bs, net, |s.sys.requests|)
  {
    forall r: nat | r < |s.sys.requests| ::
      && Follows(s.sys.requests[r], bs[r], net, g, opss[r])
      && (Unwritten(s, r) ==> !Completed(s.sys.requests[r], bs[r], net, g, opss[r]))
  }

  function NextInputs(
    s: Schedule<Region>, bs: seq<Bindings>, net: Net, g: Graph, opss: seq<seq<Operation>>): nat -> Region
    requires |opss| == |s.sys.requests| && Sessions(bs, net, |s.sys.requests|)
  {
    (r: nat) => if r < |s.sys.requests| then NextInput(s.sys.requests[r], bs[r], net, g, opss[r]) else map[]
  }

  lemma IdleThreadsStay(
      s: Schedule<Region>, t: Schedule<Region>, next: nat -> Region, g: Region -> Region, r: nat)
    requires ScheduleInv(s, g) && ScheduleInv(t, g) && AllIdle(t) && Writes(s, t, next)
    requires r < |s.sys.requests| && r !in s.submit && s.sys.requests[r].pc == 0
    ensures SameThread(s.sys.requests[r], t.sys.requests[r])
  {
    assert WritesOne(s, t, next, r);
    PcInRound(s.sys.requests[r], g);
    PcInRound(t.sys.requests[r], g);
  }

  lemma OneFollows(
      s: Schedule<Region>, t: Schedule<Region>, r: nat, bs: seq<Bindings>, net: Net, g: Graph,
      opss: seq<seq<Operation>>)
    requires |opss| == |s.sys.requests| && Sessions(bs, net, |s.sys.requests|) && AllFollow(s, bs, net, g, opss)
    requires ScheduleInv(s, OnRegions(net.outs, g)) && ScheduleInv(t, OnRegions(net.outs, g)) && AllIdle(t)
    requires Writes(s, t, NextInputs(s, bs, net, g, opss)) && r < |s.sys.requests|
    ensures Follows(t.sys.requests[r], bs[r], net, g, opss[r])
  {
    var q, after := s.sys.requests[r], t.sys.requests[r];
    assert WritesOne(s, t, NextInputs(s, bs, net, g, opss), r);
    PcInRound(q, OnRegions(net.outs, g));
    PcInRound(after, OnRegions(net.outs, g));
    if q.pc == 0 && !Unwritten(s, r) {
      IdleThreadsStay(s, t, NextInputs(s, bs, net, g, opss), OnRegions(net.outs, g), r);
      SameThreadSameSession(q, after, bs[r], net, g, opss[r]);
    } else {
      RoundFollows(q, after, bs[r], net, g, opss[r]);
    }
  }

  /** What has been started can be finished so that every request goes on following its session. */
  lemma FollowingRun(
      s: Schedule<Region>, bs: seq<Bindings>, net: Net, g: Graph, opss: seq<seq<Operation>>)
      returns (turns: seq<Turn<Region>>, t: Schedule<Region>)
    requires |opss| == |s.sys.requests| && Sessions(bs, net, |s.sys.requests|) && AllFollow(s, bs, net, g, opss)
    requires ScheduleInv(s, OnRegions(net.outs, g))
    ensures IsSchedule(s, turns, t, OnRegions(net.outs, g)) && ScheduleInv(t, OnRegions(net.outs, g)) && AllIdle(t)
    ensures |t.sys.requests| == |s.sys.requests| && AllFollow(t, bs, net, g, opss)
    ensures Writes(s, t, NextInputs(s, bs, net, g, opss))
  {
    turns, t := FinishingRun(s, OnRegions(net.outs, g), NextInputs(s, bs, net, g, opss));
    forall r: nat | r < |s.sys.requests| ensures Follows(t.sys.requests[r], bs[r], net, g, opss[r]) {
      OneFollows(s, t, r, bs, net, g, opss);
    }
  }

  /** From an idle state, one more inference of one session. */
  lemma StartThenFollow(
      s: Schedule<Region>, r: nat, bs: seq<Bindings>, net: Net, g: Graph, opss: seq<seq<Operation>>)
      returns (turns: seq<Turn<Region>>, t: Schedule<Region>)
    requires |opss| == |s.sys.requests| && Sessions(bs, net, |s.sys.requests|) && AllFollow(s, bs, net, g, opss)
    requires ScheduleInv(s, OnRegions(net.outs, g)) && AllIdle(s) && r < |s.sys.requests|
    requires !Completed(s.sys.requests[r], bs[r], net, g, opss[r])
    ensures IsSchedule(s, turns, t, OnRegions(net.outs, g)) && ScheduleInv(t, OnRegions(net.outs, g)) && AllIdle(t)
    ensures |t.sys.requests| == |s.sys.requests| && AllFollow(t, bs, net, g, opss)
    ensures |t.sys.requests[r].inputs| == |s.sys.requests[r].inputs| + 1
    ensures s.sys.requests[r].outputs <= t.sys.requests[r].outputs
    ensures forall o: nat | o < |s.sys.requests| && o != r :: SameThread(s.sys.requests[o], t.sys.requests[o])
  {
    var started := Turned(s, StartAsync(r), OnRegions(net.outs, g));
    TurnKeepsSchedule(s, StartAsync(r), OnRegions(net.outs, g));
    turns, t := FollowingRun(started, bs, net, g, opss);
    var next := NextInputs(started, bs, net, g, opss);
    assert WritesOne(started, t, next, r);
    forall o: nat | o < |s.sys.requests| && o != r ensures SameThread(s.sys.requests[o], t.sys.requests[o]) {
      IdleThreadsStay(started, t, next, OnRegions(net.outs, g), o);
    }
    ScheduleBegins(s, StartAsync(r), turns, t, OnRegions(net.outs, g));
    turns := [StartAsync(r)] + turns;
  }

  lemma {:induction false} AsyncSessionRun(
      s: Schedule<Region>, r: nat, bs: seq<Bindings>, net: Net, g: Graph, opss: seq<seq<Operation>>)
      returns (turns: seq<Turn<Region>>, t: Schedule<Region>)
    requires |opss| == |s.sys.requests| && Sessions(bs, net, |s.sys.requests|) && AllFollow(s, bs, net, g, opss)
    requires ScheduleInv(s, OnRegions(net.outs, g)) && AllIdle(s) && r < |s.sys.requests|
    ensures IsSchedule(s, turns, t, OnRegions(net.outs, g)) && ScheduleInv(t, OnRegions(net.outs, g)) && AllIdle(t)
    ensures |t.sys.requests| == |s.sys.requests| && AllFollow(t, bs, net, g, opss)
    ensures Completed(t.sys.requests[r], bs[r], net, g, opss[r])
    ensures forall o: nat | o < |s.sys.requests| && o != r :: SameThread(s.sys.requests[o], t.sys.requests[o])
    decreases |Replay(bs[r], net, g, opss[r], s.sys.requests[r].outputs).fed| - |s.sys.requests[r].inputs|
  {
    if Completed(s.sys.requests[r], bs[r], net, g, opss[r]) {
      turns, t := [], s;
    } else {
      turns, t := StartThenFollow(s, r, bs, net, g, opss);
      FedBeforeAnswered(bs[r], net, g, opss[r], s.sys.requests[r].outputs, t.sys.requests[r].outputs);
      var rest, u := AsyncSessionRun(t, r, bs, net, g, opss);
      SchedulesCompose(s, turns, t, rest, u, OnRegions(net.outs, g));
      turns, t := turns + rest, u;
    }
  }

  lemma {:induction false} AsyncSessionsRun(
      s: Schedule<Region>, n: nat, bs: seq<Bindings>, net: Net, g: Graph, opss: seq<seq<Operation>>)
      returns (turns: seq<Turn<Region>>, t: Schedule<Region>)
    requires ScheduleInv(s, OnRegions(net.outs, g)) && AllIdle(s)
    requires n <= |s.sys.requests| == |opss| && Sessions(bs, net, |s.sys.requests|)
    requires AllFollow(s, bs, net, g, opss) && CompletedUpTo(s.sys, n, bs, net, g, opss)
    ensures IsSchedule(s, turns, t, OnRegions(net.outs, g)) && AllIdle(t) && |t.sys.requests| == |s.sys.requests|
    ensures CompletedUpTo(t.sys, |t.sys.requests|, bs, net, g, opss)
    decreases |s.sys.requests| - n
  {
    if n == |s.sys.requests| {
      turns, t := [], s;
    } else {
      turns, t := AsyncSessionRun(s, n, bs, net, g, opss);
      OthersStay(s.sys, t.sys, n, bs, net, g, opss);
      var rest, u := AsyncSessionsRun(t, n + 1, bs, net, g, opss);
      SchedulesCompose(s, turns, t, rest, u, OnRegions(net.outs, g));
      turns, t := turns + rest, u;
    }
  }

  lemma AsyncSessionsFrom(
      s: Schedule<Region>, bs: seq<Bindings>, net: Net, g: Graph, opss: seq<seq<Operation>>)
      returns (turns: seq<Turn<Region>>, t: Schedule<Region>)
    requires ScheduleInv(s, OnRegions(net.outs, g))
    requires |opss| == |s.sys.requests| && Sessions(bs, net, |s.sys.requests|) && AllFollow(s, bs, net, g, opss)
    ensures IsSchedule(s, turns, t, OnRegions(net.outs, g)) && AllIdle(t) && |t.sys.requests| == |s.sys.requests|
    ensures CompletedUpTo(t.sys, |t.sys.requests|, bs, net, g, opss)
  {
    turns, t := FollowingRun(s, bs, net, g, opss);
    var rest, u := AsyncSessionsRun(t, 0, bs, net, g, opss);
    SchedulesCompose(s, turns, t, rest, u, OnRegions(net.outs, g));
    turns, t := turns + rest, u;
  }

  /** However starts, threads and queues have taken turns: as long as each request has followed its session, all
      sessions can be carried through by the two threads, and then each has seen its fold. */
  lemma EveryAsyncSessionCanFinish(
      s: Schedule<Region>, before: seq<Turn<Region>>, t: Schedule<Region>, bs: seq<Bindings>, net: Net, g: Graph,
      opss: seq<seq<Operation>>)
    requires IsFirst(s) && IsSchedule(s, before, t, OnRegions(net.outs, g))
    requires |opss| == |t.sys.requests| && Sessions(bs, net, |t.sys.requests|) && AllFollow(t, bs, net, g, opss)
    ensures exists turns, u ::
              && IsSchedule(t, turns, u, OnRegions(net.outs, g)) && AllIdle(u) && |u.sys.requests| == |t.sys.requests|
              && forall r: nat | r < |t.sys.requests| :: SawItsFold(u.sys.requests[r], bs[r], net, g, opss[r])
  {
    FirstIsInvariant(s, OnRegions(net.outs, g));
    ScheduleKeepsInv(s, before, t, OnRegions(net.outs, g));
    var turns, u := AsyncSessionsFrom(t, bs, net, g, opss);
    SchedulesCompose(s, before, t, turns, u, OnRegions(net.outs, g));
    forall r: nat | r < |t.sys.requests| ensures SawItsFold(u.sys.requests[r], bs[r], net, g, opss[r]) {
      assert Completed(u.sys.requests[r], bs[r], net, g, opss[r]);
      EveryAsyncRequestSeesItsOwnFold(s, before + turns, u, r, bs[r], net, g, opss[r]);
    }
  }
}
