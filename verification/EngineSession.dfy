/** Stateful requests on the shared engine: what the device protocol delivers is what a session is built on. */
module EngineSession {
  import opened CommandQueues
  import opened InferRequest
  import opened PipelineInvariant
  import opened PipelineTheorems
  import opened StateWiring
  import opened StatefulSession

  /** What a staging region holds, by the names of its slots. */
  type Region = map<string, Bytes>

  /** The compiled graph as the device sees it: a region in, a region out. */
  function OnRegions(outs: seq<string>, g: Graph): Region -> Region {
    (m: Region) => map n | n in outs :: g(m, n)
  }

  function RegionSlots(outs: seq<string>, answer: Region): map<Blob, Bytes> {
    map n | n in outs && n in answer :: OutputSlot(n) := answer[n]
  }

  /** The bindings once the output region holds an answer. */
  function TakeAnswer(b: Bindings, outs: seq<string>, answer: Region): (r: Bindings)
    ensures r.inputs == b.inputs && r.outputs == b.outputs && b.memory.Keys <= r.memory.Keys
  {
    b.(memory := b.memory + RegionSlots(outs, answer))
  }

  lemma SlotsOfAnswer(outs: seq<string>, g: Graph, staged: Region)
    ensures RegionSlots(outs, OnRegions(outs, g)(staged)) == AnswerSlots(outs, g, staged)
  {
  }

  lemma AnswerIsRunGraph(b: Bindings, ins: seq<string>, outs: seq<string>, g: Graph)
    requires forall n | n in ins :: InputSlot(n) in b.memory
    ensures TakeAnswer(b, outs, OnRegions(outs, g)(Staged(b, ins))) == RunGraph(b, ins, outs, g)
  {
    SlotsOfAnswer(outs, g, Staged(b, ins));
  }

  /** In every run of any number of requests on the shared queues: when a request's k-th input is what was staged,
      its k-th output turns the bindings into what RunGraph makes of them. */
  lemma EngineRunsGraph(
      s: System<Region>, labels: seq<Label<Region>>, t: System<Region>, r: nat, k: nat,
      b: Bindings, ins: seq<string>, outs: seq<string>, g: Graph)
    requires IsStart(s) && IsRun(s, labels, t, OnRegions(outs, g)) && r < |t.requests| && k < |t.requests[r].outputs|
    requires forall n | n in ins :: InputSlot(n) in b.memory
    requires k < |t.requests[r].inputs| && t.requests[r].inputs[k] == Staged(b, ins)
    ensures TakeAnswer(b, outs, t.requests[r].outputs[k]) == RunGraph(b, ins, outs, g)
  {
    AnswersMatchInputs(s, labels, t, OnRegions(outs, g), r);
    AnswerIsRunGraph(b, ins, outs, g);
  }

  // ---- a session whose answers come from the engine ----

  /** Where a session stands: its bindings, what it has shown, and the regions it has handed to the engine. */
  datatype Trace = Trace(b: Bindings, seen: seq<Seen>, fed: seq<Region>)

  /** What is in the input region once the caller has filled its blobs and they have been copied. */
  function Handed(b: Bindings, net: Net, given: string -> Bytes): Region
    requires Session(b, net)
  {
    var p := Provide(b, net.ins, net.sources, given);
    SameBindingsSameSession(b, p, net);
    Staged(CopyIn(p, net.ins), net.ins)
  }

  /** One inference with answers read off the engine: blobs in, whatever the engine answers, blobs out.  With no
      answer yet it has only handed over its input. */
  function Exchange(before: Trace, net: Net, given: string -> Bytes, answers: seq<Region>): (r: Trace)
    requires Session(before.b, net)
    ensures Session(r.b, net) && |r.seen| == |before.seen| + 1 && r.fed == before.fed + [Handed(before.b, net, given)]
  {
    var p := Provide(before.b, net.ins, net.sources, given);
    SameBindingsSameSession(before.b, p, net);
    var copied := CopyIn(p, net.ins);
    var fed := before.fed + [Handed(before.b, net, given)];
    if |before.fed| < |answers| then
      var taken := TakeAnswer(copied, net.outs, answers[|before.fed|]);
      var after := CopyOut(taken, net.outs);
      SameBindingsSameSession(before.b, after, net);
      Trace(after, before.seen + [Outputs(Observed(after, net.outs))], fed)
    else
      SameBindingsSameSession(before.b, copied, net);
      Trace(copied, before.seen + [Nothing], fed)
  }

  function Replay(b: Bindings, net: Net, g: Graph, ops: seq<Operation>, answers: seq<Region>): (r: Trace)
    requires Session(b, net)
    ensures Session(r.b, net) && |r.seen| == |ops|
  {
    if ops == [] then Trace(b, [], []) else
    var before := Replay(b, net, g, ops[..|ops| - 1], answers);
    match ops[|ops| - 1]
    case Infer(given) => Exchange(before, net, given, answers)
    case SetState(_, _) => StateOperation(before, net, g, ops[|ops| - 1])
    case Reset(_) => StateOperation(before, net, g, ops[|ops| - 1])
  }

  /** Setting and clearing variables does not involve the engine. */
  function StateOperation(before: Trace, net: Net, g: Graph, op: Operation): (r: Trace)
    requires Session(before.b, net) && !op.Infer?
    ensures Session(r.b, net) && |r.seen| == |before.seen| + 1 && r.fed == before.fed
  {
    PerformFolds(before.b, net, g, op);
    var after := Perform(before.b, net, g, op);
    Trace(after.0, before.seen + [after.1], before.fed)
  }

  /** Each answer so far is the graph's on the region it answers. */
  predicate Answered(fed: seq<Region>, answers: seq<Region>, outs: seq<string>, g: Graph) {
    |fed| <= |answers| && forall k | 0 <= k < |fed| :: answers[k] == OnRegions(outs, g)(fed[k])
  }

  lemma LastAnswered(fed: seq<Region>, answers: seq<Region>, outs: seq<string>, g: Graph, last: Region)
    requires Answered(fed + [last], answers, outs, g)
    ensures Answered(fed, answers, outs, g) && answers[|fed|] == OnRegions(outs, g)(last)
  {
    var all := fed + [last];
    assert all[|fed|] == last && forall k | 0 <= k < |fed| :: all[k] == fed[k];
  }

  lemma InferTakesAnswer(p: Bindings, ins: seq<string>, outs: seq<string>, g: Graph, answer: Region)
    requires Bound(p, ins, outs) && answer == OnRegions(outs, g)(Staged(CopyIn(p, ins), ins))
    ensures CopyOut(TakeAnswer(CopyIn(p, ins), outs, answer), outs) == InferRequest.Infer(p, ins, outs, g)
  {
    AnswerIsRunGraph(CopyIn(p, ins), ins, outs, g);
  }

  lemma ExchangeIsInference(before: Trace, net: Net, g: Graph, given: string -> Bytes, answers: seq<Region>)
    requires Session(before.b, net)
    requires Answered(Exchange(before, net, given, answers).fed, answers, net.outs, g)
    ensures Exchange(before, net, given, answers).b == Perform(before.b, net, g, Infer(given)).0
    ensures Exchange(before, net, given, answers).seen == before.seen + [Perform(before.b, net, g, Infer(given)).1]
    ensures Answered(before.fed, answers, net.outs, g)
  {
    var p := Provide(before.b, net.ins, net.sources, given);
    SameBindingsSameSession(before.b, p, net);
    var last := Staged(CopyIn(p, net.ins), net.ins);
    LastAnswered(before.fed, answers, net.outs, g, last);
    InferTakesAnswer(p, net.ins, net.outs, g, answers[|before.fed|]);
  }

  /** A session the engine answers goes as the session that runs the graph itself. */
  lemma {:induction false} ReplayIsRun(b: Bindings, net: Net, g: Graph, ops: seq<Operation>, answers: seq<Region>)
    requires Session(b, net) && Answered(Replay(b, net, g, ops, answers).fed, answers, net.outs, g)
    ensures Replay(b, net, g, ops, answers).b == Run(b, net, g, ops).0
    ensures Replay(b, net, g, ops, answers).seen == Run(b, net, g, ops).1
  {
    if ops != [] {
      var before, op := Replay(b, net, g, ops[..|ops| - 1], answers), ops[|ops| - 1];
      if op.Infer? {
        ExchangeIsInference(before, net, g, op.given, answers);
      }
      ReplayIsRun(b, net, g, ops[..|ops| - 1], answers);
    }
  }

  /** The traces agree as far as the first `n` answers tell. */
  predicate Agree(now: Trace, later: Trace, n: nat) {
    && |later.fed| == |now.fed|
    && (forall i | 0 <= i < |now.fed| && i <= n :: later.fed[i] == now.fed[i])
    && (|now.fed| <= n ==> later == now)
  }

  lemma AgreeExtends(now: Trace, later: Trace, now': Trace, later': Trace, a: Region, b: Region, n: nat)
    requires Agree(now, later, n) && now'.fed == now.fed + [a] && later'.fed == later.fed + [b]
    requires |now.fed| == n ==> a == b
    requires |now.fed| < n ==> now' == later'
    ensures Agree(now', later', n)
  {
  }

  lemma SameExchange(
      before: Trace, net: Net, given: string -> Bytes, answers: seq<Region>, longer: seq<Region>)
    requires Session(before.b, net) && answers <= longer && |before.fed| < |answers|
    ensures Exchange(before, net, given, longer) == Exchange(before, net, given, answers)
  {
    assert longer[|before.fed|] == answers[|before.fed|];
  }

  lemma ExchangesAgree(
      now: Trace, later: Trace, net: Net, given: string -> Bytes, answers: seq<Region>, longer: seq<Region>)
    requires Session(now.b, net) && Session(later.b, net) && answers <= longer && Agree(now, later, |answers|)
    ensures Agree(Exchange(now, net, given, answers), Exchange(later, net, given, longer), |answers|)
  {
    if |now.fed| < |answers| {
      SameExchange(now, net, given, answers, longer);
    }
    AgreeExtends(now, later, Exchange(now, net, given, answers), Exchange(later, net, given, longer),
                 Handed(now.b, net, given), Handed(later.b, net, given), |answers|);
  }

  /** What a request hands over next depends only on answers it already has, so a host thread can do it. */
  lemma {:induction false} FedBeforeAnswered(
      b: Bindings, net: Net, g: Graph, ops: seq<Operation>, answers: seq<Region>, longer: seq<Region>)
    requires Session(b, net) && answers <= longer
    ensures Agree(Replay(b, net, g, ops, answers), Replay(b, net, g, ops, longer), |answers|)
  {
    if ops != [] {
      var before, op := ops[..|ops| - 1], ops[|ops| - 1];
      FedBeforeAnswered(b, net, g, before, answers, longer);
      if op.Infer? {
        ExchangesAgree(Replay(b, net, g, before, answers), Replay(b, net, g, before, longer), net, op.given,
                       answers, longer);
      }
    }
  }

  /** The whole engine, seen by one of its callers: any number of requests share the three queues, in every
      interleaving, and each that writes as input what it has staged sees its own fold -- from its own first state,
      through its own inferences, assignments and resets, and nothing of anybody else's. */
  lemma EveryRequestSeesItsOwnFold(
      s: System<Region>, labels: seq<Label<Region>>, t: System<Region>, r: nat,
      b: Bindings, net: Net, g: Graph, ops: seq<Operation>)
    requires IsStart(s) && IsRun(s, labels, t, OnRegions(net.outs, g)) && r < |t.requests| && Session(b, net)
    requires var fed := Replay(b, net, g, ops, t.requests[r].outputs).fed;
             |fed| <= |t.requests[r].outputs| && fed <= t.requests[r].inputs
    ensures var trace := Replay(b, net, g, ops, t.requests[r].outputs);
            && trace.seen == Fold(net, g, StateOf(b, net), ops).1
            && StateOf(trace.b, net) == Fold(net, g, StateOf(b, net), ops).0
  {
    AnswersMatchInputs(s, labels, t, OnRegions(net.outs, g), r);
    var q := t.requests[r];
    var fed := Replay(b, net, g, ops, q.outputs).fed;
    assert forall k | 0 <= k < |fed| :: q.outputs[k] == OnRegions(net.outs, g)(fed[k]);
    ReplayIsRun(b, net, g, ops, q.outputs);
    RequestIsAFold(b, net, g, ops);
  }

  // ---- sessions can be carried through ----

  /** What a request has written so far is what its session hands over. */
  predicate Follows(q: Request<Region>, b: Bindings, net: Net, g: Graph, ops: seq<Operation>)
    requires Session(b, net)
  {
    |q.inputs| <= |q.outputs| + 1 && q.inputs <= Replay(b, net, g, ops, q.outputs).fed
  }

  /** The request has written all its session hands over, and has all answers. */
  predicate Completed(q: Request<Region>, b: Bindings, net: Net, g: Graph, ops: seq<Operation>)
    requires Session(b, net)
  {
    q.inputs == Replay(b, net, g, ops, q.outputs).fed && |q.outputs| == |q.inputs|
  }

  /** The session is over, and state and outputs have been those of the fold. */
  predicate SawItsFold(q: Request<Region>, b: Bindings, net: Net, g: Graph, ops: seq<Operation>)
    requires Session(b, net)
  {
    && Completed(q, b, net, g, ops)
    && var trace, fold := Replay(b, net, g, ops, q.outputs), Fold(net, g, StateOf(b, net), ops);
       trace.seen == fold.1 && StateOf(trace.b, net) == fold.0
  }

  /** What the session hands over next. */
  function NextInput(q: Request<Region>, b: Bindings, net: Net, g: Graph, ops: seq<Operation>): Region
    requires Session(b, net)
  {
    var fed := Replay(b, net, g, ops, q.outputs).fed;
    if |q.inputs| < |fed| then fed[|q.inputs|] else q.mem.hostInput
  }

  lemma GoesOn(inputs: seq<Region>, n: nat, fed: seq<Region>, later: seq<Region>)
    requires inputs <= fed && |inputs| <= n + 1 && |later| == |fed|
    requires forall i | 0 <= i < |fed| && i <= n :: later[i] == fed[i]
    ensures inputs <= later
    ensures |inputs| <= n && |inputs| < |fed| ==> inputs + [fed[|inputs|]] <= later
  {
    forall i | 0 <= i < |inputs| ensures inputs[i] == later[i] {
    }
  }

  /** A round, or the rest of one, with the session's next input goes on following the session. */
  lemma RoundFollows(
      q: Request<Region>, after: Request<Region>, b: Bindings, net: Net, g: Graph, ops: seq<Operation>)
    requires Session(b, net) && Follows(q, b, net, g, ops) && q.outputs <= after.outputs
    requires q.pc == 0 ==> |q.inputs| == |q.outputs| && !Completed(q, b, net, g, ops)
    requires after.inputs == if q.pc == 0 then q.inputs + [NextInput(q, b, net, g, ops)] else q.inputs
    requires |after.inputs| == |after.outputs|
    ensures Follows(after, b, net, g, ops)
    ensures |Replay(b, net, g, ops, after.outputs).fed| == |Replay(b, net, g, ops, q.outputs).fed|
  {
    FedBeforeAnswered(b, net, g, ops, q.outputs, after.outputs);
    GoesOn(q.inputs, |q.outputs|, Replay(b, net, g, ops, q.outputs).fed, Replay(b, net, g, ops, after.outputs).fed);
  }

  lemma NextRound(
      s: System<Region>, r: nat, b: Bindings, net: Net, g: Graph, ops: seq<Operation>)
      returns (labels: seq<Label<Region>>, t: System<Region>)
    requires Inv(s, OnRegions(net.outs, g)) && r < |s.requests|
    requires Session(b, net) && Follows(s.requests[r], b, net, g, ops)
    requires !Completed(s.requests[r], b, net, g, ops)
    ensures IsRun(s, labels, t, OnRegions(net.outs, g)) && Inv(t, OnRegions(net.outs, g))
    ensures |t.requests| == |s.requests| && Follows(t.requests[r], b, net, g, ops)
    ensures forall o: nat | o < |s.requests| && o != r :: SameThread(s.requests[o], t.requests[o])
    ensures |Replay(b, net, g, ops, t.requests[r].outputs).fed| == |Replay(b, net, g, ops, s.requests[r].outputs).fed|
    ensures t.requests[r].pc == 0
    ensures |t.requests[r].inputs| == |s.requests[r].inputs| + if s.requests[r].pc == 0 then 1 else 0
  {
    PcInRound(s.requests[r], OnRegions(net.outs, g));
    labels, t := RoundRun(s, OnRegions(net.outs, g), r, NextInput(s.requests[r], b, net, g, ops));
    RoundFollows(s.requests[r], t.requests[r], b, net, g, ops);
  }

  lemma {:induction false} SessionRun(
      s: System<Region>, r: nat, b: Bindings, net: Net, g: Graph, ops: seq<Operation>)
      returns (labels: seq<Label<Region>>, t: System<Region>)
    requires Inv(s, OnRegions(net.outs, g)) && r < |s.requests|
    requires Session(b, net) && Follows(s.requests[r], b, net, g, ops)
    ensures IsRun(s, labels, t, OnRegions(net.outs, g)) && Inv(t, OnRegions(net.outs, g))
    ensures |t.requests| == |s.requests| && Completed(t.requests[r], b, net, g, ops)
    ensures forall o: nat | o < |s.requests| && o != r :: SameThread(s.requests[o], t.requests[o])
    decreases |Replay(b, net, g, ops, s.requests[r].outputs).fed| - |s.requests[r].inputs|, s.requests[r].pc
  {
    if Completed(s.requests[r], b, net, g, ops) {
      labels, t := [], s;
    } else {
      labels, t := NextRound(s, r, b, net, g, ops);
      var rest, u := SessionRun(t, r, b, net, g, ops);
      RunsCompose(s, labels, t, rest, u, OnRegions(net.outs, g));
      labels, t := labels + rest, u;
    }
  }

  lemma SameThreadSameSession(
      q: Request<Region>, after: Request<Region>, b: Bindings, net: Net, g: Graph, ops: seq<Operation>)
    requires Session(b, net) && SameThread(q, after)
    ensures Follows(after, b, net, g, ops) <==> Follows(q, b, net, g, ops)
    ensures Completed(after, b, net, g, ops) <==> Completed(q, b, net, g, ops)
  {
  }

  /** A session for each request of an executor. */
  predicate Sessions(bs: seq<Bindings>, net: Net, n: nat) {
    |bs| == n && forall r | 0 <= r < n :: Session(bs[r], net)
  }

  /** The first `n` requests have completed their sessions, and the others follow theirs. */
  predicate CompletedUpTo(
    s: System<Region>, n: nat, bs: seq<Bindings>, net: Net, g: Graph, opss: seq<seq<Operation>>)
    requires n <= |s.requests| == |opss| && Sessions(bs, net, |s.requests|)
  {
    forall r: nat | r < |s.requests| ::
      if r < n then Completed(s.requests[r], bs[r], net, g, opss[r]) else Follows(s.requests[r], bs[r], net, g, opss[r])
  }

  lemma OthersStay(
      s: System<Region>, t: System<Region>, n: nat, bs: seq<Bindings>, net: Net, g: Graph, opss: seq<seq<Operation>>)
    requires n < |s.requests| == |opss| && |t.requests| == |s.requests| && Sessions(bs, net, |s.requests|)
    requires CompletedUpTo(s, n, bs, net, g, opss) && Completed(t.requests[n], bs[n], net, g, opss[n])
    requires forall o: nat | o < |s.requests| && o != n :: SameThread(s.requests[o], t.requests[o])
    ensures CompletedUpTo(t, n + 1, bs, net, g, opss)
  {
    forall r: nat | r < |s.requests| && r != n
      ensures Follows(t.requests[r], bs[r], net, g, opss[r]) <==> Follows(s.requests[r], bs[r], net, g, opss[r])
      ensures Completed(t.requests[r], bs[r], net, g, opss[r]) <==> Completed(s.requests[r], bs[r], net, g, opss[r])
    {
      SameThreadSameSession(s.requests[r], t.requests[r], bs[r], net, g, opss[r]);
    }
  }

  lemma OneMoreSession(
      s: System<Region>, n: nat, bs: seq<Bindings>, net: Net, g: Graph, opss: seq<seq<Operation>>)
      returns (labels: seq<Label<Region>>, t: System<Region>)
    requires Inv(s, OnRegions(net.outs, g)) && n < |s.requests| == |opss| && Sessions(bs, net, |s.requests|)
    requires CompletedUpTo(s, n, bs, net, g, opss)
    ensures IsRun(s, labels, t, OnRegions(net.outs, g))
    ensures |t.requests| == |s.requests| && Inv(t, OnRegions(net.outs, g))
    ensures CompletedUpTo(t, n + 1, bs, net, g, opss)
  {
    labels, t := SessionRun(s, n, bs[n], net, g, opss[n]);
    OthersStay(s, t, n, bs, net, g, opss);
  }

  lemma {:induction false} SessionsRun(
      s: System<Region>, n: nat, bs: seq<Bindings>, net: Net, g: Graph, opss: seq<seq<Operation>>)
      returns (labels: seq<Label<Region>>, t: System<Region>)
    requires Inv(s, OnRegions(net.outs, g)) && n <= |s.requests| == |opss| && Sessions(bs, net, |s.requests|)
    requires CompletedUpTo(s, n, bs, net, g, opss)
    ensures IsRun(s, labels, t, OnRegions(net.outs, g)) && |t.requests| == |s.requests|
    ensures CompletedUpTo(t, |t.requests|, bs, net, g, opss)
    decreases |s.requests| - n
  {
    if n == |s.requests| {
      labels, t := [], s;
    } else {
      labels, t := OneMoreSession(s, n, bs, net, g, opss);
      var rest, u := SessionsRun(t, n + 1, bs, net, g, opss);
      RunsCompose(s, labels, t, rest, u, OnRegions(net.outs, g));
      labels, t := labels + rest, u;
    }
  }

  /** Whatever the requests of an executor have done, in whatever interleaving: as long as each has followed its
      session, all sessions can be carried through, and then each has seen its fold. */
  lemma EverySessionCanFinish(
      s: System<Region>, before: seq<Label<Region>>, t: System<Region>, bs: seq<Bindings>, net: Net, g: Graph,
      opss: seq<seq<Operation>>)
    requires IsStart(s) && IsRun(s, before, t, OnRegions(net.outs, g))
    requires |opss| == |t.requests| && Sessions(bs, net, |t.requests|)
    requires forall r: nat | r < |t.requests| :: Follows(t.requests[r], bs[r], net, g, opss[r])
    ensures exists labels, u :: IsRun(t, labels, u, OnRegions(net.outs, g)) && |u.requests| == |t.requests| &&
              forall r: nat | r < |t.requests| :: SawItsFold(u.requests[r], bs[r], net, g, opss[r])
  {
    StartInv(s, OnRegions(net.outs, g));
    RunKeepsInv(s, before, t, OnRegions(net.outs, g));
    var labels, u := SessionsRun(t, 0, bs, net, g, opss);
    RunsCompose(s, before, t, labels, u, OnRegions(net.outs, g));
    forall r: nat | r < |t.requests| ensures SawItsFold(u.requests[r], bs[r], net, g, opss[r]) {
      assert Completed(u.requests[r], bs[r], net, g, opss[r]);
      EveryRequestSeesItsOwnFold(s, before + labels, u, r, bs[r], net, g, opss[r]);
    }
  }
}
