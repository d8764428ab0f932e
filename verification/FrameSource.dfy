/** A source that produces a frame at every tick, and the accounting of the frames a consumer missed. */
module FrameSource {
  import opened Wrappers

  /** Time is in microseconds since the epoch of the clock. */
  type Time = nat

  /** `NOT_STARTED` stands for "no frame asked for yet". */
  const NOT_STARTED: int := -1

  /** The fields of a source. */
  datatype Source = Source(nextTick: int, seqId: nat)

  /** One call: the clock when the source is first used, and the clock when the call looks at it. */
  datatype Call = Call(first: Time, now: Time)

  /** A frame handed out, and how long the caller was made to wait for it, if at all. */
  datatype Delivery = Delivery(seqId: nat, wait: Option<int>)

  function Start(latency: nat, s: Source, c: Call): Source {
    if s.nextTick == NOT_STARTED then s.(nextTick := c.first + latency) else s
  }

  /** What a pull does to a source, and what it hands out. */
  function Deliver(latency: nat, drop: bool, before: Source, c: Call): (Source, Delivery) {
    var s := Start(latency, before, c);
    if c.now < s.nextTick then
      (Source(s.nextTick + latency, s.seqId + 1), Delivery(s.seqId, Some(s.nextTick - c.now)))
    else if latency == 0 then
      (Source(s.nextTick, s.seqId + 1), Delivery(s.seqId, None))
    else
      var frames := (c.now - s.nextTick) / latency;
      var tick := s.nextTick + frames * latency;
      if drop then
        (Source(tick + latency + latency, s.seqId + frames + 2),
         Delivery(s.seqId + frames + 1, Some(tick + latency - c.now)))
      else
        (Source(tick + latency, s.seqId + 1), Delivery(s.seqId, None))
  }

  class DummySource {
    const latency: nat
    var dropFrames: bool
    var nextTick: int
    var seqId: nat

    function State(): Source
      reads this
    {
      Source(nextTick, seqId)
    }

    constructor (latency: nat)
      ensures this.latency == latency && !dropFrames && State() == Source(NOT_STARTED, 0)
    {
      this.latency, dropFrames, nextTick, seqId := latency, false, NOT_STARTED, 0;
    }

    method SetDropFrames(drop: bool)
      modifies this`dropFrames
      ensures dropFrames == drop
    {
      dropFrames := drop;
    }

    method Pull(c: Call) returns (frame: Delivery)
      modifies this`nextTick, this`seqId
      ensures (State(), frame) == Deliver(latency, dropFrames, old(State()), c)
    {
      if nextTick == NOT_STARTED {
        nextTick := c.first + latency;
      }
      var wait: Option<int> := None;
      if c.now < nextTick {
        wait := Some(nextTick - c.now);
      } else if latency != 0 {
        var frames := (c.now - nextTick) / latency;
        nextTick := nextTick + frames * latency;
        if dropFrames {
          nextTick := nextTick + latency;
          wait := Some(nextTick - c.now);
          seqId := seqId + frames + 1;
        }
      }
      frame := Delivery(seqId, wait);
      seqId := seqId + 1;
      nextTick := nextTick + latency;
    }
  }

  // ---- the ticks ----

  /** When frame `k` is produced, for a source whose frame 0 is produced at `t0`. */
  function Tick(t0: nat, latency: nat, k: nat): (t: nat)
    ensures t0 <= t
  {
    t0 + k * latency
  }

  lemma TickStep(t0: nat, latency: nat, k: nat, n: nat)
    ensures Tick(t0, latency, k + n) == Tick(t0, latency, k) + n * latency
  {
  }

  lemma TicksInOrder(t0: nat, latency: nat, j: nat, k: nat)
    requires j <= k
    ensures Tick(t0, latency, j) <= Tick(t0, latency, k)
  {
    TickStep(t0, latency, j, k - j);
  }

  /** The next tick of the source is that of the frame it will hand out next. */
  predicate OnTime(t0: nat, latency: nat, s: Source) {
    s.nextTick == Tick(t0, latency, s.seqId)
  }

  /** The next tick is that of some frame that has not been handed out. */
  ghost predicate OnLattice(t0: nat, latency: nat, s: Source) {
    exists k: nat :: s.seqId <= k && s.nextTick == Tick(t0, latency, k)
  }

  lemma Elapsed(now: int, tick: int, latency: nat)
    requires tick <= now && 0 < latency
    ensures var frames := (now - tick) / latency;
            0 <= frames && tick + frames * latency <= now < tick + frames * latency + latency
  {
  }

  /** With dropping on, a pull hands out the first frame, not handed out or dropped before, that is produced after
      the call, and waits exactly until it is. */
  lemma DroppingDeliversNextTick(t0: nat, latency: nat, s: Source, c: Call)
    requires 0 < latency && OnTime(t0, latency, s)
    ensures var (s', frame) := Deliver(latency, true, s, c);
            && OnTime(t0, latency, s') && s'.seqId == frame.seqId + 1 && s.seqId <= frame.seqId
            && c.now < Tick(t0, latency, frame.seqId)
            && frame.wait == Some(Tick(t0, latency, frame.seqId) - c.now)
            && (forall j: nat | s.seqId <= j < frame.seqId :: Tick(t0, latency, j) <= c.now)
  {
    var (s', frame) := Deliver(latency, true, s, c);
    if s.nextTick <= c.now {
      Elapsed(c.now, s.nextTick, latency);
      var frames := (c.now - s.nextTick) / latency;
      TickStep(t0, latency, s.seqId, frames);
      TickStep(t0, latency, s.seqId, frames + 1);
      TickStep(t0, latency, s.seqId, frames + 2);
      PeriodsAfter(frames, latency);
      forall j: nat | s.seqId <= j < frame.seqId ensures Tick(t0, latency, j) <= c.now {
        TicksInOrder(t0, latency, j, s.seqId + frames);
      }
    } else {
      TickStep(t0, latency, s.seqId, 1);
    }
  }

  lemma PeriodsAfter(frames: nat, latency: nat)
    ensures (frames + 1) * latency == frames * latency + latency
    ensures (frames + 2) * latency == frames * latency + latency + latency
  {
  }

  /** Late for the next frame, the wait is for part of one period; early but after the previous frame was handed
      out, it is too. */
  lemma WaitsAreWithinOnePeriod(t0: nat, latency: nat, s: Source, c: Call)
    requires 0 < latency && OnTime(t0, latency, s) && s.nextTick <= c.now + latency
    ensures var frame := Deliver(latency, true, s, c).1;
            frame.wait.Some? && 0 < frame.wait.value <= latency
  {
    if s.nextTick <= c.now {
      Elapsed(c.now, s.nextTick, latency);
    }
  }

  /** Without dropping, frames come in order and none is skipped; a call that is late gets its frame at once, and
      the next tick is then the first one after the call. */
  lemma KeepingDeliversEveryFrame(latency: nat, s: Source, c: Call)
    requires 0 < latency && s.nextTick != NOT_STARTED
    ensures var (s', frame) := Deliver(latency, false, s, c);
            && s'.seqId == frame.seqId + 1 && frame.seqId == s.seqId
            && c.now < s'.nextTick
            && (frame.wait == if s.nextTick <= c.now then None else Some(s.nextTick - c.now))
            && (s.nextTick <= c.now ==> s'.nextTick <= c.now + latency)
            && (exists k: nat :: s'.nextTick == s.nextTick + Periods(k, latency))
            && (c.now < s.nextTick ==> s'.nextTick == s.nextTick + latency)
  {
    if s.nextTick <= c.now {
      Elapsed(c.now, s.nextTick, latency);
      PeriodsAfter((c.now - s.nextTick) / latency, latency);
      assert Deliver(latency, false, s, c).0.nextTick
             == s.nextTick + Periods((c.now - s.nextTick) / latency + 1, latency);
    } else {
      assert s.nextTick + latency == s.nextTick + Periods(1, latency);
    }
  }

  function Periods(k: nat, latency: nat): nat { k * latency }

  /** Dropping or not, the next tick stays that of some frame. */
  lemma TicksStayOnLattice(t0: nat, latency: nat, drop: bool, s: Source, c: Call)
    requires OnLattice(t0, latency, s)
    ensures OnLattice(t0, latency, Deliver(latency, drop, s, c).0)
  {
    var s' := Deliver(latency, drop, s, c).0;
    var k: nat :| s.seqId <= k && s.nextTick == Tick(t0, latency, k);
    if c.now < s.nextTick || latency == 0 {
      TickStep(t0, latency, k, 1);
      assert s'.nextTick == Tick(t0, latency, k + 1);
    } else {
      Elapsed(c.now, s.nextTick, latency);
      var frames := (c.now - s.nextTick) / latency;
      PeriodsAfter(frames, latency);
      TickStep(t0, latency, k, frames + 1);
      TickStep(t0, latency, k, frames + 2);
      assert s'.nextTick == Tick(t0, latency, k + (frames + if drop then 2 else 1));
    }
  }

  /** A source of latency zero never moves its tick: every frame is there at once when the clock does not go back. */
  lemma NoLatencyNoWait(drop: bool, s: Source, c: Call)
    requires s.nextTick != NOT_STARTED ==> s.nextTick <= c.now
    requires c.first <= c.now
    ensures var (s', frame) := Deliver(0, drop, s, c);
            frame == Delivery(s.seqId, None) && s'.nextTick <= c.now
  {
  }

  // ---- whole runs ----

  /** The frames handed out by a run of calls, dropping switched on or off before any of them. */
  function Run(latency: nat, s: Source, calls: seq<(bool, Call)>): (ids: seq<nat>)
    ensures |ids| == |calls|
    decreases calls
  {
    if calls == [] then [] else
    var (s', frame) := Deliver(latency, calls[0].0, s, calls[0].1);
    [frame.seqId] + Run(latency, s', calls[1..])
  }

  predicate Increasing(ids: seq<nat>) {
    forall i | 0 < i < |ids| :: ids[i - 1] < ids[i]
  }

  /** However the clock behaves and however dropping is switched, no frame is handed out twice or out of order. */
  lemma {:induction false} FramesComeInOrder(latency: nat, s: Source, calls: seq<(bool, Call)>)
    ensures Increasing(Run(latency, s, calls))
    ensures calls != [] ==> s.seqId <= Run(latency, s, calls)[0]
    decreases calls
  {
    if calls != [] {
      var (s', frame) := Deliver(latency, calls[0].0, s, calls[0].1);
      assert s.seqId <= frame.seqId < s'.seqId;
      FramesComeInOrder(latency, s', calls[1..]);
      var rest := Run(latency, s', calls[1..]);
      assert Run(latency, s, calls) == [frame.seqId] + rest;
    }
  }

  function Keeping(calls: seq<Call>): seq<(bool, Call)> {
    seq(|calls|, i requires 0 <= i < |calls| => (false, calls[i]))
  }

  /** Without dropping the frames are all of them, one after the other. */
  lemma {:induction false} KeepingSkipsNothing(latency: nat, s: Source, calls: seq<Call>)
    ensures Run(latency, s, Keeping(calls)) == seq(|calls|, i requires 0 <= i < |calls| => s.seqId + i)
    decreases calls
  {
    if calls != [] {
      var (s', frame) := Deliver(latency, false, s, calls[0]);
      assert Keeping(calls)[0] == (false, calls[0]) && Keeping(calls)[1..] == Keeping(calls[1..]);
      KeepingSkipsNothing(latency, s', calls[1..]);
    }
  }

  function AllDropping(calls: seq<Call>): seq<(bool, Call)> {
    seq(|calls|, i requires 0 <= i < |calls| => (true, calls[i]))
  }

  /** With dropping on from the start, frame `k` is handed out by a call made before the tick of `k`, and not
      before the tick of the one before it unless that one went to the previous call. */
  lemma {:induction false} DroppingStaysOnTime(t0: nat, latency: nat, s: Source, calls: seq<Call>, n: nat)
    requires 0 < latency && OnTime(t0, latency, s) && n < |calls|
    ensures var ids := Run(latency, s, AllDropping(calls));
            var least := if n == 0 then s.seqId else ids[n - 1] + 1;
            && least <= ids[n] && calls[n].now < Tick(t0, latency, ids[n])
            && (forall j: nat | least <= j < ids[n] :: Tick(t0, latency, j) <= calls[n].now)
    decreases calls
  {
    var (s', frame) := Deliver(latency, true, s, calls[0]);
    assert AllDropping(calls)[0] == (true, calls[0]) && AllDropping(calls)[1..] == AllDropping(calls[1..]);
    DroppingDeliversNextTick(t0, latency, s, calls[0]);
    if n > 0 {
      DroppingStaysOnTime(t0, latency, s', calls[1..], n - 1);
    }
  }

  /** A source that has not started is on time from its first call on. */
  lemma FirstPullStartsOnTime(latency: nat, drop: bool, c: Call)
    ensures OnTime(c.first + latency, latency, Start(latency, Source(NOT_STARTED, 0), c))
    ensures Deliver(latency, drop, Source(NOT_STARTED, 0), c) ==
            Deliver(latency, drop, Start(latency, Source(NOT_STARTED, 0), c), c)
  {
  }

  /** The waits of a dropping run. */
  function Waits(latency: nat, s: Source, calls: seq<Call>): (waits: seq<Option<int>>)
    ensures |waits| == |calls|
    decreases calls
  {
    if calls == [] then [] else
    var (s', frame) := Deliver(latency, true, s, calls[0]);
    [frame.wait] + Waits(latency, s', calls[1..])
  }

  /** The clock does not go back: a call comes no earlier than the one before it, plus what that one waited. */
  predicate ClockAdvances(calls: seq<Call>, waits: seq<Option<int>>)
    requires |waits| == |calls|
  {
    forall n: nat | n + 1 < |calls| && waits[n].Some? :: calls[n].now + waits[n].value <= calls[n + 1].now
  }

  /** In a run with dropping, on any clock that does not go back, every call waits, and for at most one period. */
  lemma {:induction false} EveryWaitIsWithinOnePeriod(t0: nat, latency: nat, s: Source, calls: seq<Call>, n: nat)
    requires 0 < latency && OnTime(t0, latency, s) && n < |calls| && s.nextTick <= calls[0].now + latency
    requires ClockAdvances(calls, Waits(latency, s, calls))
    ensures var wait := Waits(latency, s, calls)[n]; wait.Some? && 0 < wait.value <= latency
    decreases calls
  {
    var (s', frame) := Deliver(latency, true, s, calls[0]);
    WaitsAreWithinOnePeriod(t0, latency, s, calls[0]);
    DroppingDeliversNextTick(t0, latency, s, calls[0]);
    var waits, rest := Waits(latency, s, calls), Waits(latency, s', calls[1..]);
    assert waits == [frame.wait] + rest;
    if n > 0 {
      TickStep(t0, latency, frame.seqId, 1);
      assert s'.nextTick <= calls[0].now + frame.wait.value + latency;
      assert calls[0].now + waits[0].value <= calls[1].now;
      assert forall k: nat | k + 1 < |calls[1..]| && rest[k].Some? ::
          calls[k + 1].now + waits[k + 1].value <= calls[k + 2].now;
      EveryWaitIsWithinOnePeriod(t0, latency, s', calls[1..], n - 1);
    }
  }

  /** So from the first pull on, when it comes no earlier than the clock was read to start the source. */
  lemma EveryWaitFromTheStart(latency: nat, calls: seq<Call>, n: nat)
    requires 0 < latency && n < |calls| && calls[0].first <= calls[0].now
    requires ClockAdvances(calls, Waits(latency, Source(NOT_STARTED, 0), calls))
    ensures var wait := Waits(latency, Source(NOT_STARTED, 0), calls)[n]; wait.Some? && 0 < wait.value <= latency
  {
    var c, idle := calls[0], Source(NOT_STARTED, 0);
    var s := Start(latency, idle, c);
    FirstPullStartsOnTime(latency, true, c);
    assert Waits(latency, s, calls) == Waits(latency, idle, calls);
    EveryWaitIsWithinOnePeriod(c.first + latency, latency, s, calls, n);
  }

  // ---- the metrics ----

  datatype MetricsError = NoLatencies | NoFrames

  datatype FrameMetrics = FrameMetrics(dropped: int, totalFrames: int)

  /** Delivered, dropped, and the frames before the first make up the total, whatever the frame numbers are. */
  method CalculateMetrics(latencies: seq<int>, seqIds: seq<int>) returns (r: Result<FrameMetrics, MetricsError>)
    ensures r.Err? <==> latencies == [] || seqIds == []
    ensures r.Err? ==> r.error == if latencies == [] then NoLatencies else NoFrames
    ensures r.Ok? ==> r.value.totalFrames == seqIds[|seqIds| - 1] + 1
    ensures r.Ok? ==> |seqIds| + r.value.dropped + seqIds[0] == r.value.totalFrames
  {
    if latencies == [] {
      return Err(NoLatencies);
    }
    if seqIds == [] {
      return Err(NoFrames);
    }
    var dropped := 0;
    var previous := seqIds[0];
    for i := 1 to |seqIds|
      invariant previous == seqIds[i - 1] && i + dropped + seqIds[0] == previous + 1
    {
      dropped := dropped + seqIds[i] - previous - 1;
      previous := seqIds[i];
    }
    return Ok(FrameMetrics(dropped, seqIds[|seqIds| - 1] + 1));
  }

  function Missing(ids: seq<nat>): set<nat>
    requires ids != []
  {
    set k: nat | ids[0] <= k < ids[|ids| - 1] && k !in ids
  }

  function Between(low: nat, high: nat): (between: set<nat>)
    requires low < high
    ensures forall k: nat :: k in between <==> low < k < high
    ensures |between| == high - low - 1
  {
    if low + 1 == high then {} else Between(low, high - 1) + {high - 1}
  }

  lemma {:induction false} IncreasingBounds(ids: seq<nat>, i: nat)
    requires Increasing(ids) && i < |ids|
    ensures ids[0] <= ids[i] <= ids[|ids| - 1]
    decreases |ids|
  {
    if |ids| > 1 {
      var before := ids[..|ids| - 1];
      assert forall j | 0 <= j < |before| :: before[j] == ids[j];
      IncreasingBounds(before, if i < |before| then i else i - 1);
    }
  }

  /** For frames handed out in order, the number called dropped is that of the frames in between that were not
      handed out. */
  lemma {:induction false} DroppedCountsMissing(ids: seq<nat>)
    requires ids != [] && Increasing(ids)
    ensures |ids| + |Missing(ids)| + ids[0] == ids[|ids| - 1] + 1
  {
    if |ids| == 1 {
      assert Missing(ids) == {};
    } else {
      var before, last := ids[..|ids| - 1], ids[|ids| - 1];
      var previous := before[|before| - 1];
      assert ids == before + [last] && previous < last;
      assert forall j | 0 <= j < |before| :: before[j] == ids[j];
      DroppedCountsMissing(before);
      MissingNext(before, last);
      assert Missing(before) !! Between(previous, last);
    }
  }

  lemma MissingNext(before: seq<nat>, last: nat)
    requires before != [] && Increasing(before) && before[|before| - 1] < last
    ensures Missing(before + [last]) == Missing(before) + Between(before[|before| - 1], last)
  {
    var ids, previous := before + [last], before[|before| - 1];
    forall k: nat ensures k in Missing(ids) <==> k in Missing(before) || k in Between(previous, last) {
      assert k in ids <==> k in before || k == last;
      if k in before {
        var i: nat :| i < |before| && before[i] == k;
        IncreasingBounds(before, i);
      }
      IncreasingBounds(before, 0);
    }
  }
}
