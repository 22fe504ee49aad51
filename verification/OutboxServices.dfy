/** The publisher's batch loop and the dead-letter handlers, over one set of tables and queues. */
module OutboxServices {
  import opened OutboxPipelines

  const BATCH_SIZE: nat := 20

  // ---------------------------------------------------------------------
  // One batch as pipeline steps
  // ---------------------------------------------------------------------

  /** The routing table, in its own order. */
  function QueuesOf(aggregate: Aggregate): seq<Queue> {
    match aggregate
    case Product => [SearchSync, Realtime]
    case Category => [SearchSync]
    case SellerOrder => [SellerOrderProcessing, Realtime]
    case Order => [Notifications, Realtime]
    case Refund => [Notifications, Realtime]
    case Dispute => [Notifications, Realtime]
    case Auction => [Notifications, Realtime]
    case SellerApplication => [Notifications]
    case Unrouted => []
  }

  lemma QueuesAreRoutes(aggregate: Aggregate, q: Queue)
    ensures q in QueuesOf(aggregate) <==> q in RoutesOf(aggregate)
  {}

  /** WHERE status = PENDING ORDER BY createdAt LIMIT limit; ids follow creation. */
  function PendingFrom(outbox: seq<Row>, from: nat, limit: nat): (ids: seq<nat>)
    requires from <= |outbox|
    ensures |ids| <= limit && forall id | id in ids :: from <= id < |outbox| && !outbox[id].published
    decreases |outbox| - from
  {
    if from == |outbox| || limit == 0 then []
    else if outbox[from].published then PendingFrom(outbox, from + 1, limit)
    else [from] + PendingFrom(outbox, from + 1, limit - 1)
  }

  /** Which adds succeed this time. */
  type Reachable = (nat, Queue) -> bool

  function AddEach(s: Pipeline, e: nat, queues: seq<Queue>, up: Reachable): Pipeline
    decreases |queues|
  {
    if queues == [] then s
    else AddEach(if up(e, queues[0]) then Add(s, e, queues[0]) else s, e, queues[1..], up)
  }

  predicate AllUp(e: nat, queues: seq<Queue>, up: Reachable) {
    forall q | q in queues :: up(e, q)
  }

  function PublishOne(s: Pipeline, e: nat, up: Reachable): Pipeline {
    if e >= |s.outbox| then s
    else
      var queues := QueuesOf(s.outbox[e].aggregate);
      if queues == [] then Retry(s, e)
      else
        var handed := AddEach(Abandon(s, e), e, queues, up);
        if AllUp(e, queues, up) then Mark(handed, e) else Retry(handed, e)
  }

  function PublishEach(s: Pipeline, ids: seq<nat>, up: Reachable): Pipeline
    decreases |ids|
  {
    if ids == [] then s else PublishEach(PublishOne(s, ids[0], up), ids[1..], up)
  }

  lemma {:induction false} AddsAreSteps(
    s: Pipeline, e: nat, queues: seq<Queue>, up: Reachable) returns (steps: seq<Step>)
    ensures Run(s, steps) == AddEach(s, e, queues, up)
    decreases |queues|
  {
    hide Add;
    if queues == [] {
      steps := [];
    } else if up(e, queues[0]) {
      var rest := AddsAreSteps(Add(s, e, queues[0]), e, queues[1..], up);
      steps := [DoAdd(e, queues[0])] + rest;
      assert steps[1..] == rest;
    } else {
      steps := AddsAreSteps(s, e, queues[1..], up);
    }
  }

  lemma PublishOneIsSteps(s: Pipeline, e: nat, up: Reachable) returns (steps: seq<Step>)
    ensures Run(s, steps) == PublishOne(s, e, up)
  {
    hide Run, AddEach, Mark, Retry, Abandon;
    if e >= |s.outbox| {
      steps := [];
      RunNothing(s);
    } else if QueuesOf(s.outbox[e].aggregate) == [] {
      steps := [DoRetry(e)];
      RunOneStep(s, DoRetry(e));
    } else {
      var queues := QueuesOf(s.outbox[e].aggregate);
      var adds := AddsAreSteps(Abandon(s, e), e, queues, up);
      var last := if AllUp(e, queues, up) then DoMark(e) else DoRetry(e);
      steps := [DoAbandon(e)] + adds + [last];
      RunOneStep(s, DoAbandon(e));
      RunOn(s, [DoAbandon(e)], adds);
      RunOn(s, [DoAbandon(e)] + adds, [last]);
      RunOneStep(Run(Abandon(s, e), adds), last);
    }
  }

  /** A batch is a run of pipeline steps, so everything every run keeps holds of the publisher. */
  lemma {:induction false} BatchIsRun(s: Pipeline, ids: seq<nat>, up: Reachable) returns (steps: seq<Step>)
    ensures Run(s, steps) == PublishEach(s, ids, up)
    decreases |ids|
  {
    hide Run, PublishOne;
    if ids == [] {
      steps := [];
      RunNothing(s);
    } else {
      var first := PublishOneIsSteps(s, ids[0], up);
      var rest := BatchIsRun(PublishOne(s, ids[0], up), ids[1..], up);
      steps := first + rest;
      RunOn(s, first, rest);
    }
  }

  // ---------------------------------------------------------------------
  // When a row becomes published
  // ---------------------------------------------------------------------

  lemma {:induction false} AddEachAdds(s: Pipeline, e: nat, queues: seq<Queue>, up: Reachable)
    ensures var s' := AddEach(s, e, queues, up);
            && s'.outbox == s.outbox && s.added <= s'.added
            && (forall q | q in queues && up(e, q) && IsRouted(s, q, e) ::
                  (e, q) in s'.added && (q, Original(e)) in s'.jobs)
            && (forall x | x in s'.added && x !in s.added :: x.0 == e && up(e, x.1))
            && (forall k | k in s.jobs :: k in s'.jobs && s'.jobs[k] == s.jobs[k])
    decreases |queues|
  {
    hide RoutesOf;
    if queues != [] {
      AddEachAdds(if up(e, queues[0]) then Add(s, e, queues[0]) else s, e, queues[1..], up);
    }
  }

  /**
   A pending row is published exactly when it has a route and every add of this round succeeds; then each of its
   queues knows the event's job. No other row changes.
   */
  lemma PublishedIff(s: Pipeline, e: nat, up: Reachable)
    requires e < |s.outbox| && !s.outbox[e].published
    ensures var s' := PublishOne(s, e, up);
            var aggregate := s.outbox[e].aggregate;
            && |s'.outbox| == |s.outbox| && s'.outbox[e].aggregate == aggregate
            && (s'.outbox[e].published <==> aggregate != Unrouted && forall q | q in RoutesOf(aggregate) :: up(e, q))
            && (s'.outbox[e].published ==> forall q | q in RoutesOf(aggregate) :: (q, Original(e)) in s'.jobs)
            && (forall i | 0 <= i < |s.outbox| && i != e :: s'.outbox[i] == s.outbox[i])
  {
    var aggregate := s.outbox[e].aggregate;
    forall q: Queue
      ensures q in QueuesOf(aggregate) <==> q in RoutesOf(aggregate)
    {
      QueuesAreRoutes(aggregate, q);
    }
    assert QueuesOf(aggregate) == [] <==> aggregate == Unrouted;
    AddEachAdds(Abandon(s, e), e, QueuesOf(aggregate), up);
    hide QueuesOf, RoutesOf, AddEach;
  }

  // ---------------------------------------------------------------------
  // The services
  // ---------------------------------------------------------------------

  class OutboxService {
    var outbox: seq<Row>
    var jobs: map<JobKey, Job>
    var processed: set<(Queue, nat)>
    var dead: seq<DeadRow>
    var failures: map<JobKey, nat>
    var isPolling: bool
    ghost var added: set<(nat, Queue)>
    ghost var dropped: set<(Queue, nat)>

    ghost function State(): Pipeline
      reads this
    {
      Pipeline(outbox, added, jobs, processed, dead, failures, dropped)
    }

    constructor ()
      ensures State() == EMPTY && !isPolling
    {
      outbox, jobs, processed, dead, failures := [], map[], {}, [], map[];
      isPolling, added, dropped := false, {}, {};
    }

    /** The interval tick: at most one batch at a time in this process. */
    method Poll(up: Reachable)
      modifies this
      ensures isPolling == old(isPolling)
      ensures State() == if old(isPolling) then old(State())
                         else PublishEach(old(State()), PendingFrom(old(outbox), 0, BATCH_SIZE), up)
    {
      if isPolling {
        return;
      }
      isPolling := true;
      PublishBatch(up);
      isPolling := false;
    }

    method PublishBatch(up: Reachable)
      modifies this
      ensures State() == PublishEach(old(State()), PendingFrom(old(outbox), 0, BATCH_SIZE), up)
      ensures isPolling == old(isPolling)
    {
      hide PublishOne, PendingFrom;
      var events := PendingFrom(outbox, 0, BATCH_SIZE);
      for i := 0 to |events|
        invariant isPolling == old(isPolling)
        invariant |outbox| == |old(outbox)|
        invariant PublishEach(State(), events[i..], up) == PublishEach(old(State()), events, up)
      {
        assert events[i..][0] == events[i] && events[i..][1..] == events[i + 1..];
        assert events[i] in events;
        PublishEvent(events[i], up);
      }
      assert events[|events|..] == [];
    }

    method PublishEvent(id: nat, up: Reachable)
      requires id < |outbox|
      modifies this
      ensures State() == PublishOne(old(State()), id, up) && |outbox| == |old(outbox)|
      ensures isPolling == old(isPolling)
    {
      hide AddEach;
      var queues := QueuesOf(outbox[id].aggregate);
      if queues == [] {
        CountAttempt(id);
        return;
      }
      added := Release(State(), id);
      var succeeded := Enqueue(id, queues, up);
      assert outbox == old(outbox);
      AddEachAdds(Abandon(old(State()), id), id, queues, up);
      if succeeded {
        MarkPublished(id);
      } else {
        CountAttempt(id);
      }
    }

    /** Promise.all over the adds: each is attempted, one failure fails the round. */
    method Enqueue(id: nat, queues: seq<Queue>, up: Reachable) returns (succeeded: bool)
      requires id < |outbox| && queues == QueuesOf(outbox[id].aggregate)
      modifies `jobs, `added
      ensures State() == AddEach(old(State()), id, queues, up)
      ensures succeeded == AllUp(id, queues, up)
    {
      hide QueuesOf;
      succeeded := true;
      for i := 0 to |queues|
        invariant outbox == old(outbox)
        invariant AddEach(State(), id, queues[i..], up) == AddEach(old(State()), id, queues, up)
        invariant succeeded == AllUp(id, queues[..i], up)
      {
        assert queues[i..][0] == queues[i] && queues[i..][1..] == queues[i + 1..];
        assert queues[..i + 1] == queues[..i] + [queues[i]];
        if up(id, queues[i]) {
          QueuesAreRoutes(outbox[id].aggregate, queues[i]);
          var k := (queues[i], Original(id));
          if k !in jobs {
            jobs := jobs[k := Job(id, Live(0))];
          }
          added := added + {(id, queues[i])};
        } else {
          succeeded := false;
        }
      }
      assert queues[|queues|..] == [] && queues[..|queues|] == queues;
    }

    method MarkPublished(id: nat)
      requires id < |outbox| && outbox[id].aggregate != Unrouted && AllAdded(State(), id)
      modifies `outbox, `added
      ensures State() == Mark(old(State()), id) && |outbox| == |old(outbox)|
    {
      added := Release(State(), id);
      outbox := outbox[id := outbox[id].(published := true)];
    }

    method CountAttempt(id: nat)
      requires id < |outbox|
      modifies `outbox, `added
      ensures State() == Retry(old(State()), id) && |outbox| == |old(outbox)|
    {
      added := Release(State(), id);
      outbox := outbox[id := outbox[id].(attempts := outbox[id].attempts + 1)];
    }

    /** The listener's failed-event handler, run to its end. */
    method OnFailed(k: JobKey)
      requires k in failures
      modifies this
      ensures State() == HandleFailed(old(State()), k)
    {
      hide FindReplaying, IsRecorded;
      ghost var noticed := failures[k];
      failures := failures - {k};
      if k !in jobs {
        dropped := dropped + {(k.0, noticed)};
        return;
      }
      var job := jobs[k];
      if job.state != Failed {
        return;
      }
      var replaying := FindReplaying(dead, k.0, job.event);
      if replaying < |dead| {
        dead := dead[replaying := dead[replaying].(status := ReplayFailed)];
      } else {
        RecordDeadLetter(k, job.event);
      }
    }

    /** The unique index on (queue, job id) turns a duplicate insert into a no-op. */
    method RecordDeadLetter(k: JobKey, event: nat)
      modifies `dead
      ensures State() == Record(old(State()), k, event)
    {
      for i := 0 to |dead|
        invariant dead == old(dead)
        invariant forall j | 0 <= j < i :: dead[j].queue != k.0 || dead[j].jobId != k.1
      {
        if dead[i].queue == k.0 && dead[i].jobId == k.1 {
          return;
        }
      }
      dead := dead + [DeadRow(k.0, k.1, event, Pending)];
    }

    method OnCompleted(k: JobKey)
      modifies `dead
      ensures State() == HandleCompleted(old(State()), k)
    {
      hide FindReplaying;
      if k !in jobs || !jobs[k].state.Completed? {
        return;
      }
      var replaying := FindReplaying(dead, k.0, jobs[k].event);
      if replaying < |dead| {
        dead := dead[replaying := dead[replaying].(status := Replayed)];
      }
    }

    /** An operator's replay; false when there is no such row. */
    method ReplayDeadLetter(i: nat, stamp: int) returns (found: bool)
      modifies `dead, `jobs
      ensures State() == ReplayRow(old(State()), i, stamp, false)
      ensures found <==> i < |old(dead)|
    {
      if i >= |dead| {
        return false;
      }
      dead := dead[i := dead[i].(status := Replaying)];
      var k := (dead[i].queue, Replay(i, stamp));
      if k !in jobs {
        jobs := jobs[k := Job(dead[i].event, Live(0))];
      }
      found := true;
    }
  }
}
