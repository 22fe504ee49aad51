/** What replays, failures and failed publishes amount to for the row, the job and the consumer. */
module OutboxSteps {
  import opened OutboxPipelines
  import opened OutboxServices

  // ---------------------------------------------------------------------
  // Routes, seen from the consumers
  // ---------------------------------------------------------------------

  /** The search consumer hears of products and categories, order processing of seller orders, and so on. */
  lemma ConsumersHear(aggregate: Aggregate)
    ensures SearchSync in RoutesOf(aggregate) <==> aggregate in {Product, Category}
    ensures SellerOrderProcessing in RoutesOf(aggregate) <==> aggregate == SellerOrder
    ensures Notifications in RoutesOf(aggregate)
       <==> aggregate in {Order, Refund, Dispute, Auction, SellerApplication}
    ensures Realtime in RoutesOf(aggregate) <==> aggregate in {Product, SellerOrder, Order, Refund, Dispute, Auction}
    ensures RoutesOf(aggregate) == {} <==> aggregate == Unrouted
  {}

  /** A round that does not publish its row counts as an attempt on it, and one that does, does not. */
  lemma RoundsAreCounted(s: Pipeline, e: nat, up: Reachable)
    requires e < |s.outbox| && !s.outbox[e].published
    ensures var outbox := PublishOne(s, e, up).outbox;
            |outbox| == |s.outbox|
            && outbox[e].attempts == s.outbox[e].attempts + (if outbox[e].published then 0 else 1)
  {
    hide AddEach;
    AddEachAdds(Abandon(s, e), e, QueuesOf(s.outbox[e].aggregate), up);
    PublishedIff(s, e, up);
  }

  // ---------------------------------------------------------------------
  // Failing for good
  // ---------------------------------------------------------------------

  function FailTimes(s: Pipeline, k: JobKey, n: nat): Pipeline {
    if n == 0 then s else FailAttempt(FailTimes(s, k, n - 1), k)
  }

  /** A job stays alive through four failed attempts; the fifth fails it and raises the notice. */
  lemma {:induction false} FifthAttemptFails(s: Pipeline, k: JobKey, n: nat)
    requires k in s.jobs && s.jobs[k].state == Live(0) && k !in s.failures && n <= 5
    ensures var s' := FailTimes(s, k, n); var e := s.jobs[k].event;
            && k in s'.jobs && s'.jobs[k] == Job(e, if n < 5 then Live(n) else Failed)
            && s'.failures == (if n < 5 then s.failures else s.failures[k := e])
            && s' == s.(jobs := s.jobs[k := s'.jobs[k]], failures := s'.failures)
  {
    if n > 0 {
      FifthAttemptFails(s, k, n - 1);
      assert s.jobs[k := s.jobs[k]] == s.jobs;
    } else {
      assert s.jobs[k := s.jobs[k]] == s.jobs;
    }
  }

  /** The first row of this queue and event that is being replayed. */
  predicate IsFirstReplaying(dead: seq<DeadRow>, q: Queue, e: nat, i: nat) {
    && i < |dead| && dead[i].queue == q && dead[i].event == e && dead[i].status.Replaying?
    && forall j | 0 <= j < i :: !(dead[j].queue == q && dead[j].event == e && dead[j].status.Replaying?)
  }

  lemma {:induction false} FindsFirst(dead: seq<DeadRow>, q: Queue, e: nat)
    ensures FindReplaying(dead, q, e) < |dead| ==> IsFirstReplaying(dead, q, e, FindReplaying(dead, q, e))
    ensures FindReplaying(dead, q, e) == |dead| ==>
              forall j | 0 <= j < |dead| :: !(dead[j].queue == q && dead[j].event == e && dead[j].status.Replaying?)
  {
    if dead != [] && !(dead[0].queue == q && dead[0].event == e && dead[0].status.Replaying?) {
      FindsFirst(dead[1..], q, e);
    }
  }

  lemma FindsThat(dead: seq<DeadRow>, q: Queue, e: nat, i: nat)
    requires IsFirstReplaying(dead, q, e, i)
    ensures FindReplaying(dead, q, e) == i
  {
    FindsFirst(dead, q, e);
  }

  /** A heard failure is put on record: on the row being replayed, or else in one row of its own for the job. */
  lemma FailureIsRecorded(s: Pipeline, k: JobKey, i: nat)
    requires k in s.failures && k in s.jobs && s.jobs[k].state.Failed?
    ensures var e, s' := s.jobs[k].event, HandleFailed(s, k);
            && k !in s'.failures && s'.jobs == s.jobs && s'.dropped == s.dropped
            && (IsFirstReplaying(s.dead, k.0, e, i) ==>
                  s'.dead == s.dead[i := s.dead[i].(status := ReplayFailed)])
            && ((forall j | 0 <= j < |s.dead| ::
                   !(s.dead[j].queue == k.0 && s.dead[j].event == e && s.dead[j].status.Replaying?)) ==>
                  s'.dead == if IsRecorded(s.dead, k) then s.dead else s.dead + [DeadRow(k.0, k.1, e, Pending)])
  {
    FindsFirst(s.dead, k.0, s.jobs[k].event);
    if IsFirstReplaying(s.dead, k.0, s.jobs[k].event, i) {
      FindsThat(s.dead, k.0, s.jobs[k].event, i);
    }
  }

  /** A notice about a job that runs again, or has succeeded since, records nothing; one about a pruned job is lost. */
  lemma LiveJobIsNoFailure(s: Pipeline, k: JobKey)
    requires k in s.failures && (k in s.jobs ==> !s.jobs[k].state.Failed?)
    ensures var s' := HandleFailed(s, k);
            && s'.dead == s.dead && s'.jobs == s.jobs && s'.failures == s.failures - {k}
            && s'.dropped == if k in s.jobs then s.dropped else s.dropped + {(k.0, s.failures[k])}
  {}

  /** Pruning forgets finished jobs only, and then the same event can be added to the queue again. */
  lemma PrunedJobIsAddedAgain(s: Pipeline, e: nat, q: Queue)
    requires IsRouted(s, q, e) && (q, Original(e)) in s.jobs
    ensures var k := (q, Original(e)); var s' := Prune(s, k);
            if IsLive(s, k) then s' == s && Add(s', e, q).jobs == s.jobs
            else
              && s' == s.(jobs := s.jobs - {k}) && Add(s, e, q).jobs == s.jobs
              && Add(s', e, q).jobs == s.jobs[k := Job(e, Live(0))]
  {
    hide RoutesOf;
    var k := (q, Original(e));
    if !IsLive(s, k) {
      assert (s.jobs - {k})[k := Job(e, Live(0))] == s.jobs[k := Job(e, Live(0))];
    }
  }

  predicate OneRowPerJob(dead: seq<DeadRow>) {
    forall i, j | 0 <= i < j < |dead| :: dead[i].queue != dead[j].queue || dead[i].jobId != dead[j].jobId
  }

  /** However often its failure is reported, a job has one dead-letter row. */
  lemma {:induction false} OneDeadRowPerJob(s: Pipeline, steps: seq<Step>)
    requires OneRowPerJob(s.dead)
    ensures OneRowPerJob(Run(s, steps).dead)
    decreases |steps|
  {
    if steps != [] {
      StepKeepsOneRow(s, steps[0]);
      hide Apply, OneRowPerJob;
      OneDeadRowPerJob(Apply(s, steps[0]), steps[1..]);
    }
  }

  lemma StepKeepsOneRow(s: Pipeline, step: Step)
    requires OneRowPerJob(s.dead)
    ensures OneRowPerJob(Apply(s, step).dead)
  {
    if step.DoHandleFailed? {
      hide FindReplaying;
    } else {
      assert |Apply(s, step).dead| == |s.dead|;
      StepGrowsDead(s, step);
      hide Apply;
    }
  }

  // ---------------------------------------------------------------------
  // Replays
  // ---------------------------------------------------------------------

  /**
   A replay under a stamp not used before gives the row's queue a live job for the row's event, under an id of its own,
   and changes no other row or job. One that dies halfway leaves the row marked and no job.
   */
  lemma ReplayGivesJob(s: Pipeline, i: nat, stamp: int)
    requires i < |s.dead| && (s.dead[i].queue, Replay(i, stamp)) !in s.jobs
    ensures var row, k := s.dead[i], (s.dead[i].queue, Replay(i, stamp));
            var s' := ReplayRow(s, i, stamp, false);
            && IsLive(s', k) && s'.jobs[k].event == row.event && HasLiveJob(s', row.queue, row.event)
            && s'.jobs == s.jobs[k := Job(row.event, Live(0))]
            && s'.dead == s.dead[i := row.(status := Replaying)]
            && s' == s.(jobs := s'.jobs, dead := s'.dead)
    ensures ReplayRow(s, i, stamp, true) == s.(dead := s.dead[i := s.dead[i].(status := Replaying)])
  {
    var k, s' := (s.dead[i].queue, Replay(i, stamp)), ReplayRow(s, i, stamp, false);
    assert k in s'.jobs && IsLive(s', k) && k.0 == s.dead[i].queue && s'.jobs[k].event == s.dead[i].event;
  }

  /** The replay's job, from worker to listener, when its consumer succeeds. */
  function Succeeding(q: Queue, e: nat, k: JobKey): seq<Step> {
    [DoProcess(q, e), DoComplete(k), DoHandleCompleted(k)]
  }

  /**
   When the consumer then succeeds, the event is processed and the row is replayed. Should rows before it be replaying
   the same event, the first of them is the one that is marked.
   */
  lemma ReplaySucceeds(s: Pipeline, i: nat, stamp: int, first: nat)
    requires i < |s.dead| && (s.dead[i].queue, Replay(i, stamp)) !in s.jobs
    requires IsRouted(s, s.dead[i].queue, s.dead[i].event)
    requires IsFirstReplaying(
               s.dead[i := s.dead[i].(status := Replaying)], s.dead[i].queue, s.dead[i].event, first)
    ensures var row, k := s.dead[i], (s.dead[i].queue, Replay(i, stamp));
            var s' := Run(ReplayRow(s, i, stamp, false), Succeeding(row.queue, row.event, k));
            && first <= i && (row.queue, row.event) in s'.processed
            && k in s'.jobs && s'.jobs[k] == Job(row.event, Completed)
            && s'.dead == s.dead[i := row.(status := Replaying)][first := s.dead[first].(status := Replayed)]
  {
    var row, k := s.dead[i], (s.dead[i].queue, Replay(i, stamp));
    var s0 := ReplayRow(s, i, stamp, false);
    ReplayGivesJob(s, i, stamp);
    FindsThat(s0.dead, row.queue, row.event, first);
    assert s0.dead[i].queue == row.queue && s0.dead[i].event == row.event && s0.dead[i].status.Replaying?;
    assert first <= i;
    var steps := Succeeding(row.queue, row.event, k);
    var s1 := Process(s0, row.queue, row.event);
    var s2 := Complete(s1, k);
    var s3 := HandleCompleted(s2, k);
    assert s2.dead == s0.dead && s2.jobs[k] == Job(row.event, Completed);
    assert s3.dead == s0.dead[first := s0.dead[first].(status := Replayed)];
    hide ReplayRow, Process, Complete, HandleCompleted, FindReplaying;
    assert steps[0..] == steps && steps[3..] == [];
    RunFrom(s0, steps, 0);
    RunFrom(s1, steps, 1);
    RunFrom(s2, steps, 2);
    RunNothing(s3);
  }

  /** When it fails five times over and that is heard, the row says so, and is there to be replayed again. */
  lemma ReplayFails(s: Pipeline, i: nat, stamp: int, first: nat)
    requires i < |s.dead| && (s.dead[i].queue, Replay(i, stamp)) !in s.jobs
    requires (s.dead[i].queue, Replay(i, stamp)) !in s.failures
    requires IsFirstReplaying(
               s.dead[i := s.dead[i].(status := Replaying)], s.dead[i].queue, s.dead[i].event, first)
    ensures var row, k := s.dead[i], (s.dead[i].queue, Replay(i, stamp));
            var s' := HandleFailed(FailTimes(ReplayRow(s, i, stamp, false), k, 5), k);
            && first <= i && s'.processed == s.processed
            && s'.dead == s.dead[i := row.(status := Replaying)][first := s.dead[first].(status := ReplayFailed)]
  {
    var k, s0 := (s.dead[i].queue, Replay(i, stamp)), ReplayRow(s, i, stamp, false);
    ReplayGivesJob(s, i, stamp);
    FifthAttemptFails(s0, k, 5);
    hide ReplayRow, FailTimes, FindReplaying;
    var s1 := FailTimes(s0, k, 5);
    FailureIsRecorded(s1, k, first);
    assert s0.dead[i].status.Replaying? && first <= i;
    assert s1.dead == s0.dead && HandleFailed(s1, k).processed == s1.processed;
  }
}
