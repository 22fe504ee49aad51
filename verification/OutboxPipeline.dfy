/**
 The way of an event from the transaction that committed it to its consumers: outbox row, one job per routed queue,
 processed marks, dead letters and their replays. Publishers, workers and listeners may stop between any two writes.
 */
module OutboxPipelines {
  // ---------------------------------------------------------------------
  // Tables and queues
  // ---------------------------------------------------------------------

  datatype Queue = SearchSync | SellerOrderProcessing | Notifications | Realtime

  datatype Aggregate =
    | Product | Category | SellerOrder | Order | Refund | Dispute | Auction | SellerApplication | Unrouted

  function RoutesOf(aggregate: Aggregate): set<Queue> {
    match aggregate
    case Product => {SearchSync, Realtime}
    case Category => {SearchSync}
    case SellerOrder => {SellerOrderProcessing, Realtime}
    case Order => {Notifications, Realtime}
    case Refund => {Notifications, Realtime}
    case Dispute => {Notifications, Realtime}
    case Auction => {Notifications, Realtime}
    case SellerApplication => {Notifications}
    case Unrouted => {}
  }

  /** An outbox row; its id is its position. */
  datatype Row = Row(aggregate: Aggregate, published: bool, attempts: nat)

  /** A first job takes its event's id, so a queue holds at most one; every replay takes an id of its own. */
  datatype JobId = Original(event: nat) | Replay(row: nat, stamp: int)

  type JobKey = (Queue, JobId)

  datatype JobState = Live(attemptsMade: nat) | Completed | Failed

  datatype Job = Job(event: nat, state: JobState)

  datatype DeadStatus = Pending | Replaying | Replayed | ReplayFailed

  datatype DeadRow = DeadRow(queue: Queue, jobId: JobId, event: nat, status: DeadStatus)

  const MAX_ATTEMPTS: nat := 5

  /**
   `added` are the queues a publisher has handed an event to since it took hold of the row; `failures` the
   exhausted jobs whose failure notice is still to be handled; `dropped` those whose notice was lost.
   */
  datatype Pipeline = Pipeline(
    outbox: seq<Row>, added: set<(nat, Queue)>, jobs: map<JobKey, Job>, processed: set<(Queue, nat)>,
    dead: seq<DeadRow>, failures: map<JobKey, nat>, dropped: set<(Queue, nat)>)

  // ---------------------------------------------------------------------
  // Steps
  // ---------------------------------------------------------------------

  predicate IsRouted(s: Pipeline, q: Queue, e: nat) {
    e < |s.outbox| && q in RoutesOf(s.outbox[e].aggregate)
  }

  function Commit(s: Pipeline, aggregate: Aggregate): Pipeline {
    s.(outbox := s.outbox + [Row(aggregate, false, 0)])
  }

  /** queue.add with jobId = event id: nothing happens while the queue still knows that id. */
  function Add(s: Pipeline, e: nat, q: Queue): Pipeline {
    if !IsRouted(s, q, e) then s
    else s.(jobs := if (q, Original(e)) in s.jobs then s.jobs else s.jobs[(q, Original(e)) := Job(e, Live(0))],
            added := s.added + {(e, q)})
  }

  predicate AllAdded(s: Pipeline, e: nat)
    requires e < |s.outbox|
  {
    forall q | q in RoutesOf(s.outbox[e].aggregate) :: (e, q) in s.added
  }

  function Release(s: Pipeline, e: nat): set<(nat, Queue)> {
    set x | x in s.added && x.0 != e
  }

  /** The row is marked once every add has succeeded; an aggregate with no route never gets there. */
  function Mark(s: Pipeline, e: nat): Pipeline {
    if e < |s.outbox| && s.outbox[e].aggregate != Unrouted && AllAdded(s, e)
    then s.(outbox := s.outbox[e := s.outbox[e].(published := true)], added := Release(s, e))
    else s
  }

  /** An add failed, or there is no route: the attempt is counted and the row stays as it was. */
  function Retry(s: Pipeline, e: nat): Pipeline {
    if e < |s.outbox|
    then s.(outbox := s.outbox[e := s.outbox[e].(attempts := s.outbox[e].attempts + 1)], added := Release(s, e))
    else s
  }

  /** The publisher died: its hold on the row is gone, whatever it added stays. */
  function Abandon(s: Pipeline, e: nat): Pipeline {
    s.(added := Release(s, e))
  }

  predicate IsLive(s: Pipeline, k: JobKey) {
    k in s.jobs && s.jobs[k].state.Live?
  }

  /**
   A worker has applied the event and inserts its processed
   row, even when its job has since been given to another.
   */
  function Process(s: Pipeline, q: Queue, e: nat): Pipeline {
    if IsRouted(s, q, e) then s.(processed := s.processed + {(q, e)}) else s
  }

  /** The worker returns, which it does only past the processed check or the processed insert. */
  function Complete(s: Pipeline, k: JobKey): Pipeline {
    if IsLive(s, k) && (k.0, s.jobs[k].event) in s.processed
    then s.(jobs := s.jobs[k := s.jobs[k].(state := Completed)])
    else s
  }

  function FailAttempt(s: Pipeline, k: JobKey): Pipeline {
    if !IsLive(s, k) then s
    else
      var made := s.jobs[k].state.attemptsMade + 1;
      if made < MAX_ATTEMPTS then s.(jobs := s.jobs[k := s.jobs[k].(state := Live(made))])
      else s.(jobs := s.jobs[k := s.jobs[k].(state := Failed)], failures := s.failures[k := s.jobs[k].event])
  }

  /** The first row of this queue and event that is being replayed. */
  function FindReplaying(dead: seq<DeadRow>, q: Queue, e: nat): (i: nat)
    ensures i <= |dead|
    ensures i < |dead| ==> dead[i].queue == q && dead[i].event == e && dead[i].status.Replaying?
  {
    if dead == [] || (dead[0].queue == q && dead[0].event == e && dead[0].status.Replaying?) then 0
    else 1 + FindReplaying(dead[1..], q, e)
  }

  predicate IsRecorded(dead: seq<DeadRow>, k: JobKey) {
    exists i :: 0 <= i < |dead| && dead[i].queue == k.0 && dead[i].jobId == k.1
  }

  function SetStatus(s: Pipeline, i: nat, status: DeadStatus): Pipeline
    requires i < |s.dead|
  {
    s.(dead := s.dead[i := s.dead[i].(status := status)])
  }

  /** A duplicate (queue, job) is a harmless no-op. */
  function Record(s: Pipeline, k: JobKey, e: nat): Pipeline {
    if IsRecorded(s.dead, k) then s else s.(dead := s.dead + [DeadRow(k.0, k.1, e, Pending)])
  }

  /**
   The listener looks the job up by id: one already pruned leaves it nothing to record, and one added again and not
   exhausted is not its business yet.
   */
  function HandleFailed(s: Pipeline, k: JobKey): Pipeline {
    if k !in s.failures then s
    else
      var noticed := s.(failures := s.failures - {k});
      if k !in s.jobs then noticed.(dropped := s.dropped + {(k.0, s.failures[k])})
      else if !s.jobs[k].state.Failed? then noticed
      else
        var i := FindReplaying(s.dead, k.0, s.jobs[k].event);
        if i < |s.dead| then SetStatus(noticed, i, ReplayFailed) else Record(noticed, k, s.jobs[k].event)
  }

  /** No listener was running, or its own writes failed: the notice is not delivered again. */
  function DropNotice(s: Pipeline, k: JobKey): Pipeline {
    if k in s.failures then s.(failures := s.failures - {k}, dropped := s.dropped + {(k.0, s.failures[k])}) else s
  }

  function HandleCompleted(s: Pipeline, k: JobKey): Pipeline {
    if k in s.jobs && s.jobs[k].state.Completed? then
      var i := FindReplaying(s.dead, k.0, s.jobs[k].event);
      if i < |s.dead| then SetStatus(s, i, Replayed) else s
    else s
  }

  /** The status is written before the job is added; `crash` stops in between. */
  function ReplayRow(s: Pipeline, i: nat, stamp: int, crash: bool): Pipeline {
    if i >= |s.dead| then s
    else
      var row, k := s.dead[i], (s.dead[i].queue, Replay(i, stamp));
      var started := SetStatus(s, i, Replaying);
      if crash || k in s.jobs then started else started.(jobs := s.jobs[k := Job(row.event, Live(0))])
  }

  /** Finished jobs are kept only so long. */
  function Prune(s: Pipeline, k: JobKey): Pipeline {
    if k in s.jobs && !s.jobs[k].state.Live? then s.(jobs := s.jobs - {k}) else s
  }

  datatype Step =
    | DoCommit(aggregate: Aggregate) | DoAdd(event: nat, queue: Queue) | DoMark(event: nat) | DoRetry(event: nat)
    | DoAbandon(event: nat) | DoProcess(queue: Queue, event: nat) | DoComplete(job: JobKey) | DoFailAttempt(job: JobKey)
    | DoHandleFailed(job: JobKey) | DoDropNotice(job: JobKey) | DoHandleCompleted(job: JobKey)
    | DoReplay(row: nat, stamp: int, crash: bool) | DoPrune(job: JobKey)

  function Apply(s: Pipeline, step: Step): Pipeline {
    match step
    case DoCommit(aggregate) => Commit(s, aggregate)
    case DoAdd(e, q) => Add(s, e, q)
    case DoMark(e) => Mark(s, e)
    case DoRetry(e) => Retry(s, e)
    case DoAbandon(e) => Abandon(s, e)
    case DoProcess(q, e) => Process(s, q, e)
    case DoComplete(k) => Complete(s, k)
    case DoFailAttempt(k) => FailAttempt(s, k)
    case DoHandleFailed(k) => HandleFailed(s, k)
    case DoDropNotice(k) => DropNotice(s, k)
    case DoHandleCompleted(k) => HandleCompleted(s, k)
    case DoReplay(i, stamp, crash) => ReplayRow(s, i, stamp, crash)
    case DoPrune(k) => Prune(s, k)
  }

  function Run(s: Pipeline, steps: seq<Step>): Pipeline
    decreases |steps|
  {
    if steps == [] then s else Run(Apply(s, steps[0]), steps[1..])
  }

  lemma {:induction false} RunOn(s: Pipeline, steps: seq<Step>, more: seq<Step>)
    ensures Run(s, steps + more) == Run(Run(s, steps), more)
    decreases |steps|
  {
    hide Apply;
    if steps == [] {
      assert steps + more == more;
    } else {
      assert (steps + more)[1..] == steps[1..] + more;
      RunOn(Apply(s, steps[0]), steps[1..], more);
    }
  }

  lemma RunOneStep(s: Pipeline, step: Step)
    ensures Run(s, [step]) == Apply(s, step)
  {
    hide Apply;
    assert [step][1..] == [];
  }

  const EMPTY := Pipeline([], {}, map[], {}, [], map[], {})

  // ---------------------------------------------------------------------
  // Nothing that was handed to a queue is forgotten
  // ---------------------------------------------------------------------

  predicate HasLiveJob(s: Pipeline, q: Queue, e: nat) {
    exists k :: k in s.jobs && IsLive(s, k) && k.0 == q && s.jobs[k].event == e
  }

  predicate HasNotice(s: Pipeline, q: Queue, e: nat) {
    exists k :: k in s.failures && k.0 == q && s.failures[k] == e
  }

  predicate HasDeadRow(s: Pipeline, q: Queue, e: nat) {
    exists i :: 0 <= i < |s.dead| && s.dead[i].queue == q && s.dead[i].event == e
  }

  /** A job on its way, a failure notice to be handled, the processed mark or a dead-letter row. */
  predicate IsTracked(s: Pipeline, q: Queue, e: nat) {
    HasLiveJob(s, q, e) || HasNotice(s, q, e) || (q, e) in s.processed || HasDeadRow(s, q, e)
  }

  predicate IsKept(s: Pipeline, q: Queue, e: nat) {
    IsTracked(s, q, e) || (q, e) in s.dropped
  }

  /** Which event a job key stands for. */
  predicate Names(s: Pipeline, k: JobKey, e: nat) {
    match k.1
    case Original(event) => e == event
    case Replay(row, _) => row < |s.dead| && s.dead[row].event == e && s.dead[row].queue == k.0
  }

  predicate KeysName(s: Pipeline) {
    && (forall k | k in s.jobs :: Names(s, k, s.jobs[k].event))
    && (forall k | k in s.failures :: Names(s, k, s.failures[k]))
    && (forall i | 0 <= i < |s.dead| :: Names(s, (s.dead[i].queue, s.dead[i].jobId), s.dead[i].event))
  }

  /** Completed jobs and successful replays have their processed rows. */
  predicate SuccessIsProcessed(s: Pipeline) {
    && (forall k | k in s.jobs && s.jobs[k].state.Completed? :: (k.0, s.jobs[k].event) in s.processed)
    && (forall i | 0 <= i < |s.dead| && s.dead[i].status.Replayed? :: (s.dead[i].queue, s.dead[i].event) in s.processed)
  }

  predicate HandedOverIsKept(s: Pipeline) {
    && (forall k | k in s.jobs :: IsKept(s, k.0, s.jobs[k].event))
    && (forall x | x in s.added :: IsKept(s, x.1, x.0))
    && (forall e, q | 0 <= e < |s.outbox| && s.outbox[e].published && q in RoutesOf(s.outbox[e].aggregate) ::
          IsKept(s, q, e))
  }

  predicate Inv(s: Pipeline) {
    KeysName(s) && SuccessIsProcessed(s) && HandedOverIsKept(s)
  }

  // Names and successes

  /** Dead-letter rows are never removed and change nothing but their status. */
  predicate DeadGrows(s: Pipeline, s': Pipeline) {
    && |s.dead| <= |s'.dead|
    && forall i | 0 <= i < |s.dead| ::
         s'.dead[i].queue == s.dead[i].queue && s'.dead[i].jobId == s.dead[i].jobId
         && s'.dead[i].event == s.dead[i].event
  }

  lemma StepGrowsDead(s: Pipeline, step: Step)
    ensures DeadGrows(s, Apply(s, step))
  {}

  lemma GrownNames(s: Pipeline, s': Pipeline, k: JobKey, e: nat)
    requires DeadGrows(s, s') && Names(s, k, e)
    ensures Names(s', k, e)
  {}

  lemma JobNamed(s: Pipeline, step: Step, k: JobKey)
    requires KeysName(s) && k in Apply(s, step).jobs
    ensures Names(Apply(s, step), k, Apply(s, step).jobs[k].event)
  {
    StepGrowsDead(s, step);
    if k in s.jobs {
      GrownNames(s, Apply(s, step), k, s.jobs[k].event);
    }
  }

  lemma NoticeNamed(s: Pipeline, step: Step, k: JobKey)
    requires KeysName(s) && k in Apply(s, step).failures
    ensures Names(Apply(s, step), k, Apply(s, step).failures[k])
  {
    StepGrowsDead(s, step);
    hide Names;
    GrownNames(s, Apply(s, step), k, Apply(s, step).failures[k]);
  }

  lemma DeadRowNamed(s: Pipeline, step: Step, i: nat)
    requires KeysName(s) && i < |Apply(s, step).dead|
    ensures var row := Apply(s, step).dead[i]; Names(Apply(s, step), (row.queue, row.jobId), row.event)
  {
    StepGrowsDead(s, step);
    hide Names;
    if i < |s.dead| {
      GrownNames(s, Apply(s, step), (s.dead[i].queue, s.dead[i].jobId), s.dead[i].event);
    } else {
      GrownNames(s, Apply(s, step), step.job, s.jobs[step.job].event);
    }
  }

  lemma StepKeepsNames(s: Pipeline, step: Step)
    requires KeysName(s)
    ensures KeysName(Apply(s, step))
  {
    var s' := Apply(s, step);
    hide Apply, Names;
    forall k | k in s'.jobs
      ensures Names(s', k, s'.jobs[k].event)
    {
      JobNamed(s, step, k);
    }
    forall k | k in s'.failures
      ensures Names(s', k, s'.failures[k])
    {
      NoticeNamed(s, step, k);
    }
    forall i | 0 <= i < |s'.dead|
      ensures Names(s', (s'.dead[i].queue, s'.dead[i].jobId), s'.dead[i].event)
    {
      DeadRowNamed(s, step, i);
    }
  }

  lemma StepKeepsSuccess(s: Pipeline, step: Step)
    requires SuccessIsProcessed(s)
    ensures SuccessIsProcessed(Apply(s, step))
  {}

  // Tracking

  /** Every step keeps what is kept, handing it from job to notice to dead-letter row. */
  lemma StepKeepsKept(s: Pipeline, step: Step, q: Queue, e: nat)
    requires KeysName(s) && SuccessIsProcessed(s) && IsKept(s, q, e)
    ensures IsKept(Apply(s, step), q, e)
  {
    hide KeysName, SuccessIsProcessed;
    StepGrowsDead(s, step);
    var s' := Apply(s, step);
    if HasDeadRow(s, q, e) {
      var i :| 0 <= i < |s.dead| && s.dead[i].queue == q && s.dead[i].event == e;
      assert s'.dead[i].queue == q && s'.dead[i].event == e;
    } else if HasLiveJob(s, q, e) {
      var k :| k in s.jobs && IsLive(s, k) && k.0 == q && s.jobs[k].event == e;
      LiveJobIsKept(s, step, k);
    } else if HasNotice(s, q, e) {
      var k :| k in s.failures && k.0 == q && s.failures[k] == e;
      NoticeIsKept(s, step, k);
    }
  }

  lemma LiveJobIsKept(s: Pipeline, step: Step, k: JobKey)
    requires IsLive(s, k)
    ensures IsKept(Apply(s, step), k.0, s.jobs[k].event)
  {}

  lemma NoticeIsKept(s: Pipeline, step: Step, k: JobKey)
    requires KeysName(s) && SuccessIsProcessed(s) && k in s.failures
    ensures IsKept(Apply(s, step), k.0, s.failures[k])
  {
    if step == DoHandleFailed(k) {
      HandledNoticeIsKept(s, k);
    } else {
      hide KeysName, SuccessIsProcessed;
      assert k in Apply(s, step).failures || (k.0, s.failures[k]) in Apply(s, step).dropped;
    }
  }

  lemma HandledNoticeIsKept(s: Pipeline, k: JobKey)
    requires KeysName(s) && SuccessIsProcessed(s) && k in s.failures
    ensures IsKept(HandleFailed(s, k), k.0, s.failures[k])
  {
    var e, s' := s.failures[k], HandleFailed(s, k);
    if k in s.jobs {
      assert s.jobs[k].event == e;
      if IsLive(s, k) {
        assert IsLive(s', k);
      } else if s.jobs[k].state.Failed? {
        var i := FindReplaying(s.dead, k.0, e);
        if i < |s.dead| {
          assert s'.dead[i].event == e;
        } else if IsRecorded(s.dead, k) {
          var j :| 0 <= j < |s.dead| && s.dead[j].queue == k.0 && s.dead[j].jobId == k.1;
          assert s'.dead[j].event == e;
        } else {
          assert s'.dead[|s.dead|].event == e;
        }
      }
    }
  }

  /** A job key known to its queue, or just handed to it. */
  lemma AddedIsKept(s: Pipeline, e: nat, q: Queue)
    requires KeysName(s) && HandedOverIsKept(s) && IsRouted(s, q, e)
    ensures IsKept(Add(s, e, q), q, e)
  {}

  lemma JobsAreKept(s: Pipeline, step: Step, k: JobKey)
    requires Inv(s) && k in Apply(s, step).jobs
    ensures IsKept(Apply(s, step), k.0, Apply(s, step).jobs[k].event)
  {
    var s' := Apply(s, step);
    hide KeysName, SuccessIsProcessed;
    if k in s.jobs {
      assert s'.jobs[k].event == s.jobs[k].event;
      hide Apply, IsKept;
      StepKeepsKept(s, step, k.0, s.jobs[k].event);
    } else {
      assert IsLive(s', k);
    }
  }

  lemma AddedPairsAreKept(s: Pipeline, step: Step, x: (nat, Queue))
    requires Inv(s) && x in Apply(s, step).added
    ensures IsKept(Apply(s, step), x.1, x.0)
  {
    hide KeysName, SuccessIsProcessed, IsKept;
    if x in s.added {
      StepKeepsKept(s, step, x.1, x.0);
    } else {
      AddedIsKept(s, x.0, x.1);
    }
  }

  lemma PublishedRowsAreKept(s: Pipeline, step: Step, e: nat, q: Queue)
    requires Inv(s)
    requires e < |Apply(s, step).outbox| && Apply(s, step).outbox[e].published && IsRouted(Apply(s, step), q, e)
    ensures IsKept(Apply(s, step), q, e)
  {
    hide KeysName, SuccessIsProcessed, IsKept, RoutesOf;
    assert e < |s.outbox| && s.outbox[e].aggregate == Apply(s, step).outbox[e].aggregate;
    if !s.outbox[e].published {
      assert step == DoMark(e) && (e, q) in s.added;
    }
    StepKeepsKept(s, step, q, e);
  }

  lemma StepKeepsInv(s: Pipeline, step: Step)
    requires Inv(s)
    ensures Inv(Apply(s, step))
  {
    StepKeepsNames(s, step);
    StepKeepsSuccess(s, step);
    var s' := Apply(s, step);
    hide Apply, IsKept, KeysName, SuccessIsProcessed, RoutesOf;
    forall k | k in s'.jobs
      ensures IsKept(s', k.0, s'.jobs[k].event)
    {
      JobsAreKept(s, step, k);
    }
    forall x | x in s'.added
      ensures IsKept(s', x.1, x.0)
    {
      AddedPairsAreKept(s, step, x);
    }
    forall e, q | 0 <= e < |s'.outbox| && s'.outbox[e].published && q in RoutesOf(s'.outbox[e].aggregate)
      ensures IsKept(s', q, e)
    {
      PublishedRowsAreKept(s, step, e, q);
    }
  }

  lemma {:induction false} RunKeepsInv(s: Pipeline, steps: seq<Step>)
    requires Inv(s)
    ensures Inv(Run(s, steps))
    decreases |steps|
  {
    if steps != [] {
      hide Inv, Apply;
      StepKeepsInv(s, steps[0]);
      RunKeepsInv(Apply(s, steps[0]), steps[1..]);
    }
  }

  // ---------------------------------------------------------------------
  // Main results
  // ---------------------------------------------------------------------

  /** The step at which a failure notice goes unheard. */
  predicate LosesNotice(s: Pipeline, step: Step) {
    match step
    case DoDropNotice(k) => k in s.failures
    case DoHandleFailed(k) => k in s.failures && k !in s.jobs
    case _ => false
  }

  predicate HearsEveryNotice(s: Pipeline, steps: seq<Step>)
    decreases |steps|
  {
    steps == [] || (!LosesNotice(s, steps[0]) && HearsEveryNotice(Apply(s, steps[0]), steps[1..]))
  }

  lemma {:induction false} NothingDropped(s: Pipeline, steps: seq<Step>)
    requires HearsEveryNotice(s, steps)
    ensures Run(s, steps).dropped == s.dropped
    decreases |steps|
  {
    if steps != [] {
      assert Apply(s, steps[0]).dropped == s.dropped;
      hide Apply;
      NothingDropped(Apply(s, steps[0]), steps[1..]);
    }
  }

  /**
   Across crashes, partial enqueues, retries, redeliveries, pruning and replays: every committed event is, for every
   queue its aggregate routes to, still pending, on a live job, awaiting its failure notice, processed, or
   dead-lettered, unless a failure notice of exactly this event and queue was lost.
   */
  lemma NoEventLost(steps: seq<Step>, e: nat, q: Queue)
    requires IsRouted(Run(EMPTY, steps), q, e)
    ensures var s := Run(EMPTY, steps);
            !s.outbox[e].published || IsTracked(s, q, e) || (q, e) in s.dropped
    ensures HearsEveryNotice(EMPTY, steps) ==>
            var s := Run(EMPTY, steps); !s.outbox[e].published || IsTracked(s, q, e)
  {
    RunKeepsInv(EMPTY, steps);
    hide IsTracked, RoutesOf, KeysName, SuccessIsProcessed, Apply;
    assert !Run(EMPTY, steps).outbox[e].published || IsKept(Run(EMPTY, steps), q, e);
    if HearsEveryNotice(EMPTY, steps) {
      NothingDropped(EMPTY, steps);
    }
  }

  /** A replay is reported successful only for an event its consumer has processed. */
  lemma ReplayedIsProcessed(steps: seq<Step>, i: nat)
    requires i < |Run(EMPTY, steps).dead| && Run(EMPTY, steps).dead[i].status.Replayed?
    ensures var s := Run(EMPTY, steps); (s.dead[i].queue, s.dead[i].event) in s.processed
  {
    RunKeepsInv(EMPTY, steps);
  }

  /** Lost: published, and nothing anywhere that would ever bring it to the consumer. */
  predicate IsLost(s: Pipeline, q: Queue, e: nat) {
    IsRouted(s, q, e) && s.outbox[e].published && !IsTracked(s, q, e)
  }

  /** A committed product event: handed to both its queues and marked, then five failed attempts and no listener. */
  const UNHEARD: seq<Step> :=
    var k := (SearchSync, Original(0));
    [DoAdd(0, SearchSync), DoAdd(0, Realtime), DoMark(0), DoFailAttempt(k), DoFailAttempt(k), DoFailAttempt(k),
     DoFailAttempt(k), DoFailAttempt(k), DoDropNotice(k)]

  /** What that leaves: a published row, a failed job that nobody will look at, and nothing else for the consumer. */
  function Forsaken(): Pipeline {
    Pipeline([Row(Product, true, 0)], {},
             map[(SearchSync, Original(0)) := Job(0, Failed), (Realtime, Original(0)) := Job(0, Live(0))],
             {}, [], map[], {(SearchSync, 0)})
  }

  /** Hearing every notice is needed: one that is lost can lose its event. */
  lemma UnheardNoticeLoses()
    ensures IsLost(Run(EMPTY, [DoCommit(Product)] + UNHEARD), SearchSync, 0)
  {
    RunOn(EMPTY, [DoCommit(Product)], UNHEARD);
    RunOneStep(EMPTY, DoCommit(Product));
    UnheardRuns();
    hide Run, Commit;
  }

  lemma UnheardRuns()
    ensures Run(Commit(EMPTY, Product), UNHEARD) == Forsaken()
  {
    hide *;
    var k := (SearchSync, Original(0));
    HandedOver();
    FourAttempts(HandedOn(0), k);
    LastAttempt();
    FirstThree(Commit(EMPTY, Product));
    MiddleFour(HandedOn(0), k);
    LastTwo(HandedOn(4), k);
  }

  /** The product event published, with a live job in each of its queues. */
  function HandedOn(made: nat): Pipeline {
    Forsaken().(jobs := map[(SearchSync, Original(0)) := Job(0, Live(made)),
                         (Realtime, Original(0)) := Job(0, Live(0))],
                dropped := {})
  }

  lemma HandedOver()
    ensures Mark(Add(Add(Commit(EMPTY, Product), 0, SearchSync), 0, Realtime), 0) == HandedOn(0)
  {
    var added := Add(Add(Commit(EMPTY, Product), 0, SearchSync), 0, Realtime);
    assert Release(added, 0) == {};
    assert Mark(added, 0).jobs == HandedOn(0).jobs;
  }

  lemma LastAttempt()
    ensures var k := (SearchSync, Original(0)); DropNotice(FailAttempt(HandedOn(4), k), k) == Forsaken()
  {}

  lemma FourAttempts(s: Pipeline, k: JobKey)
    requires s == HandedOn(0) && k == (SearchSync, Original(0))
    ensures FailAttempt(FailAttempt(FailAttempt(FailAttempt(s, k), k), k), k) == HandedOn(4)
  {
    assert FailAttempt(HandedOn(0), k) == HandedOn(1) && FailAttempt(HandedOn(1), k) == HandedOn(2);
    assert FailAttempt(HandedOn(2), k) == HandedOn(3) && FailAttempt(HandedOn(3), k) == HandedOn(4);
  }

  lemma RunFrom(s: Pipeline, steps: seq<Step>, i: nat)
    requires i < |steps|
    ensures Run(s, steps[i..]) == Run(Apply(s, steps[i]), steps[i + 1..])
  {
    hide Apply;
    assert steps[i..][1..] == steps[i + 1..];
  }

  lemma FirstThree(s: Pipeline)
    ensures Run(s, UNHEARD) == Run(Mark(Add(Add(s, 0, SearchSync), 0, Realtime), 0), UNHEARD[3..])
  {
    hide Add, Mark, Run;
    assert UNHEARD[0..] == UNHEARD;
    RunFrom(s, UNHEARD, 0);
    RunFrom(Add(s, 0, SearchSync), UNHEARD, 1);
    RunFrom(Add(Add(s, 0, SearchSync), 0, Realtime), UNHEARD, 2);
  }

  lemma MiddleFour(s: Pipeline, k: JobKey)
    requires k == (SearchSync, Original(0))
    ensures Run(s, UNHEARD[3..]) == Run(FailAttempt(FailAttempt(FailAttempt(FailAttempt(s, k), k), k), k), UNHEARD[7..])
  {
    hide FailAttempt, Run;
    var s4 := FailAttempt(s, k);
    var s5 := FailAttempt(s4, k);
    RunFrom(s, UNHEARD, 3);
    RunFrom(s4, UNHEARD, 4);
    RunFrom(s5, UNHEARD, 5);
    RunFrom(FailAttempt(s5, k), UNHEARD, 6);
  }

  lemma LastTwo(s: Pipeline, k: JobKey)
    requires k == (SearchSync, Original(0))
    ensures Run(s, UNHEARD[7..]) == DropNotice(FailAttempt(s, k), k)
  {
    hide FailAttempt, DropNotice, Run;
    RunFrom(s, UNHEARD, 7);
    RunFrom(FailAttempt(s, k), UNHEARD, 8);
    assert UNHEARD[9..] == [];
    RunNothing(DropNotice(FailAttempt(s, k), k));
  }

  lemma RunNothing(s: Pipeline)
    ensures Run(s, []) == s
  {}
}
