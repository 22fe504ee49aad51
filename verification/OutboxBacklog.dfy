/** How a backlog of pending events drains, tick by tick, while every queue accepts. */
module OutboxBacklogs {
  import opened OutboxPipelines
  import opened OutboxServices

  function AlwaysUp(): Reachable {
    (e: nat, q: Queue) => true
  }

  function Tick(s: Pipeline): Pipeline {
    PublishEach(s, PendingFrom(s.outbox, 0, BATCH_SIZE), AlwaysUp())
  }

  function Ticks(s: Pipeline, k: nat): Pipeline
    decreases k
  {
    if k == 0 then s else Ticks(Tick(s), k - 1)
  }

  predicate IsPending(outbox: seq<Row>, i: nat) {
    i < |outbox| && !outbox[i].published
  }

  predicate IsStray(outbox: seq<Row>, i: nat) {
    IsPending(outbox, i) && outbox[i].aggregate == Unrouted
  }

  /** Pending rows older than row e. */
  function PendingBefore(outbox: seq<Row>, e: nat): nat {
    if e == 0 then 0 else PendingBefore(outbox, e - 1) + (if IsPending(outbox, e - 1) then 1 else 0)
  }

  /** Pending rows older than row e that no queue takes. */
  function StraysBefore(outbox: seq<Row>, e: nat): nat {
    if e == 0 then 0 else StraysBefore(outbox, e - 1) + (if IsStray(outbox, e - 1) then 1 else 0)
  }

  // ---------------------------------------------------------------------
  // One tick
  // ---------------------------------------------------------------------

  lemma {:induction false} BeforeGrows(outbox: seq<Row>, from: nat, to: nat)
    requires from <= to
    ensures PendingBefore(outbox, from) <= PendingBefore(outbox, to)
    ensures StraysBefore(outbox, from) <= StraysBefore(outbox, to)
  {
    if from < to {
      BeforeGrows(outbox, from, to - 1);
    }
  }

  /** The batch is the pending rows with fewer than `limit` pending ones before them. */
  lemma {:induction false} BatchIs(outbox: seq<Row>, from: nat, limit: nat, i: nat)
    requires from <= |outbox|
    ensures i in PendingFrom(outbox, from, limit)
       <==> from <= i && IsPending(outbox, i) && PendingBefore(outbox, i) < PendingBefore(outbox, from) + limit
    decreases |outbox| - from
  {
    if from < |outbox| && limit > 0 {
      BatchIs(outbox, from + 1, if outbox[from].published then limit else limit - 1, i);
      if i > from {
        BeforeGrows(outbox, from + 1, i);
      }
    } else if from <= i {
      BeforeGrows(outbox, from, i);
    }
  }

  predicate Ascending(ids: seq<nat>) {
    forall i, j | 0 <= i < j < |ids| :: ids[i] < ids[j]
  }

  lemma {:induction false} BatchAscends(outbox: seq<Row>, from: nat, limit: nat)
    requires from <= |outbox|
    ensures Ascending(PendingFrom(outbox, from, limit))
    decreases |outbox| - from
  {
    if from < |outbox| && limit > 0 {
      var left := if outbox[from].published then limit else limit - 1;
      var rest := PendingFrom(outbox, from + 1, left);
      BatchAscends(outbox, from + 1, left);
      assert forall j | 0 <= j < |rest| :: rest[j] in rest;
    }
  }

  lemma OneRow(s: Pipeline, e: nat, i: nat)
    requires IsPending(s.outbox, e) && i < |s.outbox|
    ensures var s' := PublishOne(s, e, AlwaysUp());
            && |s'.outbox| == |s.outbox| && s'.outbox[i].aggregate == s.outbox[i].aggregate
            && s'.outbox[i].published == if i == e then s.outbox[i].aggregate != Unrouted else s.outbox[i].published
  {
    hide PublishOne, RoutesOf;
    PublishedIff(s, e, AlwaysUp());
  }

  lemma {:induction false} EachRow(s: Pipeline, ids: seq<nat>, i: nat)
    requires (forall id | id in ids :: IsPending(s.outbox, id)) && Ascending(ids) && i < |s.outbox|
    ensures var s' := PublishEach(s, ids, AlwaysUp());
            && |s'.outbox| == |s.outbox| && s'.outbox[i].aggregate == s.outbox[i].aggregate
            && s'.outbox[i].published == (if i in ids then s.outbox[i].aggregate != Unrouted else s.outbox[i].published)
    decreases |ids|
  {
    hide PublishOne;
    if ids != [] {
      var next, rest := PublishOne(s, ids[0], AlwaysUp()), ids[1..];
      assert ids[0] in ids;
      OneRow(s, ids[0], i);
      forall id | id in rest
        ensures IsPending(next.outbox, id)
      {
        assert id in ids && id != ids[0];
        OneRow(s, ids[0], id);
      }
      EachRow(next, rest, i);
    }
  }

  /** With every queue up, a tick publishes the routed ones among the twenty oldest pending rows, and nothing else. */
  lemma TickPublishes(s: Pipeline, i: nat)
    ensures |Tick(s).outbox| == |s.outbox|
    ensures IsPending(Tick(s).outbox, i)
       <==> IsPending(s.outbox, i) && (IsStray(s.outbox, i) || PendingBefore(s.outbox, i) >= 20)
    ensures i < |s.outbox| ==> Tick(s).outbox[i].aggregate == s.outbox[i].aggregate
    ensures IsStray(Tick(s).outbox, i) <==> IsStray(s.outbox, i)
  {
    var ids := PendingFrom(s.outbox, 0, BATCH_SIZE);
    BatchAscends(s.outbox, 0, BATCH_SIZE);
    BatchIs(s.outbox, 0, BATCH_SIZE, i);
    hide PendingFrom, PublishEach;
    if i < |s.outbox| {
      EachRow(s, ids, i);
    } else if 0 < |s.outbox| {
      EachRow(s, ids, 0);
    } else {
      NoRows(s, ids);
    }
  }

  lemma NoRows(s: Pipeline, ids: seq<nat>)
    requires s.outbox == [] && forall id | id in ids :: IsPending(s.outbox, id)
    ensures PublishEach(s, ids, AlwaysUp()) == s
  {
    assert ids != [] ==> IsPending(s.outbox, ids[0]);
  }

  // ---------------------------------------------------------------------
  // Without stray rows
  // ---------------------------------------------------------------------

  function Less(n: nat, m: nat): nat {
    if n <= m then 0 else n - m
  }

  lemma {:induction false} TickShifts(s: Pipeline, e: nat)
    requires forall i: nat :: !IsStray(s.outbox, i)
    ensures PendingBefore(Tick(s).outbox, e) == Less(PendingBefore(s.outbox, e), BATCH_SIZE)
  {
    hide Tick;
    if e > 0 {
      TickShifts(s, e - 1);
      TickPublishes(s, e - 1);
    }
  }

  /** While every aggregate has a route, k ticks publish exactly the 20k oldest pending rows. */
  lemma {:induction false} TicksDrain(s: Pipeline, k: nat, e: nat)
    requires forall i: nat :: !IsStray(s.outbox, i)
    ensures IsPending(Ticks(s, k).outbox, e) <==> IsPending(s.outbox, e) && PendingBefore(s.outbox, e) >= 20 * k
    decreases k
  {
    hide Tick, PendingBefore;
    if k > 0 {
      forall i: nat
        ensures !IsStray(Tick(s).outbox, i)
      {
        TickPublishes(s, i);
      }
      TickPublishes(s, e);
      TickShifts(s, e);
      TicksDrain(Tick(s), k - 1, e);
    }
  }

  // ---------------------------------------------------------------------
  // With stray rows
  // ---------------------------------------------------------------------

  lemma {:induction false} StraysStay(s: Pipeline, e: nat)
    ensures StraysBefore(Tick(s).outbox, e) == StraysBefore(s.outbox, e)
  {
    hide Tick;
    if e > 0 {
      StraysStay(s, e - 1);
      TickPublishes(s, e - 1);
    }
  }

  lemma {:induction false} StraysArePending(outbox: seq<Row>, e: nat)
    ensures StraysBefore(outbox, e) <= PendingBefore(outbox, e)
  {
    if e > 0 {
      StraysArePending(outbox, e - 1);
    }
  }

  /** The oldest pending row that has a route, when not all the pending rows before e are strays. */
  lemma {:induction false} OldestRouted(outbox: seq<Row>, e: nat) returns (r: nat)
    requires StraysBefore(outbox, e) < PendingBefore(outbox, e)
    ensures r < e && IsPending(outbox, r) && !IsStray(outbox, r) && PendingBefore(outbox, r) == StraysBefore(outbox, r)
  {
    StraysArePending(outbox, e - 1);
    if StraysBefore(outbox, e - 1) < PendingBefore(outbox, e - 1) {
      r := OldestRouted(outbox, e - 1);
    } else {
      r := e - 1;
    }
  }

  lemma {:induction false} TickShrinks(s: Pipeline, e: nat, r: nat)
    ensures PendingBefore(Tick(s).outbox, e) <= PendingBefore(s.outbox, e)
    ensures r < e && IsPending(s.outbox, r) && !IsPending(Tick(s).outbox, r) ==>
              PendingBefore(Tick(s).outbox, e) < PendingBefore(s.outbox, e)
  {
    hide Tick;
    if e > 0 {
      TickShrinks(s, e - 1, r);
      TickPublishes(s, e - 1);
    }
  }

  /**
   Fewer than a batch of strays in front: the row is reached, in
   at most one tick for each pending row before it and one more.
   */
  lemma {:induction false} RoutedRowDrains(s: Pipeline, e: nat) returns (k: nat)
    requires IsPending(s.outbox, e) && !IsStray(s.outbox, e) && StraysBefore(s.outbox, e) < BATCH_SIZE
    ensures k <= PendingBefore(s.outbox, e) + 1 && !IsPending(Ticks(s, k).outbox, e)
    decreases PendingBefore(s.outbox, e)
  {
    hide Tick;
    TickPublishes(s, e);
    if PendingBefore(s.outbox, e) < BATCH_SIZE {
      k := 1;
      assert Ticks(s, 1) == Ticks(Tick(s), 0);
    } else {
      var r := OldestRouted(s.outbox, e);
      BeforeGrows(s.outbox, r, e);
      TickPublishes(s, r);
      TickShrinks(s, e, r);
      StraysStay(s, e);
      hide PendingBefore, StraysBefore;
      var rest := RoutedRowDrains(Tick(s), e);
      k := rest + 1;
    }
  }

  /** A batch of strays in front: the row is never reached. */
  lemma {:induction false} RoutedRowStarves(s: Pipeline, e: nat, k: nat)
    requires IsPending(s.outbox, e) && !IsStray(s.outbox, e) && StraysBefore(s.outbox, e) >= BATCH_SIZE
    ensures IsPending(Ticks(s, k).outbox, e)
    decreases k
  {
    hide Tick;
    if k > 0 {
      StraysArePending(s.outbox, e);
      TickPublishes(s, e);
      StraysStay(s, e);
      hide PendingBefore, StraysBefore;
      RoutedRowStarves(Tick(s), e, k - 1);
    }
  }

  /**
   With every queue up, a pending row that has a route is published sooner or later if and only if fewer than twenty
   pending rows without one are older than it.
   */
  lemma RoutedRowDrainsIff(s: Pipeline, e: nat)
    requires IsPending(s.outbox, e) && !IsStray(s.outbox, e)
    ensures (exists k: nat :: !IsPending(Ticks(s, k).outbox, e)) <==> StraysBefore(s.outbox, e) < 20
  {
    hide Ticks, StraysBefore, IsPending, IsStray;
    if StraysBefore(s.outbox, e) < BATCH_SIZE {
      var k := RoutedRowDrains(s, e);
    } else {
      forall k: nat
        ensures IsPending(Ticks(s, k).outbox, e)
      {
        RoutedRowStarves(s, e, k);
      }
    }
  }
}
