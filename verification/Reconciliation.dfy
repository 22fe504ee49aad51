/** The periodic sweep over every auction, in batches of fifty. */
module Reconciliation {
  import A = Auctions

  const BATCH_SIZE: nat := 50

  type Shop = map<nat, A.Desk>

  predicate IsStartable(d: A.Desk, now: int) {
    d.auction.status.Scheduled? && A.InWindow(d.auction, now)
  }

  predicate IsOverdue(d: A.Desk, now: int) {
    (d.auction.status.Scheduled? || d.auction.status.Active?) && d.auction.endsAt <= now
  }

  predicate IsLapsed(d: A.Desk, now: int) {
    d.auction.status.AwaitingPayment? && d.auction.windowEndsAt.Some? && d.auction.windowEndsAt.value <= now
  }

  function Startable(shop: Shop, now: int): set<nat> {
    set id | id in shop && IsStartable(shop[id], now)
  }

  function Overdue(shop: Shop, now: int): set<nat> {
    set id | id in shop && IsOverdue(shop[id], now)
  }

  function Lapsed(shop: Shop, now: int): set<nat> {
    set id | id in shop && IsLapsed(shop[id], now)
  }

  function Min(a: nat, b: nat): nat {
    if a < b then a else b
  }

  function Monus(a: nat, b: nat): nat {
    if a < b then 0 else a - b
  }

  /** What a query limited to one batch may return: any fifty matching rows, or all of them when there are fewer. */
  predicate IsBatch(batch: set<nat>, matching: set<nat>) {
    batch <= matching && |batch| == Min(BATCH_SIZE, |matching|)
  }

  function ActivateAll(shop: Shop, batch: set<nat>, now: int): Shop {
    map id | id in shop :: if id in batch then A.Activate(shop[id], now) else shop[id]
  }

  function FinalizeAll(shop: Shop, batch: set<nat>, now: int, windowMs: int): Shop {
    map id | id in shop :: if id in batch then A.Finalize(shop[id], now, windowMs) else shop[id]
  }

  function ExpireAll(shop: Shop, batch: set<nat>, now: int): Shop {
    map id | id in shop :: if id in batch then A.Expire(shop[id], now) else shop[id]
  }

  /** The three batches one sweep picked. */
  datatype Picks = Picks(started: set<nat>, overdue: set<nat>, lapsed: set<nat>)

  function Sweep(shop: Shop, p: Picks, now: int, windowMs: int): Shop {
    ExpireAll(FinalizeAll(ActivateAll(shop, p.started, now), p.overdue, now, windowMs), p.lapsed, now)
  }

  /** Each batch is picked from the state the sweep's earlier loops left. */
  predicate IsSweep(shop: Shop, p: Picks, now: int, windowMs: int) {
    var activated := ActivateAll(shop, p.started, now);
    var finalized := FinalizeAll(activated, p.overdue, now, windowMs);
    && IsBatch(p.started, Startable(shop, now))
    && IsBatch(p.overdue, Overdue(activated, now))
    && IsBatch(p.lapsed, Lapsed(finalized, now))
  }

  lemma ActivatePhase(shop: Shop, batch: set<nat>, now: int)
    ensures var shop' := ActivateAll(shop, batch, now);
            && Startable(shop', now) == Startable(shop, now) - batch
            && Overdue(shop', now) == Overdue(shop, now) && Lapsed(shop', now) == Lapsed(shop, now)
  {}

  lemma FinalizePhase(shop: Shop, batch: set<nat>, now: int, windowMs: int)
    requires windowMs > 0
    ensures var shop' := FinalizeAll(shop, batch, now, windowMs);
            && Overdue(shop', now) == Overdue(shop, now) - batch
            && Startable(shop', now) == Startable(shop, now) && Lapsed(shop', now) == Lapsed(shop, now)
  {}

  lemma ExpirePhase(shop: Shop, batch: set<nat>, now: int)
    ensures var shop' := ExpireAll(shop, batch, now);
            && Lapsed(shop', now) == Lapsed(shop, now) - batch
            && Startable(shop', now) == Startable(shop, now) && Overdue(shop', now) == Overdue(shop, now)
  {}

  /**
   With a positive purchase window, one sweep removes exactly
   its batches from the three work lists and adds nothing.
   */
  lemma SweepRemovesBatches(shop: Shop, p: Picks, now: int, windowMs: int)
    requires IsSweep(shop, p, now, windowMs) && windowMs > 0
    ensures var shop' := Sweep(shop, p, now, windowMs);
            && Startable(shop', now) == Startable(shop, now) - p.started
            && Overdue(shop', now) == Overdue(shop, now) - p.overdue
            && Lapsed(shop', now) == Lapsed(shop, now) - p.lapsed
    ensures IsBatch(p.overdue, Overdue(shop, now)) && IsBatch(p.lapsed, Lapsed(shop, now))
  {
    var activated := ActivateAll(shop, p.started, now);
    var finalized := FinalizeAll(activated, p.overdue, now, windowMs);
    ActivatePhase(shop, p.started, now);
    FinalizePhase(activated, p.overdue, now, windowMs);
    ExpirePhase(finalized, p.lapsed, now);
  }

  lemma BatchRemoved(batch: set<nat>, matching: set<nat>)
    requires IsBatch(batch, matching)
    ensures |matching - batch| == Monus(|matching|, BATCH_SIZE)
  {}

  lemma SweepTakesBatches(shop: Shop, p: Picks, now: int, windowMs: int)
    requires IsSweep(shop, p, now, windowMs) && windowMs > 0
    ensures var shop' := Sweep(shop, p, now, windowMs);
            && |Startable(shop', now)| == Monus(|Startable(shop, now)|, BATCH_SIZE)
            && |Overdue(shop', now)| == Monus(|Overdue(shop, now)|, BATCH_SIZE)
            && |Lapsed(shop', now)| == Monus(|Lapsed(shop, now)|, BATCH_SIZE)
  {
    SweepRemovesBatches(shop, p, now, windowMs);
    BatchRemoved(p.started, Startable(shop, now));
    BatchRemoved(p.overdue, Overdue(shop, now));
    BatchRemoved(p.lapsed, Lapsed(shop, now));
  }

  function Sweeps(shop: Shop, picks: seq<Picks>, now: int, windowMs: int): Shop {
    if picks == [] then shop else Sweeps(Sweep(shop, picks[0], now, windowMs), picks[1..], now, windowMs)
  }

  predicate AreSweeps(shop: Shop, picks: seq<Picks>, now: int, windowMs: int) {
    || picks == []
    || (&& IsSweep(shop, picks[0], now, windowMs)
        && AreSweeps(Sweep(shop, picks[0], now, windowMs), picks[1..], now, windowMs))
  }

  /**
   With the clock fixed, k sweeps take exactly 50k auctions (or all there are) off each work list, whichever
   rows the queries return. So nothing is overdue or lapsed after a fiftieth of the backlog, rounded up, and not before.
   */
  lemma {:induction false} SweepsConverge(shop: Shop, picks: seq<Picks>, now: int, windowMs: int)
    requires AreSweeps(shop, picks, now, windowMs) && windowMs > 0
    ensures var shop' := Sweeps(shop, picks, now, windowMs);
            && |Startable(shop', now)| == Monus(|Startable(shop, now)|, 50 * |picks|)
            && |Overdue(shop', now)| == Monus(|Overdue(shop, now)|, 50 * |picks|)
            && |Lapsed(shop', now)| == Monus(|Lapsed(shop, now)|, 50 * |picks|)
  {
    if picks != [] {
      hide Sweep, IsSweep, Startable, Overdue, Lapsed;
      SweepTakesBatches(shop, picks[0], now, windowMs);
      SweepsConverge(Sweep(shop, picks[0], now, windowMs), picks[1..], now, windowMs);
    }
  }

  /** The backlog a sweep can still shrink. */
  function Rank(shop: Shop, now: int): nat {
    |Startable(shop, now)| + |Overdue(shop, now)| + |Lapsed(shop, now)|
  }

  /** Every sweep strictly shrinks the backlog until there is none. */
  lemma SweepShrinksBacklog(shop: Shop, p: Picks, now: int, windowMs: int)
    requires IsSweep(shop, p, now, windowMs) && windowMs > 0
    ensures Rank(shop, now) > 0 ==> Rank(Sweep(shop, p, now, windowMs), now) < Rank(shop, now)
    ensures Rank(shop, now) == 0 ==> Sweep(shop, p, now, windowMs) == shop
  {
    SweepRemovesBatches(shop, p, now, windowMs);
    SweepTakesBatches(shop, p, now, windowMs);
  }

  function AsSet(ids: seq<nat>): set<nat> {
    set id | id in ids
  }

  predicate Distinct(ids: seq<nat>) {
    forall i, j | 0 <= i < j < |ids| :: ids[i] != ids[j]
  }

  class AuctionReconciliationService {
    var shop: Shop
    var isRunning: bool
    const windowMs: int

    constructor (shop: Shop, windowMs: int)
      ensures this.shop == shop && !isRunning && this.windowMs == windowMs
    {
      this.shop, this.windowMs, isRunning := shop, windowMs, false;
    }

    /** find({ where, take: BATCH_SIZE }): which rows come back is the database's choice. */
    static method FindBatch(matching: set<nat>) returns (found: seq<nat>)
      ensures IsBatch(AsSet(found), matching)
      ensures Distinct(found)
    {
      found := [];
      var rest := matching;
      while rest != {} && |found| < BATCH_SIZE
        invariant AsSet(found) == matching - rest && rest <= matching
        invariant Distinct(found)
        invariant |found| == |matching| - |rest| && |found| <= BATCH_SIZE
        decreases |rest|
      {
        var id :| id in rest;
        ghost var before := found;
        found, rest := found + [id], rest - {id};
        assert AsSet(found) == AsSet(before) + {id};
      }
      assert matching == (matching - rest) + rest && (matching - rest) * rest == {};
    }

    /**
     A sweep that finds another in progress does nothing;
     otherwise it picks its batches and applies all three loops.
     */
    method Reconcile(now: int) returns (ghost picks: Picks)
      modifies this
      ensures old(isRunning) ==> shop == old(shop)
      ensures !old(isRunning) ==>
                IsSweep(old(shop), picks, now, windowMs) && shop == Sweep(old(shop), picks, now, windowMs)
      ensures isRunning == old(isRunning)
    {
      picks := Picks({}, {}, {});
      if isRunning {
        return;
      }
      isRunning := true;
      var started := FindBatch(Startable(shop, now));
      ActivateEach(started, now);
      var overdue := FindBatch(Overdue(shop, now));
      FinalizeEach(overdue, now);
      var lapsed := FindBatch(Lapsed(shop, now));
      ExpireEach(lapsed, now);
      picks := Picks(AsSet(started), AsSet(overdue), AsSet(lapsed));
      isRunning := false;
    }

    method ActivateEach(ids: seq<nat>, now: int)
      requires AsSet(ids) <= shop.Keys
      requires Distinct(ids)
      modifies `shop
      ensures shop == ActivateAll(old(shop), AsSet(ids), now)
    {
      for i := 0 to |ids|
        invariant shop == ActivateAll(old(shop), AsSet(ids[..i]), now)
      {
        assert ids[i] !in ids[..i];
        shop := shop[ids[i] := A.Activate(shop[ids[i]], now)];
        assert AsSet(ids[..i + 1]) == AsSet(ids[..i]) + {ids[i]};
      }
      assert ids[..|ids|] == ids;
    }

    method FinalizeEach(ids: seq<nat>, now: int)
      requires AsSet(ids) <= shop.Keys
      requires Distinct(ids)
      modifies `shop
      ensures shop == FinalizeAll(old(shop), AsSet(ids), now, windowMs)
    {
      for i := 0 to |ids|
        invariant shop == FinalizeAll(old(shop), AsSet(ids[..i]), now, windowMs)
      {
        assert ids[i] !in ids[..i];
        shop := shop[ids[i] := A.Finalize(shop[ids[i]], now, windowMs)];
        assert AsSet(ids[..i + 1]) == AsSet(ids[..i]) + {ids[i]};
      }
      assert ids[..|ids|] == ids;
    }

    method ExpireEach(ids: seq<nat>, now: int)
      requires AsSet(ids) <= shop.Keys
      requires Distinct(ids)
      modifies `shop
      ensures shop == ExpireAll(old(shop), AsSet(ids), now)
    {
      for i := 0 to |ids|
        invariant shop == ExpireAll(old(shop), AsSet(ids[..i]), now)
      {
        assert ids[i] !in ids[..i];
        shop := shop[ids[i] := A.Expire(shop[ids[i]], now)];
        assert AsSet(ids[..i + 1]) == AsSet(ids[..i]) + {ids[i]};
      }
      assert ids[..|ids|] == ids;
    }
  }
}
