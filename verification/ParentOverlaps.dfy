/** What overlapping transactions of one order can do to its parent, and that nothing sets it right afterwards. */
module ParentOverlaps {
  import opened Results
  import opened CartSplit
  import opened OrderBooks
  import opened ParentOrders
  import opened LifecycleRuns
  import Conservation

  // ---------------------------------------------------------------------
  // Orders that can no longer be set right
  // ---------------------------------------------------------------------

  /** Every seller order of this order is delivered or cancelled. */
  predicate Finished(b: Books, order: nat) {
    && order < |b.orders|
    && forall so | so in b.sellerOrders && so.order == order :: so.status.Delivered? || so.status.Cancelled?
  }

  lemma FinishedStep(b: Books, policy: Policy, step: Step, order: nat)
    requires Finished(b, order) && Delivered !in policy.cancellable
    ensures Accepted(b, policy, step) ==> step.id < |b.sellerOrders| && b.sellerOrders[step.id].order != order
    ensures Finished(Apply(b, policy, step), order)
         && Derived(Apply(b, policy, step), order) == Derived(b, order)
  {
    var b' := Apply(b, policy, step);
    if step.DoCheckout? || step.DoPurchase? {
      SaleAddsRows(b, policy, step);
      ChildrenOfPrefix(b.sellerOrders, b'.sellerOrders, order);
    } else if step.DoDeliver? || step.DoRefund? {
      RowStepWrites(b, policy, step);
      FinishedRow(b, b', step.id, order);
    } else if Accepted(b, policy, step) {
      AcceptedWrites(b, policy, step);
      assert b.sellerOrders[step.id] in b.sellerOrders;
      FinishedRow(b, b', step.id, order);
    }
  }

  lemma FinishedRow(b: Books, b': Books, id: nat, order: nat)
    requires Finished(b, order) && b'.orders == b.orders
    requires b'.sellerOrders == b.sellerOrders
          || (&& id < |b.sellerOrders| == |b'.sellerOrders|
              && b'.sellerOrders == b.sellerOrders[id := b'.sellerOrders[id]]
              && b'.sellerOrders[id].order == b.sellerOrders[id].order
              && (b.sellerOrders[id].order == order ==>
                    || b.sellerOrders[id].status.AwaitingFulfillment?
                    || b'.sellerOrders[id].status == b.sellerOrders[id].status))
    ensures Finished(b', order) && Derived(b', order) == Derived(b, order)
  {
    hide Derive, ChildStatuses;
    if b'.sellerOrders != b.sellerOrders {
      assert b.sellerOrders[id] in b.sellerOrders;
      ChildrenAfter(b.sellerOrders, id, b'.sellerOrders[id], order);
      forall so | so in b'.sellerOrders && so.order == order
        ensures so.status.Delivered? || so.status.Cancelled?
      {
        assert so == b'.sellerOrders[id] || so in b.sellerOrders;
      }
    }
  }

  lemma FinishedTake(s: Session, policy: Policy, step: LifeStep, order: nat)
    requires Sound(s, policy) && Finished(s.parents.books, order) && Delivered !in policy.cancellable
    ensures var q := Take(s, policy, step).parents;
            && Finished(q.books, order) && Derived(q.books, order) == Derived(s.parents.books, order)
            && order < |s.parents.statuses| <= |q.statuses| && q.statuses[order] == s.parents.statuses[order]
  {
    var b := s.parents.books;
    if step.DoWhole? {
      if step.step.DoUpdateStatus? || step.step.DoCancel? || WaitsForRow(s, step.step) {
        return;
      }
      FinishedStep(b, policy, step.step, order);
      NextLeavesStatuses(s.parents, policy, step.step);
      hide Apply, Finished, Derived, Next, Sound;
    } else if step.DoCommit? && CanCommit(s, step.row) {
      assert DraftFits(s, policy, step.row);
      FinishedStep(b, policy, s.open[step.row].draft.step, order);
      hide Apply, Finished, Derived, Accepted;
    }
  }

  /** Once all its seller orders are delivered or cancelled, no run whatever stores another status for the order. */
  lemma {:induction false} FinishedStays(s: Session, policy: Policy, steps: seq<LifeStep>, order: nat)
    requires Sound(s, policy) && Finished(s.parents.books, order) && Delivered !in policy.cancellable
    ensures var q := RunLife(s, policy, steps).parents;
            && Finished(q.books, order) && Derived(q.books, order) == Derived(s.parents.books, order)
            && order < |s.parents.statuses| <= |q.statuses| && q.statuses[order] == s.parents.statuses[order]
    decreases |steps|
  {
    if steps != [] {
      TakeKeeps(s, policy, steps[0]);
      FinishedTake(s, policy, steps[0], order);
      hide Sound, Take, Finished, Derived;
      FinishedStays(Take(s, policy, steps[0]), policy, steps[1..], order);
    } else {
      assert order < |s.parents.statuses|;
    }
  }

  /** A commit writes what it derived exactly when every look at the parent found something else. */
  lemma CommitStores(p: Parents, policy: Policy, order: nat, d: Draft)
    requires IsReady(d) && order < |p.statuses| && |d.looks| <= 2
    ensures var q := Commit(p, policy, order, d);
            && |q.statuses| == |p.statuses|
            && q.statuses[order] == (if d.next in d.looks then p.statuses[order] else d.next)
            && (forall k: nat | k < |p.statuses| && k != order :: q.statuses[k] == p.statuses[k])
            && q.moves == p.moves + (if d.looks[0] == d.next then [] else [Move(order, d.looks[0], d.next)])
  {
    hide Apply;
  }

  // ---------------------------------------------------------------------
  // Two transactions of one order that overlap
  // ---------------------------------------------------------------------

  /** Both write and derive, both look, and then both commit. */
  function Overlap(first: Step, second: Step): seq<LifeStep>
    requires (first.DoUpdateStatus? || first.DoCancel?) && (second.DoUpdateStatus? || second.DoCancel?)
  {
    var i, j := first.id, second.id;
    [DoWrite(first), DoWrite(second), DoLook(i), DoLook(j), DoLook(i), DoLook(j), DoCommit(i), DoCommit(j)]
  }

  lemma RunFrom(s: Session, policy: Policy, steps: seq<LifeStep>, k: nat)
    requires k < |steps|
    ensures RunLife(s, policy, steps[k..]) == RunLife(Take(s, policy, steps[k]), policy, steps[k + 1..])
  {}

  predicate CanOverlap(s: Session, policy: Policy, first: Step, second: Step) {
    && s.open == map[] && Accepted(s.parents.books, policy, first) && Accepted(s.parents.books, policy, second)
    && first.id != second.id && OrderOf(s, first.id) == OrderOf(s, second.id) < |s.parents.statuses|
  }

  function WithOpen(s: Session, i: nat, di: Draft, j: nat, dj: Draft): Session {
    s.(open := map[i := Open(di, |s.commits|), j := Open(dj, |s.commits|)])
  }

  lemma BothWrite(s: Session, policy: Policy, first: Step, second: Step)
    requires CanOverlap(s, policy, first, second)
    ensures var di := Begin(s.parents, policy, first);
            var dj := Begin(s.parents, policy, second);
            Take(Take(s, policy, DoWrite(first)), policy, DoWrite(second))
              == WithOpen(s, first.id, di, second.id, dj)
  {
    var i, j := first.id, second.id;
    var di := Open(Begin(s.parents, policy, first), |s.commits|);
    hide Accepted, Begin;
    assert s.open[i := di] == map[i := di];
    assert Take(s, policy, DoWrite(first)) == s.(open := map[i := di]);
  }

  lemma OneLooks(s: Session, policy: Policy, id: nat)
    requires id in s.open && OrderOf(s, id) < |s.parents.statuses|
    ensures var looked := Look(s.parents, OrderOf(s, id), s.open[id].draft);
            Take(s, policy, DoLook(id)) == s.(open := s.open[id := s.open[id].(draft := looked)])
  {}

  lemma BothLook(s: Session, policy: Policy, i: nat, di: Draft, j: nat, dj: Draft)
    requires i != j && OrderOf(s, i) == OrderOf(s, j) < |s.parents.statuses|
    ensures var order := OrderOf(s, i);
            Take(Take(WithOpen(s, i, di, j, dj), policy, DoLook(i)), policy, DoLook(j))
              == WithOpen(s, i, Look(s.parents, order, di), j, Look(s.parents, order, dj))
  {
    hide Look, Take;
    var order := OrderOf(s, i);
    var looked := WithOpen(s, i, Look(s.parents, order, di), j, dj);
    OneLooks(WithOpen(s, i, di, j, dj), policy, i);
    OneLooks(looked, policy, j);
    var last := Open(Look(s.parents, order, dj), |s.commits|);
    assert WithOpen(s, i, di, j, dj).open[i := looked.open[i]] == looked.open;
    assert looked.open[j := last] == map[i := looked.open[i], j := last];
  }

  /** What a draft looks like when both its looks found `stored`. */
  predicate HasLooked(d: Draft, step: Step, next: OrderStatus, stored: OrderStatus) {
    d.step == step && d.next == next && d.looks == if stored == next then [stored] else [stored, stored]
  }

  lemma OneCommits(s: Session, policy: Policy, id: nat, step: Step, next: OrderStatus, seen: OrderStatus)
    requires id in s.open && HasLooked(s.open[id].draft, step, next, seen)
    requires OrderOf(s, id) < |s.parents.statuses|
    ensures var q, order := Take(s, policy, DoCommit(id)), OrderOf(s, id);
            && q.parents.books == Apply(s.parents.books, policy, step) && q.open == s.open - {id}
            && q.parents.statuses == if seen != next then s.parents.statuses[order := next] else s.parents.statuses
  {
    hide Apply;
  }

  lemma BothCommit(
    s: Session, policy: Policy, first: Step, second: Step, di: Draft, dj: Draft, ni: OrderStatus, nj: OrderStatus)
    requires CanOverlap(s, policy, first, second)
    requires HasLooked(di, first, ni, s.parents.statuses[OrderOf(s, first.id)])
    requires HasLooked(dj, second, nj, s.parents.statuses[OrderOf(s, first.id)])
    ensures var order := OrderOf(s, first.id); var stored := s.parents.statuses[order];
            var q := Take(Take(WithOpen(s, first.id, di, second.id, dj), policy, DoCommit(first.id)),
                          policy, DoCommit(second.id));
            && q.parents.books == Apply(Apply(s.parents.books, policy, first), policy, second)
            && |q.parents.statuses| == |s.parents.statuses| && q.open == map[]
            && q.parents.statuses[order] == if stored != nj then nj else if stored != ni then ni else stored
  {
    var i, j, order := first.id, second.id, OrderOf(s, first.id);
    var stored, both := s.parents.statuses[order], WithOpen(s, i, di, j, dj);
    assert both.open[i].draft == di && both.parents == s.parents && OrderOf(both, i) == order;
    assert both.open - {i} == map[j := Open(dj, |s.commits|)];
    assert OrderOf(s, j) == order && i != j;
    hide Apply, Take, HasLooked, WithOpen, CanOverlap;
    OneCommits(both, policy, i, first, ni, stored);
    var once := Take(both, policy, DoCommit(i));
    SameOrder(s, once, policy, first, j);
    hide OrderOf, Accepted;
    assert once.open - {j} == map[];
    OneCommits(once, policy, j, second, nj, stored);
  }

  lemma SameOrder(s: Session, q: Session, policy: Policy, step: Step, id: nat)
    requires Accepted(s.parents.books, policy, step) && q.parents.books == Apply(s.parents.books, policy, step)
    ensures OrderOf(q, id) == OrderOf(s, id)
  {
    AcceptedWrites(s.parents.books, policy, step);
    hide Apply, Accepted;
  }

  /**
   Each side of an overlap derives without the other, so the later commit that stores anything wins: the stored status
   knows one of the two changes at most.
   */
  lemma OverlapRuns(s: Session, policy: Policy, first: Step, second: Step)
    requires CanOverlap(s, policy, first, second)
    ensures var order := OrderOf(s, first.id); var stored := s.parents.statuses[order];
            var ni := DerivedWith(s.parents.books, policy, first, order);
            var nj := DerivedWith(s.parents.books, policy, second, order);
            var q := RunLife(s, policy, Overlap(first, second));
            && q.parents.books == Apply(Apply(s.parents.books, policy, first), policy, second)
            && |q.parents.statuses| == |s.parents.statuses| && q.open == map[]
            && q.parents.statuses[order] == if stored != nj then nj else if stored != ni then ni else stored
  {
    var di, dj := OverlapLooks(s, policy, first, second);
    var order, b := OrderOf(s, first.id), s.parents.books;
    var ready, steps := WithOpen(s, first.id, di, second.id, dj), Overlap(first, second);
    BothCommit(s, policy, first, second, di, dj, di.next, dj.next);
    assert steps[6] == DoCommit(first.id) && steps[7] == DoCommit(second.id) && steps[8..] == [];
    hide Take, Apply, Accepted, RunLife, WithOpen, DerivedWith, OrderOf, CanOverlap, HasLooked, Overlap;
    RunTwo(ready, policy, steps, 6);
    RunNothing(RunLife(s, policy, steps), policy);
  }

  lemma OverlapLooks(s: Session, policy: Policy, first: Step, second: Step) returns (di: Draft, dj: Draft)
    requires CanOverlap(s, policy, first, second)
    ensures var order, b := OrderOf(s, first.id), s.parents.books;
            && HasLooked(di, first, DerivedWith(b, policy, first, order), s.parents.statuses[order])
            && HasLooked(dj, second, DerivedWith(b, policy, second, order), s.parents.statuses[order])
    ensures RunLife(s, policy, Overlap(first, second))
         == RunLife(WithOpen(s, first.id, di, second.id, dj), policy, Overlap(first, second)[6..])
  {
    var order, p := OrderOf(s, first.id), s.parents;
    var i, j, steps := first.id, second.id, Overlap(first, second);
    var d0, e0 := Begin(p, policy, first), Begin(p, policy, second);
    var d1, e1 := Look(p, order, d0), Look(p, order, e0);
    di, dj := Look(p, order, d1), Look(p, order, e1);
    LookedTwice(p, policy, first);
    LookedTwice(p, policy, second);
    BothWrite(s, policy, first, second);
    BothLook(s, policy, i, d0, j, e0);
    BothLook(s, policy, i, d1, j, e1);
    hide Take, Begin, Look, Apply, Accepted, RunLife, WithOpen, DerivedWith, OrderOf, CanOverlap, HasLooked;
    assert steps[0..] == steps;
    RunTwo(s, policy, steps, 0);
    RunTwo(WithOpen(s, i, d0, j, e0), policy, steps, 2);
    RunTwo(WithOpen(s, i, d1, j, e1), policy, steps, 4);
  }

  lemma LookedTwice(p: Parents, policy: Policy, step: Step)
    requires Accepted(p.books, policy, step)
    ensures step.id < |p.books.sellerOrders|
    ensures var order := p.books.sellerOrders[step.id].order;
            && Begin(p, policy, step).next == DerivedWith(p.books, policy, step, order)
            && (order < |p.statuses| ==>
                  var d := Begin(p, policy, step);
                  HasLooked(Look(p, order, Look(p, order, d)), step, d.next, p.statuses[order]))
  {
    AcceptedWrites(p.books, policy, step);
    hide Apply, Accepted, Derived;
  }

  lemma RunTwo(s: Session, policy: Policy, steps: seq<LifeStep>, k: nat)
    requires k + 1 < |steps|
    ensures RunLife(s, policy, steps[k..])
         == RunLife(Take(Take(s, policy, steps[k]), policy, steps[k + 1]), policy, steps[k + 2..])
  {
    hide Take;
    RunFrom(s, policy, steps, k);
    RunFrom(Take(s, policy, steps[k]), policy, steps, k + 1);
  }

  lemma RunNothing(s: Session, policy: Policy)
    ensures RunLife(s, policy, []) == s
  {}

  lemma {:induction false} RunOn(s: Session, policy: Policy, steps: seq<LifeStep>, more: seq<LifeStep>)
    ensures RunLife(s, policy, steps + more) == RunLife(RunLife(s, policy, steps), policy, more)
    decreases |steps|
  {
    hide Take;
    if steps == [] {
      assert steps + more == more;
    } else {
      assert (steps + more)[1..] == steps[1..] + more;
      RunOn(Take(s, policy, steps[0]), policy, steps[1..], more);
    }
  }

  lemma {:induction false} ChildrenWithin(rows: seq<SellerOrder>, order: nat, allowed: set<Status>)
    requires forall so | so in rows && so.order == order :: so.status in allowed
    ensures forall st | st in ChildStatuses(rows, order) :: st in allowed
  {
    if rows != [] {
      assert rows[|rows| - 1] in rows;
      ChildrenWithin(rows[..|rows| - 1], order, allowed);
    }
  }

  lemma ChildOf(rows: seq<SellerOrder>, i: nat)
    requires i < |rows|
    ensures rows[i].status in ChildStatuses(rows, rows[i].order)
  {
    ChildrenAfter(rows, i, rows[i], rows[i].order);
  }

  /** All children in one of two statuses, and both statuses occurring. */
  lemma DerivesFrom(rows: seq<SellerOrder>, i: nat, j: nat, parent: OrderStatus)
    requires i < |rows| && j < |rows| && rows[i].order == rows[j].order
    requires forall so | so in rows && so.order == rows[i].order :: so.status in {rows[i].status, rows[j].status}
    requires Means({rows[i].status, rows[j].status}, parent)
    ensures Derive(ChildStatuses(rows, rows[i].order)) == parent
  {
    hide Derive, Means;
    var children := ChildStatuses(rows, rows[i].order);
    ChildrenWithin(rows, rows[i].order, {rows[i].status, rows[j].status});
    ChildOf(rows, i);
    ChildOf(rows, j);
    assert Present(children) == {rows[i].status, rows[j].status};
    DeriveMeans(children, parent);
  }

  /** Two rows of one order that differ from `done` in the same way, every other row of it being done. */
  predicate LastTwo(s: Session, i: nat, j: nat, done: Status) {
    var rows := s.parents.books.sellerOrders;
    && i < |rows| && j < |rows| && i != j && rows[i].order == rows[j].order
    && forall k: nat | k < |rows| && k != i && k != j && rows[k].order == rows[i].order :: rows[k].status == done
  }

  /** Each side sees the other's old status; together they finish the order. */
  lemma LastTwoDerive(s: Session, policy: Policy, first: Step, second: Step, partial: OrderStatus, whole: OrderStatus)
    requires Accepted(s.parents.books, policy, first) && Accepted(s.parents.books, policy, second)
    requires Target(first) == Target(second) && LastTwo(s, first.id, second.id, Target(first))
    requires var rows := s.parents.books.sellerOrders;
             && Means({Target(first), rows[first.id].status}, partial)
             && Means({Target(first), rows[second.id].status}, partial) && Means({Target(first)}, whole)
    ensures first.id < |s.parents.books.sellerOrders|
    ensures var order := OrderOf(s, first.id); var b := s.parents.books;
            var b' := Apply(Apply(b, policy, first), policy, second);
            && DerivedWith(b, policy, first, order) == partial && DerivedWith(b, policy, second, order) == partial
            && b'.orders == b.orders && |b'.sellerOrders| == |b.sellerOrders| && Derived(b', order) == whole
            && forall so | so in b'.sellerOrders && so.order == order :: so.status == Target(first)
  {
    var b, done := s.parents.books, Target(first);
    var rows, i, j := b.sellerOrders, first.id, second.id;
    AcceptedWrites(b, policy, first);
    AcceptedWrites(b, policy, second);
    CommitLeaves(b, policy, first, second);
    var b1 := Apply(b, policy, first);
    AcceptedWrites(b1, policy, second);
    hide Apply, Accepted, Derive, ChildStatuses, Means;
    TwoRowsDerive(rows, i, j, done, partial, whole);
  }

  lemma TwoRowsDerive(
    rows: seq<SellerOrder>, i: nat, j: nat, done: Status, partial: OrderStatus, whole: OrderStatus)
    requires i < |rows| && j < |rows| && i != j && rows[i].order == rows[j].order
    requires forall k: nat | k < |rows| && k != i && k != j && rows[k].order == rows[i].order :: rows[k].status == done
    requires Means({done, rows[i].status}, partial) && Means({done, rows[j].status}, partial) && Means({done}, whole)
    ensures var one, other := rows[i := rows[i].(status := done)], rows[j := rows[j].(status := done)];
            var two, order := one[j := rows[j].(status := done)], rows[i].order;
            && Derive(ChildStatuses(one, order)) == partial && Derive(ChildStatuses(other, order)) == partial
            && Derive(ChildStatuses(two, order)) == whole
            && forall so | so in two && so.order == order :: so.status == done
  {
    hide Derive, ChildStatuses, Means;
    var one, other := rows[i := rows[i].(status := done)], rows[j := rows[j].(status := done)];
    DerivesFrom(one, i, j, partial);
    DerivesFrom(other, j, i, partial);
    assert {done, done} == {done};
    DerivesFrom(one[j := rows[j].(status := done)], i, j, whole);
  }

  /**
   Two sellers who deliver the last two open parts of one order in overlapping transactions leave it partially
   completed, though all of it is delivered, and no later run sets it right.
   */
  lemma OverlappingDeliveries(s: Session, policy: Policy, i: nat, j: nat, more: seq<LifeStep>)
    requires Sound(s, policy) && s.open == map[] && LastTwo(s, i, j, Delivered) && Delivered !in policy.cancellable
    requires s.parents.books.sellerOrders[i].status.Shipped? && s.parents.books.sellerOrders[j].status.Shipped?
    ensures var order, steps := OrderOf(s, i), Overlap(DoUpdateStatus(i, Delivered), DoUpdateStatus(j, Delivered));
            var q := RunLife(s, policy, steps + more).parents;
            && order < |q.statuses| && q.statuses[order].PartiallyCompleted? && Derived(q.books, order).Completed?
  {
    var first, second := DoUpdateStatus(i, Delivered), DoUpdateStatus(j, Delivered);
    RowHasParent(s, i);
    LastTwoDerive(s, policy, first, second, PartiallyCompleted, Completed);
    OverlapStays(s, policy, first, second, PartiallyCompleted, more);
  }

  /** Two overlapping cancellations of an order's last two parts leave it partially cancelled for good. */
  lemma OverlappingCancellations(s: Session, policy: Policy, i: nat, j: nat, now: int, more: seq<LifeStep>)
    requires Sound(s, policy) && s.open == map[] && LastTwo(s, i, j, Cancelled) && Delivered !in policy.cancellable
    requires CancelOutcome(s.parents.books, policy, i) == Ok(true)
    requires CancelOutcome(s.parents.books, policy, j) == Ok(true)
    ensures var order, steps := OrderOf(s, i), Overlap(DoCancel(i, now), DoCancel(j, now));
            var q := RunLife(s, policy, steps + more).parents;
            && order < |q.statuses| && q.statuses[order].PartiallyCancelled? && Derived(q.books, order).AllCancelled?
  {
    var first, second := DoCancel(i, now), DoCancel(j, now);
    RowHasParent(s, i);
    LastTwoDerive(s, policy, first, second, PartiallyCancelled, AllCancelled);
    OverlapStays(s, policy, first, second, PartiallyCancelled, more);
  }

  lemma OverlapStays(
    s: Session, policy: Policy, first: Step, second: Step, partial: OrderStatus, more: seq<LifeStep>)
    requires Sound(s, policy) && CanOverlap(s, policy, first, second) && Delivered !in policy.cancellable
    requires var order, b := OrderOf(s, first.id), s.parents.books;
             && DerivedWith(b, policy, first, order) == partial == DerivedWith(b, policy, second, order)
             && Finished(Apply(Apply(b, policy, first), policy, second), order)
    ensures var order := OrderOf(s, first.id);
            var q := RunLife(s, policy, Overlap(first, second) + more).parents;
            && order < |q.statuses| && q.statuses[order] == partial
            && Derived(q.books, order) == Derived(Apply(Apply(s.parents.books, policy, first), policy, second), order)
  {
    var steps := Overlap(first, second);
    OverlapRuns(s, policy, first, second);
    RunKeepsParents(s, policy, steps);
    hide Sound, Apply, Derived, Finished, RunLife, Overlap;
    RunOn(s, policy, steps, more);
    FinishedStays(RunLife(s, policy, steps), policy, more, OrderOf(s, first.id));
  }

  // ---------------------------------------------------------------------
  // From a fresh marketplace
  // ---------------------------------------------------------------------

  /** A lifecycle transaction with nothing in between. */
  function Alone(step: Step): seq<LifeStep>
    requires step.DoUpdateStatus? || step.DoCancel?
  {
    [DoWrite(step), DoLook(step.id), DoLook(step.id), DoCommit(step.id)]
  }

  lemma AloneCommits(s: Session, policy: Policy, step: Step, o: Open)
    requires Accepted(s.parents.books, policy, step) && OrderOf(s, step.id) < |s.parents.statuses|
    requires var p, order := s.parents, OrderOf(s, step.id);
             o.draft == Look(p, order, Look(p, order, Begin(p, policy, step)))
    ensures var q := Take(s.(open := map[step.id := o]), policy, DoCommit(step.id));
            q.parents == Next(s.parents, policy, step) && q.open == map[]
  {
    WholeIsNext(s.parents, policy, step);
    var id := step.id;
    var last := s.(open := map[id := o]);
    assert o.draft.step == step;
    assert last.open - {id} == map[];
    hide Apply, Accepted, Begin, Look, Next, Commit;
    TakesCommit(last, policy, id);
  }

  lemma TakesCommit(s: Session, policy: Policy, id: nat)
    requires CanCommit(s, id)
    ensures var q := Take(s, policy, DoCommit(id));
            q.parents == Commit(s.parents, policy, OrderOf(s, id), s.open[id].draft) && q.open == s.open - {id}
  {
    hide Commit;
  }

  lemma AloneRuns(s: Session, policy: Policy, step: Step)
    requires s.open == map[] && Accepted(s.parents.books, policy, step) && OrderOf(s, step.id) < |s.parents.statuses|
    ensures var q := RunLife(s, policy, Alone(step));
            q.parents == Next(s.parents, policy, step) && q.open == map[]
  {
    var p, id, order, steps := s.parents, step.id, OrderOf(s, step.id), Alone(step);
    var begun := Begin(p, policy, step);
    var d := Open(begun, |s.commits|);
    var e := Open(Look(p, order, begun), |s.commits|);
    var f := Open(Look(p, order, e.draft), |s.commits|);
    var s1, s2, s3 := s.(open := map[id := d]), s.(open := map[id := e]), s.(open := map[id := f]);
    assert Take(s, policy, steps[0]) == s1;
    AloneCommits(s, policy, step, f);
    OneLooks(s1, policy, id);
    OneLooks(s2, policy, id);
    var s4 := Take(s3, policy, DoCommit(id));
    hide Apply, Accepted, Begin, Look, Next, Commit;
    hide Take, RunLife;
    assert steps[0..] == steps && steps[4..] == [];
    assert map[id := d][id := e] == map[id := e] && map[id := e][id := f] == map[id := f];
    RunTwo(s, policy, steps, 0);
    RunTwo(s2, policy, steps, 2);
    RunNothing(s4, policy);
  }

  function Fresh(stock: Stock): Session {
    Session(Parents(Conservation.Stocked(stock), [], []), map[], [], {})
  }

  lemma FreshIsSound(stock: Stock, policy: Policy)
    ensures Sound(Fresh(stock), policy)
  {}

  /** One sale, one delivery of its event: the order is in process, its parent is new, and nothing says otherwise. */
  lemma StartLeavesParentBehind(policy: Policy)
    ensures var steps := [DoWhole(Conservation.ONE_SALE), DoWhole(DoDeliver(0, false, false))];
            var p := RunLife(Fresh(Conservation.ONE_STOCKED.stock), policy, steps).parents;
            |p.statuses| == 1 && Lags(p, 0) && p.moves == [] && p.books.sellerOrders[0].status.Processing?
  {
    var empty := Fresh(Conservation.ONE_STOCKED.stock);
    var sale, start := Conservation.ONE_SALE, DoDeliver(0, false, false);
    Conservation.OneSale(policy);
    var sold := Next(empty.parents, policy, sale);
    NextFits(empty.parents, {}, policy, sale);
    assert sold.books.sellerOrders == [Conservation.SOLD] && sold.books.processed == {};
    assert sold.statuses == [New] && sold.moves == [] by {
      assert sold.books.sellerOrders != empty.parents.books.sellerOrders;
    }
    StartsOne(sold.books, policy);
    hide Apply, Derived, ParentsFit;
    var started := Next(sold, policy, start);
    assert started == sold.(books := Apply(sold.books, policy, start));
    var s1, steps := empty.(parents := sold), [DoWhole(sale), DoWhole(start)];
    assert steps[0..] == steps && steps[2..] == [];
    RunTwo(empty, policy, steps, 0);
    OneInProcess(started);
  }

  lemma StartsOne(b: Books, policy: Policy)
    requires b.sellerOrders == [Conservation.SOLD] && b.processed == {}
    ensures var b' := Apply(b, policy, DoDeliver(0, false, false));
            b'.sellerOrders == [Conservation.SOLD.(status := Processing)] && b'.orders == b.orders
  {}

  lemma OneInProcess(p: Parents)
    requires p.books.sellerOrders == [Conservation.SOLD.(status := Processing)] && p.statuses == [New]
    ensures Lags(p, 0)
  {
    var rows := p.books.sellerOrders;
    assert rows[..0] == [] && ChildStatuses([], 0) == [];
    assert ChildStatuses(rows, 0) == [Processing];
    DeriveMeans([Processing], InProcess);
  }

  const PAIR: seq<Line> := [Line(0, 0, 1000, Some(500), true, true, 1), Line(1, 1, 1000, Some(500), true, true, 1)]
  const PAIR_STOCK: Stock := map[0 := 1, 1 := 1]
  const PAIR_SALE := DoCheckout(0, "pair", PAIR, 0)

  /** One order of two seller orders in given statuses, and nothing under way. */
  predicate IsPair(s: Session, policy: Policy, x: Status, y: Status) {
    var b := s.parents.books;
    && Sound(s, policy) && s.open == map[] && |b.sellerOrders| == 2 && |b.orders| == 1
    && b.sellerOrders[0].order == 0 && b.sellerOrders[1].order == 0
    && b.sellerOrders[0].status == x && b.sellerOrders[1].status == y
  }

  lemma PairSplits()
    ensures Split(PAIR) == [Group(0, 1000, [PAIR[0]]), Group(1, 1000, [PAIR[1]])]
  {
    assert PAIR[1..] == [PAIR[1]] && PAIR[1..][1..] == [];
    assert OfSeller(PAIR[1..], 0) == [] && NotOfSeller(PAIR[1..], 0) == [PAIR[1]];
    assert OfSeller(PAIR, 0) == [PAIR[0]];
    SplitOne(PAIR[1]);
  }

  lemma PairIsTaken()
    ensures TakeAll(PAIR_STOCK, PAIR).Some? && FirstRefused(PAIR, 0).None?
  {
    assert PAIR[1..] == [PAIR[1]] && PAIR[1..][1..] == [];
    assert FirstRefused(PAIR, 2).None? && FirstRefused(PAIR, 1).None?;
  }

  lemma PairSells(policy: Policy)
    ensures IsPair(RunLife(Fresh(PAIR_STOCK), policy, [DoWhole(PAIR_SALE)]), policy,
                   AwaitingFulfillment, AwaitingFulfillment)
  {
    var empty, steps := Fresh(PAIR_STOCK), [DoWhole(PAIR_SALE)];
    FreshIsSound(PAIR_STOCK, policy);
    TakeKeeps(empty, policy, steps[0]);
    PairIsTaken();
    PairRows(empty.parents.books, TakeAll(PAIR_STOCK, PAIR).value);
    hide Sound, Place, TakeAll, FirstRefused;
    assert steps[1..] == [];
    RunNothing(Take(empty, policy, steps[0]), policy);
  }

  lemma PairRows(b: Books, stock: Stock)
    requires b.orders == [] && b.sellerOrders == []
    ensures var b' := Place(b, 0, "pair", PAIR, stock, 0);
            && |b'.orders| == 1 && |b'.sellerOrders| == 2
            && forall i | 0 <= i < 2 :: b'.sellerOrders[i].order == 0 && b'.sellerOrders[i].status.AwaitingFulfillment?
  {
    PairSplits();
    hide CommissionOn, TotalCents, ItemsOf, Split;
    var groups := [Group(0, 1000, [PAIR[0]]), Group(1, 1000, [PAIR[1]])];
    var taken := b.(stock := stock, orders := b.orders + [Order(0, "pair", TotalCents(PAIR))]);
    var once := AddSellerOrder(taken, 0, groups[0], 0);
    var twice := AddSellerOrder(once, 0, groups[1], 0);
    assert |twice.sellerOrders| == 2 && twice.orders == taken.orders;
    hide AddSellerOrder;
    var rest := groups[1..];
    assert rest == [groups[1]] && rest[1..] == [];
    assert AddSellerOrders(twice, 0, [], 0) == twice;
    assert AddSellerOrders(once, 0, rest, 0) == twice;
    assert AddSellerOrders(taken, 0, groups, 0) == twice;
  }

  lemma MoveRow(s: Session, policy: Policy, x: Status, y: Status, id: nat, to: Status)
    requires IsPair(s, policy, x, y) && id < 2 && IsForward(if id == 0 then x else y, to)
    ensures IsPair(RunLife(s, policy, Alone(DoUpdateStatus(id, to))), policy,
                   if id == 0 then to else x, if id == 1 then to else y)
  {
    var step := DoUpdateStatus(id, to);
    RunKeepsParents(s, policy, Alone(step));
    AloneRuns(s, policy, step);
    AcceptedWrites(s.parents.books, policy, step);
    hide Sound, RunLife, Alone, Derived;
  }

  function PairShipped(): seq<LifeStep> {
    [DoWhole(PAIR_SALE)] + Alone(DoUpdateStatus(0, Processing)) + Alone(DoUpdateStatus(0, Shipped))
    + Alone(DoUpdateStatus(1, Processing)) + Alone(DoUpdateStatus(1, Shipped))
  }

  lemma PairShips(policy: Policy)
    ensures IsPair(RunLife(Fresh(PAIR_STOCK), policy, PairShipped()), policy, Shipped, Shipped)
  {
    var empty, t1 := Fresh(PAIR_STOCK), [DoWhole(PAIR_SALE)];
    var a2, a3 := Alone(DoUpdateStatus(0, Processing)), Alone(DoUpdateStatus(0, Shipped));
    var a4, a5 := Alone(DoUpdateStatus(1, Processing)), Alone(DoUpdateStatus(1, Shipped));
    PairSells(policy);
    hide RunLife, IsPair, Alone, Fresh;
    var s1 := RunLife(empty, policy, t1);
    MoveRow(s1, policy, AwaitingFulfillment, AwaitingFulfillment, 0, Processing);
    RunOn(empty, policy, t1, a2);
    var s2 := RunLife(s1, policy, a2);
    MoveRow(s2, policy, Processing, AwaitingFulfillment, 0, Shipped);
    RunOn(empty, policy, t1 + a2, a3);
    var s3 := RunLife(s2, policy, a3);
    MoveRow(s3, policy, Shipped, AwaitingFulfillment, 1, Processing);
    RunOn(empty, policy, t1 + a2 + a3, a4);
    var s4 := RunLife(s3, policy, a4);
    MoveRow(s4, policy, Shipped, Processing, 1, Shipped);
    RunOn(empty, policy, t1 + a2 + a3 + a4, a5);
  }

  /**
   From a fresh marketplace: an order of two sellers is shipped by both and delivered by both at once. It stays
   partially completed in every later run, though its children derive completed.
   */
  lemma DeliveredTogether(more: seq<LifeStep>)
    ensures var both := Overlap(DoUpdateStatus(0, Delivered), DoUpdateStatus(1, Delivered));
            var q := RunLife(Fresh(PAIR_STOCK), SOURCE_POLICY, PairShipped() + (both + more)).parents;
            && |q.statuses| > 0 && q.statuses[0].PartiallyCompleted? && Derived(q.books, 0).Completed?
            && !Agrees(q, 0) && !Lags(q, 0)
  {
    var both := Overlap(DoUpdateStatus(0, Delivered), DoUpdateStatus(1, Delivered));
    var shipped := RunLife(Fresh(PAIR_STOCK), SOURCE_POLICY, PairShipped());
    PairShips(SOURCE_POLICY);
    hide RunLife, PairShipped, Sound, Overlap, Derived, Fresh;
    RunOn(Fresh(PAIR_STOCK), SOURCE_POLICY, PairShipped(), both + more);
    OverlappingDeliveries(shipped, SOURCE_POLICY, 0, 1, more);
  }
}
