/**
 Status changes and cancellations as they overlap. Such a transaction locks its own row only. It derives the parent's
 status from the sibling rows committed by then, compares it with the stored one, and commits later, over whatever
 other transactions of the same order have stored in between.
 */
module LifecycleRuns {
  import opened CartSplit
  import opened OrderBooks
  import opened ParentOrders
  import BooksLaws

  // ---------------------------------------------------------------------
  // One transaction
  // ---------------------------------------------------------------------

  /** A transaction between its sibling read and its commit: what it derived, and the stored statuses it has seen. */
  datatype Draft = Draft(step: Step, next: OrderStatus, looks: seq<OrderStatus>)

  /** The row's own write, seen by nobody else yet, and the derivation over it and the committed siblings. */
  function Begin(p: Parents, policy: Policy, step: Step): Draft
    requires Accepted(p.books, policy, step)
  {
    AcceptedWrites(p.books, policy, step);
    Draft(step, Derived(Apply(p.books, policy, step), p.books.sellerOrders[step.id].order), [])
  }

  /** The first look finds the derived status stored already, or a second one is taken when saving. */
  predicate IsReady(d: Draft) {
    d.looks != [] && (d.looks[0] == d.next || |d.looks| >= 2)
  }

  /** Without a parent row there is nothing to compare with, and nothing to store. */
  function Look(p: Parents, order: nat, d: Draft): Draft {
    if IsReady(d) then d
    else if order < |p.statuses| then d.(looks := d.looks + [p.statuses[order]])
    else d.(looks := [d.next])
  }

  /** The save writes the column only if it differs from what the second look saw. */
  predicate Stores(d: Draft)
    requires IsReady(d)
  {
    d.looks[0] != d.next && d.looks[1] != d.next
  }

  /** Everything the transaction wrote becomes visible; a first look that differed is announced, whatever is stored. */
  function Commit(p: Parents, policy: Policy, order: nat, d: Draft): Parents
    requires IsReady(d)
  {
    Parents(Apply(p.books, policy, d.step),
            if Stores(d) && order < |p.statuses| then p.statuses[order := d.next] else p.statuses,
            if d.looks[0] != d.next then p.moves + [Move(order, d.looks[0], d.next)] else p.moves)
  }

  /** With nothing in between, the transaction is the whole step. */
  lemma WholeIsNext(p: Parents, policy: Policy, step: Step)
    requires Accepted(p.books, policy, step)
    ensures step.id < |p.books.sellerOrders|
    ensures var order := p.books.sellerOrders[step.id].order;
            var d := Look(p, order, Look(p, order, Begin(p, policy, step)));
            IsReady(d) && Commit(p, policy, order, d) == Next(p, policy, step)
  {
    hide Apply, Derived;
    AcceptedWrites(p.books, policy, step);
  }

  // ---------------------------------------------------------------------
  // Runs
  // ---------------------------------------------------------------------

  /** `since` is how many lifecycle commits there had been when the transaction read its siblings. */
  datatype Open = Open(draft: Draft, since: nat)

  /**
   `open` holds the transaction that has locked each row; `commits` are the orders of the lifecycle commits so far, and
   `late` those whose last one came after another of the same order that it had not seen.
   */
  datatype Session = Session(parents: Parents, open: map<nat, Open>, commits: seq<nat>, late: set<nat>)

  datatype LifeStep =
    | DoWhole(step: Step) | DoWrite(written: Step) | DoLook(row: nat) | DoCommit(row: nat) | DoAbort(row: nat)

  predicate WaitsForRow(s: Session, step: Step) {
    (step.DoDeliver? || step.DoRefund?) && step.id in s.open
  }

  function OrderOf(s: Session, id: nat): nat {
    if id < |s.parents.books.sellerOrders| then s.parents.books.sellerOrders[id].order else 0
  }

  /** No other lifecycle transaction of the same order has committed since this one read its siblings. */
  predicate InTime(s: Session, id: nat)
    requires id in s.open
  {
    forall i | s.open[id].since <= i < |s.commits| :: s.commits[i] != OrderOf(s, id)
  }

  predicate CanCommit(s: Session, id: nat) {
    id in s.open && IsReady(s.open[id].draft) && OrderOf(s, id) < |s.parents.statuses|
  }

  function Committed(s: Session, policy: Policy, id: nat): Session
    requires CanCommit(s, id)
  {
    var order := OrderOf(s, id);
    Session(Commit(s.parents, policy, order, s.open[id].draft), s.open - {id}, s.commits + [order],
            if InTime(s, id) then s.late - {order} else s.late + {order})
  }

  /** A step that has to wait, or is refused, changes nothing. */
  function Take(s: Session, policy: Policy, step: LifeStep): Session {
    match step
    case DoWhole(st) =>
      if st.DoUpdateStatus? || st.DoCancel? || WaitsForRow(s, st) then s
      else s.(parents := Next(s.parents, policy, st))
    case DoWrite(st) =>
      if Accepted(s.parents.books, policy, st) && st.id !in s.open
      then s.(open := s.open[st.id := Open(Begin(s.parents, policy, st), |s.commits|)]) else s
    case DoLook(id) =>
      if id in s.open && OrderOf(s, id) < |s.parents.statuses|
      then s.(open := s.open[id := s.open[id].(draft := Look(s.parents, OrderOf(s, id), s.open[id].draft))]) else s
    case DoCommit(id) => if CanCommit(s, id) then Committed(s, policy, id) else s
    case DoAbort(id) => s.(open := s.open - {id})
  }

  function RunLife(s: Session, policy: Policy, steps: seq<LifeStep>): Session
    decreases |steps|
  {
    if steps == [] then s else RunLife(Take(s, policy, steps[0]), policy, steps[1..])
  }

  /** The books' own run: each lifecycle step whole, at its commit. */
  function AtomicSteps(s: Session, policy: Policy, steps: seq<LifeStep>): seq<Step>
    decreases |steps|
  {
    if steps == [] then []
    else
      var rest := AtomicSteps(Take(s, policy, steps[0]), policy, steps[1..]);
      match steps[0]
      case DoWhole(st) => if st.DoUpdateStatus? || st.DoCancel? || WaitsForRow(s, st) then rest else [st] + rest
      case DoCommit(id) => if CanCommit(s, id) then [s.open[id].draft.step] + rest else rest
      case _ => rest
  }

  /** However lifecycle transactions overlap, the books run as if each took place whole at its commit. */
  lemma {:induction false} ParentsFollowBooks(s: Session, policy: Policy, steps: seq<LifeStep>)
    ensures RunLife(s, policy, steps).parents.books == Run(s.parents.books, policy, AtomicSteps(s, policy, steps))
    decreases |steps|
  {
    if steps != [] {
      var s' := Take(s, policy, steps[0]);
      ParentsFollowBooks(s', policy, steps[1..]);
      TakeFollowsBooks(s, policy, steps);
      hide Take, AtomicSteps;
    }
  }

  lemma TakeFollowsBooks(s: Session, policy: Policy, steps: seq<LifeStep>)
    requires steps != []
    ensures var s', all := Take(s, policy, steps[0]), AtomicSteps(s, policy, steps);
            var rest := AtomicSteps(s', policy, steps[1..]);
            || (all == rest && s'.parents.books == s.parents.books)
            || (all != [] && all[1..] == rest && s'.parents.books == Apply(s.parents.books, policy, all[0]))
  {
    hide Apply, Derived, Accepted;
  }

  // ---------------------------------------------------------------------
  // What overlapping transactions leave of one another
  // ---------------------------------------------------------------------

  /** What the children of `order` derive once an accepted step is in. */
  function DerivedWith(b: Books, policy: Policy, step: Step, order: nat): OrderStatus {
    Derived(Apply(b, policy, step), order)
  }

  lemma {:induction false} AddedRows(b: Books, order: nat, groups: seq<Group>, now: int)
    ensures var b' := AddSellerOrders(b, order, groups, now);
            && b.sellerOrders <= b'.sellerOrders
            && forall i | |b.sellerOrders| <= i < |b'.sellerOrders| :: b'.sellerOrders[i].order == order
    decreases |groups|
  {
    if groups != [] {
      hide CommissionOn, TotalCents, ItemsOf;
      AddedRows(AddSellerOrder(b, order, groups[0], now), order, groups[1..], now);
    }
  }

  lemma PlacedRows(b: Books, customer: nat, key: string, lines: seq<Line>, stock: Stock, now: int)
    ensures var b' := Place(b, customer, key, lines, stock, now);
            && b.sellerOrders <= b'.sellerOrders && |b'.orders| == |b.orders| + 1
            && forall i | |b.sellerOrders| <= i < |b'.sellerOrders| :: b'.sellerOrders[i].order == |b.orders|
  {
    hide Split, TotalCents, AddSellerOrders, StockEvents, BooksLaws.SumBy;
    var taken := b.(stock := stock, orders := b.orders + [Order(customer, key, TotalCents(lines))]);
    AddedRows(taken, |b.orders|, Split(lines), now);
    PlaceAddsOrder(b, customer, key, lines, stock, now);
  }

  lemma {:induction false} ChildrenOfPrefix(rows: seq<SellerOrder>, more: seq<SellerOrder>, order: nat)
    requires rows <= more && forall i | |rows| <= i < |more| :: more[i].order != order
    ensures ChildStatuses(more, order) == ChildStatuses(rows, order)
    decreases |more|
  {
    if |more| > |rows| {
      ChildrenOfPrefix(rows, more[..|more| - 1], order);
    } else {
      assert more == rows;
    }
  }

  /** Rows that a step other than a lifecycle transaction adds or rewrites. */
  predicate LeavesRow(b: Books, b': Books, id: nat) {
    && id < |b.sellerOrders| <= |b'.sellerOrders| && b'.sellerOrders[id] == b.sellerOrders[id]
    && |b.orders| <= |b'.orders|
  }

  lemma SameRowSameAnswer(b: Books, b': Books, policy: Policy, mine: Step)
    requires Accepted(b, policy, mine) && LeavesRow(b, b', mine.id)
    ensures Accepted(b', policy, mine)
  {}

  lemma DerivedWithIs(b: Books, policy: Policy, mine: Step, order: nat)
    requires Accepted(b, policy, mine)
    ensures mine.id < |b.sellerOrders|
    ensures DerivedWith(b, policy, mine, order)
         == Derive(ChildStatuses(
                     b.sellerOrders[mine.id := b.sellerOrders[mine.id].(status := Target(mine))], order))
  {
    AcceptedWrites(b, policy, mine);
  }

  /** A sale adds rows of a new order only. */
  lemma SaleLeaves(b: Books, policy: Policy, sale: Step, mine: Step)
    requires (sale.DoCheckout? || sale.DoPurchase?) && Accepted(b, policy, mine)
    requires mine.id < |b.sellerOrders| && b.sellerOrders[mine.id].order < |b.orders|
    ensures var b', order := Apply(b, policy, sale), b.sellerOrders[mine.id].order;
            && LeavesRow(b, b', mine.id) && Accepted(b', policy, mine)
            && DerivedWith(b', policy, mine, order) == DerivedWith(b, policy, mine, order)
  {
    var b', order := Apply(b, policy, sale), b.sellerOrders[mine.id].order;
    SaleAddsRows(b, policy, sale);
    SameRowSameAnswer(b, b', policy, mine);
    DerivedWithIs(b, policy, mine, order);
    DerivedWithIs(b', policy, mine, order);
    hide Apply, Accepted, Derive, DerivedWith, ChildStatuses;
    var so := b.sellerOrders[mine.id].(status := Target(mine));
    ChildrenUnderWrite(b.sellerOrders, b'.sellerOrders, mine.id, so, order);
  }

  lemma ChildrenUnderWrite(
    rows: seq<SellerOrder>, more: seq<SellerOrder>, id: nat, so: SellerOrder, order: nat)
    requires id < |rows| && rows <= more && forall i | |rows| <= i < |more| :: more[i].order != order
    ensures ChildStatuses(more[id := so], order) == ChildStatuses(rows[id := so], order)
  {
    ChildrenOfPrefix(rows[id := so], more[id := so], order);
  }

  lemma SaleAddsRows(b: Books, policy: Policy, sale: Step)
    requires sale.DoCheckout? || sale.DoPurchase?
    ensures var b' := Apply(b, policy, sale);
            && b.sellerOrders <= b'.sellerOrders && |b.orders| <= |b'.orders|
            && forall i | |b.sellerOrders| <= i < |b'.sellerOrders| :: b'.sellerOrders[i].order == |b.orders|
  {
    hide TakeAll, FirstRefused, Place;
    match sale
    case DoCheckout(customer, key, lines, now) =>
      if TakeAll(b.stock, lines).Some? {
        PlacedRows(b, customer, key, lines, TakeAll(b.stock, lines).value, now);
      }
    case DoPurchase(winner, key, lot, now) =>
      if TakeAll(b.stock, [LotLine(lot)]).Some? {
        PlacedRows(b, winner, key, [LotLine(lot)], TakeAll(b.stock, [LotLine(lot)]).value, now);
      }
  }

  /** With a row moved on or cancelled, an order is not new; from there the consumer changes nothing it derives. */
  lemma StartUnderWrite(rows: seq<SellerOrder>, id: nat, so: SellerOrder, j: nat)
    requires id < |rows| && j < |rows| && id != j && so.order == rows[id].order && !so.status.AwaitingFulfillment?
    requires rows[j].status.AwaitingFulfillment?
    ensures var started := rows[j].(status := Processing);
            Derive(ChildStatuses(rows[j := started][id := so], so.order))
              == Derive(ChildStatuses(rows[id := so], so.order))
  {
    hide Derive, ChildStatuses;
    var started, written := rows[j].(status := Processing), rows[id := so];
    assert rows[j := started][id := so] == written[j := started];
    ChildrenAfter(rows, id, so, so.order);
    ChildrenAfter(written, j, started, so.order);
    if rows[j].order == so.order {
      var before, after := ChildStatuses(written, so.order), ChildStatuses(written[j := started], so.order);
      StartDerives(before, after);
      DeriveMeans(before, New);
      assert so.status in Present(before);
    }
  }

  /** So does whatever the consumer and refunds do to other rows. */
  lemma RowStepLeaves(b: Books, policy: Policy, other: Step, mine: Step)
    requires (other.DoDeliver? || other.DoRefund?) && Accepted(b, policy, mine) && other.id != mine.id
    requires mine.id < |b.sellerOrders|
    ensures var b', order := Apply(b, policy, other), b.sellerOrders[mine.id].order;
            && LeavesRow(b, b', mine.id) && Accepted(b', policy, mine)
            && DerivedWith(b', policy, mine, order) == DerivedWith(b, policy, mine, order)
  {
    var b', order, j := Apply(b, policy, other), b.sellerOrders[mine.id].order, other.id;
    var rows := b.sellerOrders;
    RowStepWrites(b, policy, other);
    SameRowSameAnswer(b, b', policy, mine);
    DerivedWithIs(b, policy, mine, order);
    DerivedWithIs(b', policy, mine, order);
    AcceptedWrites(b, policy, mine);
    hide Apply, Accepted, Derive, DerivedWith, ChildStatuses;
    if b'.sellerOrders != rows {
      SiblingUnderWrite(rows, mine.id, rows[mine.id].(status := Target(mine)), j, b'.sellerOrders[j]);
    }
  }

  lemma SiblingUnderWrite(rows: seq<SellerOrder>, id: nat, so: SellerOrder, j: nat, row: SellerOrder)
    requires id < |rows| && j < |rows| && id != j && so.order == rows[id].order && !so.status.AwaitingFulfillment?
    requires row.order == rows[j].order
    requires row.status == rows[j].status
          || (rows[j].status.AwaitingFulfillment? && row == rows[j].(status := Processing))
    ensures Derive(ChildStatuses(rows[j := row][id := so], so.order))
         == Derive(ChildStatuses(rows[id := so], so.order))
  {
    hide Derive, ChildStatuses;
    if row.status == rows[j].status {
      assert rows[j := row][id := so] == rows[id := so][j := row];
      ChildrenAfter(rows[id := so], j, row, so.order);
    } else {
      StartUnderWrite(rows, id, so, j);
    }
  }

  lemma RowStepWrites(b: Books, policy: Policy, other: Step)
    requires other.DoDeliver? || other.DoRefund?
    ensures var b' := Apply(b, policy, other);
            && b'.orders == b.orders
            && (|| b'.sellerOrders == b.sellerOrders
                || (&& other.id < |b.sellerOrders|
                    && var so, so' := b.sellerOrders[other.id], b'.sellerOrders[other.id];
                    && b'.sellerOrders == b.sellerOrders[other.id := so'] && so'.order == so.order
                    && (so'.status == so.status
                        || (so.status.AwaitingFulfillment? && so' == so.(status := Processing)))))
  {
    hide RefundedQuantity, Restore, FindRefund;
  }

  /** A commit on another row leaves this one alone; on a row of another order, what it derives as well. */
  lemma CommitLeaves(b: Books, policy: Policy, other: Step, mine: Step)
    requires Accepted(b, policy, other) && Accepted(b, policy, mine) && other.id != mine.id
    requires mine.id < |b.sellerOrders| && other.id < |b.sellerOrders|
    ensures var b', order := Apply(b, policy, other), b.sellerOrders[mine.id].order;
            && LeavesRow(b, b', mine.id) && Accepted(b', policy, mine)
            && (b.sellerOrders[other.id].order != order ==>
                  DerivedWith(b', policy, mine, order) == DerivedWith(b, policy, mine, order))
  {
    var b', order, j := Apply(b, policy, other), b.sellerOrders[mine.id].order, other.id;
    AcceptedWrites(b, policy, other);
    SameRowSameAnswer(b, b', policy, mine);
    DerivedWithIs(b, policy, mine, order);
    DerivedWithIs(b', policy, mine, order);
    hide Apply, Accepted, Derive, DerivedWith, ChildStatuses;
    var so := b.sellerOrders[mine.id].(status := Target(mine));
    StrangerUnderWrite(b.sellerOrders, mine.id, so, j, b'.sellerOrders[j]);
  }

  lemma StrangerUnderWrite(rows: seq<SellerOrder>, id: nat, so: SellerOrder, j: nat, row: SellerOrder)
    requires id < |rows| && j < |rows| && id != j && row.order == rows[j].order
    ensures row.order != so.order ==>
              ChildStatuses(rows[j := row][id := so], so.order) == ChildStatuses(rows[id := so], so.order)
  {
    hide ChildStatuses;
    assert rows[j := row][id := so] == rows[id := so][j := row];
    ChildrenAfter(rows[id := so], j, row, so.order);
  }

  /** Parents are stored by lifecycle transactions only. */
  lemma NextLeavesStatuses(p: Parents, policy: Policy, step: Step)
    requires !step.DoUpdateStatus? && !step.DoCancel?
    ensures Next(p, policy, step).books == Apply(p.books, policy, step)
    ensures p.statuses <= Next(p, policy, step).statuses
  {
    hide Apply, Recompute;
  }

  // ---------------------------------------------------------------------
  // Every run
  // ---------------------------------------------------------------------

  /**
   An open transaction can still be carried out, and while it is in time what it derived is what its children would
   derive with it, and every look has seen the status that is stored now.
   */
  predicate DraftFits(s: Session, policy: Policy, id: nat)
    requires id in s.open
  {
    var d, b, order := s.open[id].draft, s.parents.books, OrderOf(s, id);
    && Accepted(b, policy, d.step) && d.step.id == id < |b.sellerOrders|
    && order < |s.parents.statuses| && s.open[id].since <= |s.commits|
    && (InTime(s, id) ==>
          d.next == DerivedWith(b, policy, d.step, order) && forall l | l in d.looks :: l == s.parents.statuses[order])
  }

  /** No order is wrong but those whose last lifecycle commit came late. */
  predicate Sound(s: Session, policy: Policy) {
    && ParentsFit(s.parents, s.late)
    && forall id | id in s.open :: DraftFits(s, policy, id)
  }

  lemma WriteKeeps(s: Session, policy: Policy, step: Step)
    requires Sound(s, policy)
    ensures Sound(Take(s, policy, DoWrite(step)), policy)
  {
    var s', b := Take(s, policy, DoWrite(step)), s.parents.books;
    if s' != s {
      AcceptedWrites(b, policy, step);
      RowHasParent(s, step.id);
      hide ParentsFit, Apply, Accepted, Derived;
      assert DraftFits(s', policy, step.id);
      assert forall id | id in s.open :: DraftFits(s, policy, id) && (InTime(s', id) <==> InTime(s, id));
    }
  }

  lemma RowHasParent(s: Session, id: nat)
    requires ParentsFit(s.parents, s.late) && id < |s.parents.books.sellerOrders|
    ensures OrderOf(s, id) < |s.parents.statuses|
  {
    assert s.parents.books.sellerOrders[id] in s.parents.books.sellerOrders;
  }

  lemma LookKeeps(s: Session, policy: Policy, row: nat)
    requires Sound(s, policy)
    ensures Sound(Take(s, policy, DoLook(row)), policy)
  {
    var s' := Take(s, policy, DoLook(row));
    hide ParentsFit, Accepted, DerivedWith;
    assert forall id | id in s'.open :: DraftFits(s, policy, id) && (InTime(s', id) <==> InTime(s, id));
  }

  lemma WholeKeeps(s: Session, policy: Policy, step: Step)
    requires Sound(s, policy)
    ensures Sound(Take(s, policy, DoWhole(step)), policy)
  {
    var s', b := Take(s, policy, DoWhole(step)), s.parents.books;
    if s' != s {
      NextFits(s.parents, s.late, policy, step);
      forall id | id in s'.open
        ensures DraftFits(s', policy, id)
      {
        WholeKeepsDraft(s, policy, step, id);
      }
    }
  }

  lemma WholeKeepsDraft(s: Session, policy: Policy, step: Step, id: nat)
    requires Sound(s, policy) && id in s.open
    requires !step.DoUpdateStatus? && !step.DoCancel? && !WaitsForRow(s, step)
    ensures DraftFits(Take(s, policy, DoWhole(step)), policy, id)
  {
    var s', b, mine := Take(s, policy, DoWhole(step)), s.parents.books, s.open[id].draft.step;
    assert DraftFits(s, policy, id);
    RowHasParent(s, id);
    assert OrderOf(s, id) < |b.orders|;
    if step.DoCheckout? || step.DoPurchase? {
      SaleLeaves(b, policy, step, mine);
    } else {
      RowStepLeaves(b, policy, step, mine);
    }
    NextLeavesStatuses(s.parents, policy, step);
    hide Apply, Accepted, DerivedWith, ParentsFit, Next;
    assert InTime(s', id) <==> InTime(s, id);
  }

  lemma CommitKeepsDraft(s: Session, policy: Policy, row: nat, id: nat)
    requires Sound(s, policy) && CanCommit(s, row) && id in s.open && id != row
    ensures DraftFits(Committed(s, policy, row), policy, id)
  {
    var s', b, d := Committed(s, policy, row), s.parents.books, s.open[id].draft;
    assert DraftFits(s, policy, id) && DraftFits(s, policy, row);
    CommitLeaves(b, policy, s.open[row].draft.step, d.step);
    hide Apply, Accepted, DerivedWith, ParentsFit;
    assert OrderOf(s', id) == OrderOf(s, id) && s'.commits[|s.commits|] == OrderOf(s, row);
    assert forall i | 0 <= i < |s.commits| :: s'.commits[i] == s.commits[i];
    if InTime(s', id) {
      assert InTime(s, id) && OrderOf(s, row) != OrderOf(s, id);
    }
  }

  /** A commit in time leaves its parent right, whatever the parent was before. */
  lemma LifecycleStepHeals(s: Session, policy: Policy, id: nat)
    requires Sound(s, policy) && CanCommit(s, id) && InTime(s, id)
    ensures Agrees(Committed(s, policy, id).parents, OrderOf(s, id))
  {
    hide Apply, Accepted, ParentsFit, Derived;
    assert DraftFits(s, policy, id);
    var d := s.open[id].draft;
    assert d.looks[0] in d.looks && (|d.looks| >= 2 ==> d.looks[1] in d.looks);
  }

  /** Late or not, it does so exactly when what it leaves stored is what the committed children derive by then. */
  lemma StoredIsRightIff(s: Session, policy: Policy, id: nat)
    requires Sound(s, policy) && CanCommit(s, id)
    ensures var d, order := s.open[id].draft, OrderOf(s, id);
            var stored := if Stores(d) then d.next else s.parents.statuses[order];
            && (Agrees(Committed(s, policy, id).parents, order)
                <==> stored == DerivedWith(s.parents.books, policy, d.step, order))
            && (InTime(s, id) ==> stored == d.next == DerivedWith(s.parents.books, policy, d.step, order))
  {
    hide Apply, Accepted, ParentsFit, Derived;
    assert DraftFits(s, policy, id);
    var d := s.open[id].draft;
    assert d.looks[0] in d.looks && (|d.looks| >= 2 ==> d.looks[1] in d.looks);
  }

  lemma CommitFitsParents(s: Session, policy: Policy, id: nat)
    requires Sound(s, policy) && CanCommit(s, id)
    ensures ParentsFit(Committed(s, policy, id).parents, Committed(s, policy, id).late)
  {
    var s', order, rows := Committed(s, policy, id), OrderOf(s, id), s.parents.books.sellerOrders;
    assert DraftFits(s, policy, id);
    AcceptedWrites(s.parents.books, policy, s.open[id].draft.step);
    if InTime(s, id) {
      LifecycleStepHeals(s, policy, id);
    }
    hide Apply, Accepted, Derive, ChildStatuses, DraftFits;
    assert rows[id] in rows;
    forall k: nat | k < |s'.parents.statuses| && k !in s'.late
      ensures Agrees(s'.parents, k) || Lags(s'.parents, k)
    {
      if k != order {
        ChildrenAfter(rows, id, s'.parents.books.sellerOrders[id], k);
        assert Agrees(s.parents, k) || Lags(s.parents, k);
      }
    }
  }

  lemma CommitKeeps(s: Session, policy: Policy, row: nat)
    requires Sound(s, policy)
    ensures Sound(Take(s, policy, DoCommit(row)), policy)
  {
    if CanCommit(s, row) {
      CommitFitsParents(s, policy, row);
      forall id | id in s.open && id != row
        ensures DraftFits(Committed(s, policy, row), policy, id)
      {
        CommitKeepsDraft(s, policy, row, id);
      }
      OpenAfter(s, policy, row);
      hide Committed, ParentsFit, DraftFits, CanCommit;
    }
  }

  lemma OpenAfter(s: Session, policy: Policy, row: nat)
    requires CanCommit(s, row)
    ensures Committed(s, policy, row).open.Keys == s.open.Keys - {row}
  {}

  lemma AbortKeeps(s: Session, policy: Policy, row: nat)
    requires Sound(s, policy)
    ensures Sound(Take(s, policy, DoAbort(row)), policy)
  {
    var s' := Take(s, policy, DoAbort(row));
    hide ParentsFit, Accepted, DerivedWith;
    assert forall id | id in s'.open :: DraftFits(s, policy, id) && (InTime(s', id) <==> InTime(s, id));
  }

  lemma TakeKeeps(s: Session, policy: Policy, step: LifeStep)
    requires Sound(s, policy)
    ensures Sound(Take(s, policy, step), policy)
  {
    hide Sound, Take;
    match step
    case DoWhole(st) => WholeKeeps(s, policy, st);
    case DoWrite(st) => WriteKeeps(s, policy, st);
    case DoLook(id) => LookKeeps(s, policy, id);
    case DoCommit(id) => CommitKeeps(s, policy, id);
    case DoAbort(id) => AbortKeeps(s, policy, id);
  }

  /**
   Over every interleaving, with rollbacks anywhere: each parent's stored status is the one its children derive, or
   it is new while they derive in process, or its order's last lifecycle commit came late.
   */
  lemma {:induction false} RunKeepsParents(s: Session, policy: Policy, steps: seq<LifeStep>)
    requires Sound(s, policy)
    ensures Sound(RunLife(s, policy, steps), policy)
    decreases |steps|
  {
    if steps != [] {
      hide Sound, Take;
      TakeKeeps(s, policy, steps[0]);
      RunKeepsParents(Take(s, policy, steps[0]), policy, steps[1..]);
    }
  }

  predicate CommitsInTime(s: Session, policy: Policy, steps: seq<LifeStep>)
    decreases |steps|
  {
    || steps == []
    || (&& (steps[0].DoCommit? && CanCommit(s, steps[0].row) ==> InTime(s, steps[0].row))
        && CommitsInTime(Take(s, policy, steps[0]), policy, steps[1..]))
  }

  /** When no transaction commits late, no order is ever wrong. */
  lemma {:induction false} TimelyRunsFit(s: Session, policy: Policy, steps: seq<LifeStep>)
    requires Sound(s, policy) && s.late == {} && CommitsInTime(s, policy, steps)
    ensures ParentsFit(RunLife(s, policy, steps).parents, {})
    decreases |steps|
  {
    if steps != [] {
      TakeKeeps(s, policy, steps[0]);
      assert Take(s, policy, steps[0]).late == {};
      hide Sound, Take;
      TimelyRunsFit(Take(s, policy, steps[0]), policy, steps[1..]);
    }
  }

  /** No lifecycle transaction starts while another of the same order is open, as a lock on the order would ensure. */
  predicate OneAtATime(s: Session, policy: Policy, steps: seq<LifeStep>)
    decreases |steps|
  {
    || steps == []
    || (&& (steps[0].DoWrite? && Accepted(s.parents.books, policy, steps[0].written) ==>
              forall id | id in s.open :: OrderOf(s, id) != OrderOf(s, steps[0].written.id))
        && OneAtATime(Take(s, policy, steps[0]), policy, steps[1..]))
  }

  predicate Apart(s: Session) {
    && (forall id | id in s.open :: InTime(s, id))
    && (forall i, j | i in s.open && j in s.open && i != j :: OrderOf(s, i) != OrderOf(s, j))
  }

  /** Locking the order first would be enough. */
  lemma {:induction false} LockedOrdersCommitInTime(s: Session, policy: Policy, steps: seq<LifeStep>)
    requires Sound(s, policy) && Apart(s) && OneAtATime(s, policy, steps)
    ensures CommitsInTime(s, policy, steps)
    decreases |steps|
  {
    if steps != [] {
      TakeKeeps(s, policy, steps[0]);
      TakeKeepsApart(s, policy, steps[0]);
      hide Sound, Take;
      LockedOrdersCommitInTime(Take(s, policy, steps[0]), policy, steps[1..]);
    }
  }

  lemma SameOpenKeepsApart(s: Session, s': Session)
    requires Apart(s) && s'.open.Keys <= s.open.Keys && s'.commits == s.commits
    requires forall id | id in s'.open :: s'.open[id].since == s.open[id].since && OrderOf(s', id) == OrderOf(s, id)
    ensures Apart(s')
  {}

  lemma WriteKeepsApart(s: Session, s': Session, row: nat)
    requires Apart(s) && row !in s.open && s'.open.Keys == s.open.Keys + {row} && s'.commits == s.commits
    requires forall id | id in s.open :: s'.open[id] == s.open[id] && OrderOf(s', id) == OrderOf(s, id)
    requires s'.open[row].since == |s.commits|
    requires forall id | id in s.open :: OrderOf(s, id) != OrderOf(s', row)
    ensures Apart(s')
  {}

  lemma CommitKeepsApart(s: Session, s': Session, row: nat)
    requires Apart(s) && row in s.open && s'.open == s.open - {row} && s'.commits == s.commits + [OrderOf(s, row)]
    requires forall id | id in s.open :: OrderOf(s', id) == OrderOf(s, id)
    ensures Apart(s')
  {}

  lemma TakeKeepsApart(s: Session, policy: Policy, step: LifeStep)
    requires Sound(s, policy) && Apart(s)
    requires step.DoWrite? && Accepted(s.parents.books, policy, step.written) ==>
               forall id | id in s.open :: OrderOf(s, id) != OrderOf(s, step.written.id)
    ensures Apart(Take(s, policy, step))
  {
    var s' := Take(s, policy, step);
    OrdersStay(s, policy, step);
    if s' != s {
      TakeOpens(s, policy, step);
      hide Take, Accepted, Sound, Apart, OrderOf;
      match step
      case DoWrite(st) => WriteKeepsApart(s, s', st.id);
      case DoCommit(row) => CommitKeepsApart(s, s', row);
      case _ => SameOpenKeepsApart(s, s');
    }
  }

  lemma TakeOpens(s: Session, policy: Policy, step: LifeStep)
    requires Sound(s, policy) && Take(s, policy, step) != s
    ensures var s' := Take(s, policy, step);
            match step
            case DoWrite(st) =>
              && Accepted(s.parents.books, policy, st) && st.id !in s.open && s'.open.Keys == s.open.Keys + {st.id}
              && s'.commits == s.commits && s'.open[st.id].since == |s.commits|
              && OrderOf(s', st.id) == OrderOf(s, st.id)
              && forall id | id in s.open :: s'.open[id] == s.open[id]
            case DoCommit(row) =>
              row in s.open && s'.open == s.open - {row} && s'.commits == s.commits + [OrderOf(s, row)]
            case _ =>
              && s'.open.Keys <= s.open.Keys && s'.commits == s.commits
              && forall id | id in s'.open :: s'.open[id].since == s.open[id].since
  {
    hide Apply, Accepted, Derived, Sound, Next;
  }

  /** A row never changes its order. */
  lemma OrdersStay(s: Session, policy: Policy, step: LifeStep)
    requires Sound(s, policy)
    ensures forall id | id in s.open :: OrderOf(Take(s, policy, step), id) == OrderOf(s, id)
  {
    hide ParentsFit, Recompute, Derived;
    if step.DoWhole? {
      var st := step.step;
      if st.DoCheckout? || st.DoPurchase? {
        SaleAddsRows(s.parents.books, policy, st);
      } else if st.DoDeliver? || st.DoRefund? {
        RowStepWrites(s.parents.books, policy, st);
      }
    } else if step.DoCommit? && CanCommit(s, step.row) {
      assert DraftFits(s, policy, step.row);
      AcceptedWrites(s.parents.books, policy, s.open[step.row].draft.step);
    }
    assert forall id | id in s.open :: DraftFits(s, policy, id);
    hide Apply, Accepted, DerivedWith;
  }
}
