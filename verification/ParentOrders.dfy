/**
 The parent order's status beside the books: derived from its
 seller orders, and stored by the transactions that move them.
 */
module ParentOrders {
  import opened Results
  import opened CartSplit
  import opened OrderBooks
  import opened BooksLaws

  // ---------------------------------------------------------------------
  // The derivation
  // ---------------------------------------------------------------------

  datatype OrderStatus =
    | New | InProcess | PartiallyShipped | AllShipped | PartiallyCompleted | Completed
    | PartiallyCancelled | AllCancelled

  function ProgressRank(s: Status): nat {
    match s
    case AwaitingFulfillment => 0
    case Processing => 1
    case Shipped => 2
    case _ => 3
  }

  function MinRank(statuses: seq<Status>): (m: nat)
    requires statuses != []
    ensures (forall s | s in statuses :: m <= ProgressRank(s)) && exists s :: s in statuses && ProgressRank(s) == m
  {
    var r := ProgressRank(statuses[0]);
    if |statuses| == 1 then r else if MinRank(statuses[1..]) < r then MinRank(statuses[1..]) else r
  }

  function MaxRank(statuses: seq<Status>): (m: nat)
    requires statuses != []
    ensures (forall s | s in statuses :: ProgressRank(s) <= m) && exists s :: s in statuses && ProgressRank(s) == m
  {
    var r := ProgressRank(statuses[0]);
    if |statuses| == 1 then r else if MaxRank(statuses[1..]) > r then MaxRank(statuses[1..]) else r
  }

  function ActiveOnes(statuses: seq<Status>): (active: seq<Status>)
    ensures forall s :: s in active <==> s in statuses && !s.Cancelled?
  {
    if statuses == [] then [] else (if statuses[0].Cancelled? then [] else [statuses[0]]) + ActiveOnes(statuses[1..])
  }

  function Derive(statuses: seq<Status>): OrderStatus {
    if statuses == [] then New
    else
      var active := ActiveOnes(statuses);
      if active == [] then AllCancelled
      else if Cancelled in statuses then PartiallyCancelled
      else
        var min, max := MinRank(active), MaxRank(active);
        if max == 3 then (if min == 3 then Completed else PartiallyCompleted)
        else if max == 2 then (if min == 2 then AllShipped else PartiallyShipped)
        else if max == 1 then InProcess
        else New
  }

  /** The same status, told from which child statuses occur at all. */
  predicate Means(present: set<Status>, parent: OrderStatus) {
    var early := AwaitingFulfillment in present || Processing in present;
    var shipped, done := Shipped in present, Delivered in present || Refunded in present;
    if Cancelled in present then
      if early || shipped || done then parent.PartiallyCancelled? else parent.AllCancelled?
    else if done then
      if early || shipped then parent.PartiallyCompleted? else parent.Completed?
    else if shipped then
      if early then parent.PartiallyShipped? else parent.AllShipped?
    else if Processing in present then parent.InProcess?
    else parent.New?
  }

  function Present(statuses: seq<Status>): set<Status> {
    set s | s in statuses
  }

  /** The ranks and filters of the derivation come to exactly one status for each set of child statuses. */
  lemma DeriveMeans(statuses: seq<Status>, parent: OrderStatus)
    ensures Derive(statuses) == parent <==> Means(Present(statuses), parent)
  {
    DeriveFits(statuses);
    hide Derive;
  }

  lemma DeriveFits(statuses: seq<Status>)
    ensures Means(Present(statuses), Derive(statuses))
  {
    hide MinRank, MaxRank, ActiveOnes;
    var present, active := Present(statuses), ActiveOnes(statuses);
    if statuses != [] {
      assert statuses[0] in present;
      if active == [] {
        assert forall s | s in present :: s in statuses && s.Cancelled?;
      } else {
        assert active[0] in active && active[0] in present;
      }
    }
  }

  // ---------------------------------------------------------------------
  // Storing it
  // ---------------------------------------------------------------------

  datatype Move = Move(order: nat, from: OrderStatus, to: OrderStatus)

  /** `statuses` are the parents' stored statuses, by order; `moves` their ORDER_STATUS_CHANGED events. */
  datatype Parents = Parents(books: Books, statuses: seq<OrderStatus>, moves: seq<Move>)

  function ChildStatuses(sellerOrders: seq<SellerOrder>, order: nat): seq<Status> {
    if sellerOrders == [] then []
    else
      var last := sellerOrders[|sellerOrders| - 1];
      ChildStatuses(sellerOrders[..|sellerOrders| - 1], order) + (if last.order == order then [last.status] else [])
  }

  function Derived(b: Books, order: nat): OrderStatus {
    Derive(ChildStatuses(b.sellerOrders, order))
  }

  /** Stores and announces the derived status when it differs; no such order, nothing to do. */
  function Recompute(p: Parents, order: nat): Parents {
    if order >= |p.statuses| || p.statuses[order] == Derived(p.books, order) then p
    else
      var next := Derived(p.books, order);
      p.(statuses := p.statuses[order := next], moves := p.moves + [Move(order, p.statuses[order], next)])
  }

  /** A seller's or an admin's move or cancellation that its own row lets through. */
  predicate Accepted(b: Books, policy: Policy, step: Step) {
    || (step.DoUpdateStatus? && UpdateStatusOutcome(b, step.id, step.to).Ok?)
    || (step.DoCancel? && CancelOutcome(b, policy, step.id) == Ok(true))
  }

  function Target(step: Step): Status {
    if step.DoUpdateStatus? then step.to else Cancelled
  }

  lemma AcceptedWrites(b: Books, policy: Policy, step: Step)
    requires Accepted(b, policy, step)
    ensures step.id < |b.sellerOrders| && !Target(step).AwaitingFulfillment?
    ensures var b' := Apply(b, policy, step);
            && b'.sellerOrders == b.sellerOrders[step.id := b.sellerOrders[step.id].(status := Target(step))]
            && b'.orders == b.orders
  {
    hide RestoreItems, RestoreEvents;
  }

  /**
   Each transaction whole. A sale adds a new parent, an accepted status change or cancellation recomputes its own; the
   consumer does not.
   */
  function Next(p: Parents, policy: Policy, step: Step): Parents {
    var b := Apply(p.books, policy, step);
    var q := p.(books := b);
    if Accepted(p.books, policy, step) then Recompute(q, p.books.sellerOrders[step.id].order)
    else if |b.orders| > |p.books.orders| then q.(statuses := p.statuses + [New])
    else q
  }

  /** A sale that is placed adds a new parent and touches no other. */
  lemma NextOfCheckout(p: Parents, policy: Policy, customer: nat, key: string, lines: seq<Line>, now: int)
    ensures var placed := CheckoutOutcome(p.books, customer, key, lines) == Ok(Placed(|p.books.orders|));
            Next(p, policy, DoCheckout(customer, key, lines, now))
              == Parents(Checkout(p.books, customer, key, lines, now),
                         if placed then p.statuses + [New] else p.statuses, p.moves)
  {
    hide Split, TotalCents, AddSellerOrders, StockEvents, TakeAll, FirstRefused, SumBy;
    var b := p.books;
    if CheckoutOutcome(b, customer, key, lines) == Ok(Placed(|b.orders|)) {
      PlaceAddsOrder(b, customer, key, lines, TakeAll(b.stock, lines).value, now);
      hide Place;
    }
  }

  lemma NextOfPurchase(p: Parents, policy: Policy, winner: nat, key: string, lot: Lot, now: int)
    ensures var placed := PurchaseOutcome(p.books, winner, key, lot) == Ok(Placed(|p.books.orders|));
            Next(p, policy, DoPurchase(winner, key, lot, now))
              == Parents(Purchase(p.books, winner, key, lot, now),
                         if placed then p.statuses + [New] else p.statuses, p.moves)
  {
    hide TakeAll, SumBy;
    var b, lines := p.books, [LotLine(lot)];
    if PurchaseOutcome(b, winner, key, lot) == Ok(Placed(|b.orders|)) {
      PlaceAddsOrder(b, winner, key, lines, TakeAll(b.stock, lines).value, now);
      hide Place;
    }
  }

  lemma PlaceAddsOrder(b: Books, customer: nat, key: string, lines: seq<Line>, stock: Stock, now: int)
    ensures |Place(b, customer, key, lines, stock, now).orders| == |b.orders| + 1
  {
    hide Split, TotalCents, AddSellerOrders, StockEvents, SumBy;
    var taken := b.(stock := stock, orders := b.orders + [Order(customer, key, TotalCents(lines))]);
    AddingTakesUnits(taken, |b.orders|, Split(lines), now, 0);
  }

  // ---------------------------------------------------------------------
  // Agreement
  // ---------------------------------------------------------------------

  predicate Agrees(p: Parents, order: nat)
    requires order < |p.statuses|
  {
    p.statuses[order] == Derived(p.books, order)
  }

  /** Stored as new although a child is already in process. */
  predicate Lags(p: Parents, order: nat)
    requires order < |p.statuses|
  {
    p.statuses[order].New? && Derived(p.books, order).InProcess?
  }

  /** Every parent outside `late` agrees with its children or lags behind the consumer. */
  predicate ParentsFit(p: Parents, late: set<nat>) {
    && |p.statuses| == |p.books.orders|
    && (forall so | so in p.books.sellerOrders :: so.order < |p.books.orders|)
    && (forall k | k in late :: k < |p.statuses|)
    && forall k: nat | k < |p.statuses| && k !in late :: Agrees(p, k) || Lags(p, k)
  }

  /** The child statuses of an order after one row changed its status. */
  lemma {:induction false} ChildrenAfter(sellerOrders: seq<SellerOrder>, id: nat, so: SellerOrder, order: nat)
    requires id < |sellerOrders| && so.order == sellerOrders[id].order
    ensures so.order != order ==> ChildStatuses(sellerOrders[id := so], order) == ChildStatuses(sellerOrders, order)
    ensures so.order == order ==>
              && sellerOrders[id].status in ChildStatuses(sellerOrders, order)
              && so.status in ChildStatuses(sellerOrders[id := so], order)
              && (forall s | s in ChildStatuses(sellerOrders, order) ::
                    s == sellerOrders[id].status || s in ChildStatuses(sellerOrders[id := so], order))
              && (forall s | s in ChildStatuses(sellerOrders[id := so], order) ::
                    s == so.status || s in ChildStatuses(sellerOrders, order))
    ensures so.status == sellerOrders[id].status ==>
              ChildStatuses(sellerOrders[id := so], order) == ChildStatuses(sellerOrders, order)
  {
    var n := |sellerOrders| - 1;
    if id == n {
      assert sellerOrders[id := so][..n] == sellerOrders[..n];
    } else {
      ChildrenAfter(sellerOrders[..n], id, so, order);
      assert sellerOrders[id := so][..n] == sellerOrders[..n][id := so];
    }
  }

  /** A consumer's move changes what the parent should be exactly when the parent should have been new. */
  lemma StartDerives(before: seq<Status>, after: seq<Status>)
    requires AwaitingFulfillment in before && Processing in after
    requires forall s | s in before :: s == AwaitingFulfillment || s in after
    requires forall s | s in after :: s == Processing || s in before
    ensures if Derive(before).New? then Derive(after).InProcess? else Derive(after) == Derive(before)
  {
    hide Derive;
    var p, q := Present(before), Present(after);
    DeriveMeans(before, Derive(before));
    DeriveMeans(after, Derive(before));
    DeriveMeans(after, InProcess);
    assert AwaitingFulfillment in p && Processing in q;
    assert forall s | s in p :: s == AwaitingFulfillment || s in q;
    assert forall s | s in q :: s == Processing || s in p;
  }

  lemma {:induction false} NoChildrenYet(sellerOrders: seq<SellerOrder>, order: nat)
    requires forall so | so in sellerOrders :: so.order < order
    ensures ChildStatuses(sellerOrders, order) == []
  {
    if sellerOrders != [] {
      assert sellerOrders[|sellerOrders| - 1] in sellerOrders;
      NoChildrenYet(sellerOrders[..|sellerOrders| - 1], order);
    }
  }

  predicate AllAwait(statuses: seq<Status>) {
    forall s | s in statuses :: s.AwaitingFulfillment?
  }

  lemma AllAwaitIsNew(statuses: seq<Status>)
    requires AllAwait(statuses)
    ensures Derive(statuses).New?
  {
    hide Derive;
    DeriveMeans(statuses, New);
  }

  /** Placing an order adds children to it alone, all of them awaiting fulfillment. */
  lemma {:induction false} AddingChildren(b: Books, order: nat, groups: seq<Group>, now: int, k: nat)
    requires k == order ==> AllAwait(ChildStatuses(b.sellerOrders, order))
    ensures var b' := AddSellerOrders(b, order, groups, now);
            && (k != order ==> ChildStatuses(b'.sellerOrders, k) == ChildStatuses(b.sellerOrders, k))
            && (k == order ==> AllAwait(ChildStatuses(b'.sellerOrders, order)))
            && (forall so | so in b'.sellerOrders :: so in b.sellerOrders || so.order == order)
    decreases |groups|
  {
    if groups != [] {
      hide CommissionOn, TotalCents, ItemsOf;
      var so := SellerOrderFor(order, groups[0]);
      assert (b.sellerOrders + [so])[..|b.sellerOrders|] == b.sellerOrders;
      AddingChildren(AddSellerOrder(b, order, groups[0], now), order, groups[1..], now, k);
    }
  }

  lemma PlacedParentsFit(
    p: Parents, late: set<nat>, customer: nat, key: string, lines: seq<Line>, stock: Stock, now: int)
    requires ParentsFit(p, late)
    ensures var b := p.books; var b' := Place(b, customer, key, lines, stock, now);
            && |b'.orders| == |b.orders| + 1
            && ParentsFit(p.(books := b', statuses := p.statuses + [New]), late)
  {
    hide Split, TotalCents, AddSellerOrders, Derive;
    var b, order := p.books, |p.books.orders|;
    var taken := b.(stock := stock, orders := b.orders + [Order(customer, key, TotalCents(lines))]);
    var b' := Place(b, customer, key, lines, stock, now);
    var q := p.(books := b', statuses := p.statuses + [New]);
    NoChildrenYet(b.sellerOrders, order);
    AddingTakesUnits(taken, order, Split(lines), now, 0);
    AddingChildren(taken, order, Split(lines), now, order);
    forall k: nat | k < |q.statuses| && k !in late
      ensures Agrees(q, k) || Lags(q, k)
    {
      AddingChildren(taken, order, Split(lines), now, k);
      if k == order {
        AllAwaitIsNew(ChildStatuses(b'.sellerOrders, k));
      } else {
        assert Agrees(p, k) || Lags(p, k);
      }
    }
  }

  lemma SalesFitParents(p: Parents, late: set<nat>, policy: Policy, step: Step)
    requires ParentsFit(p, late) && (step.DoCheckout? || step.DoPurchase?)
    ensures ParentsFit(Next(p, policy, step), late)
  {
    hide Place, TakeAll, FirstRefused, ParentsFit, Derived;
    if Apply(p.books, policy, step) != p.books {
      match step
      case DoCheckout(customer, key, lines, now) =>
        PlacedParentsFit(p, late, customer, key, lines, TakeAll(p.books.stock, lines).value, now);
      case DoPurchase(winner, key, lot, now) =>
        var lines := [LotLine(lot)];
        var placed := Place(p.books, winner, key, lines, TakeAll(p.books.stock, lines).value, now);
        PlacedParentsFit(p, late, winner, key, lines, TakeAll(p.books.stock, lines).value, now);
        SameRowsFit(p.(books := placed, statuses := p.statuses + [New]), Next(p, policy, step), late);
    } else {
      assert Next(p, policy, step) == p;
    }
  }

  lemma SameRowsFit(p: Parents, q: Parents, late: set<nat>)
    requires ParentsFit(p, late) && q.statuses == p.statuses
    requires q.books.orders == p.books.orders && q.books.sellerOrders == p.books.sellerOrders
    ensures ParentsFit(q, late)
  {
    assert forall k: nat | k < |q.statuses| :: (Agrees(q, k) <==> Agrees(p, k)) && (Lags(q, k) <==> Lags(p, k));
  }

  lemma RefundFitsParents(p: Parents, late: set<nat>, b': Books, id: nat, so: SellerOrder)
    requires ParentsFit(p, late) && id < |p.books.sellerOrders|
    requires so.order == p.books.sellerOrders[id].order && so.status == p.books.sellerOrders[id].status
    requires b'.orders == p.books.orders && b'.sellerOrders == p.books.sellerOrders[id := so]
    ensures ParentsFit(p.(books := b'), late)
  {
    hide Derive, ChildStatuses;
    var q := p.(books := b');
    assert p.books.sellerOrders[id] in p.books.sellerOrders;
    forall k: nat | k < |q.statuses| && k !in late
      ensures Agrees(q, k) || Lags(q, k)
    {
      ChildrenAfter(p.books.sellerOrders, id, so, k);
      assert Agrees(p, k) || Lags(p, k);
    }
  }

  /**
   The consumer's move leaves its parent as stored. What the children derive changes exactly when that was new, and
   then to in process; so whether the parent agrees or lags afterwards can be told before.
   */
  lemma StartKeepsParentIff(p: Parents, id: nat)
    requires id < |p.books.sellerOrders| && p.books.sellerOrders[id].status.AwaitingFulfillment?
    requires p.books.sellerOrders[id].order < |p.statuses|
    ensures var q := p.(books := StartProcessing(p.books, id)); var order := p.books.sellerOrders[id].order;
            && (Agrees(q, order)
                <==> if Derived(p.books, order).New? then p.statuses[order].InProcess? else Agrees(p, order))
            && (Lags(q, order)
                <==> if Derived(p.books, order).New? then p.statuses[order].New? else Lags(p, order))
  {
    hide Derive, ChildStatuses;
    var rows := p.books.sellerOrders;
    var so := rows[id].(status := Processing);
    ChildrenAfter(rows, id, so, so.order);
    StartDerives(ChildStatuses(rows, so.order), ChildStatuses(rows[id := so], so.order));
  }

  lemma StartFitsParents(p: Parents, late: set<nat>, id: nat)
    requires ParentsFit(p, late)
    requires id < |p.books.sellerOrders| && p.books.sellerOrders[id].status.AwaitingFulfillment?
    ensures ParentsFit(p.(books := StartProcessing(p.books, id)), late)
  {
    hide Derive, ChildStatuses;
    var rows := p.books.sellerOrders;
    var so := rows[id].(status := Processing);
    var q := p.(books := StartProcessing(p.books, id));
    assert rows[id] in rows;
    StartKeepsParentIff(p, id);
    forall k: nat | k < |q.statuses| && k !in late
      ensures Agrees(q, k) || Lags(q, k)
    {
      ChildrenAfter(rows, id, so, k);
      assert Agrees(p, k) || Lags(p, k);
    }
  }

  lemma DeliverFits(p: Parents, late: set<nat>, id: nat, stale: bool, crash: bool)
    requires ParentsFit(p, late)
    ensures ParentsFit(p.(books := Deliver(p.books, id, stale, crash)), late)
  {
    hide ParentsFit;
    var moved := p.(books := StartProcessing(p.books, id));
    if id < |p.books.sellerOrders| && p.books.sellerOrders[id].status.AwaitingFulfillment? {
      StartFitsParents(p, late, id);
    } else {
      assert moved == p;
    }
    SameRowsFit(
      if id in p.books.processed && !stale then p else moved, p.(books := Deliver(p.books, id, stale, crash)), late);
  }

  lemma DeliverKeepsOrders(b: Books, id: nat, stale: bool, crash: bool)
    ensures Deliver(b, id, stale, crash).orders == b.orders
  {}

  /** Everything but status changes and cancellations leaves every parent as it is, and a new one agrees. */
  lemma NextFits(p: Parents, late: set<nat>, policy: Policy, step: Step)
    requires ParentsFit(p, late) && !step.DoUpdateStatus? && !step.DoCancel?
    ensures ParentsFit(Next(p, policy, step), late)
  {
    hide ParentsFit, Checkout, Purchase, Deliver, Recompute, RefundedQuantity;
    var b' := Apply(p.books, policy, step);
    match step
    case DoDeliver(id, stale, crash) =>
      DeliverFits(p, late, id, stale, crash);
      DeliverKeepsOrders(p.books, id, stale, crash);
    case DoRefund(id, _, _, _, _) =>
      if b' != p.books {
        RefundFitsParents(p, late, b', id, b'.sellerOrders[id]);
      }
    case _ => SalesFitParents(p, late, policy, step);
  }
}
