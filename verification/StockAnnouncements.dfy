/** Every stock movement is announced in the same transaction, which is what the search projection relies on. */
module StockAnnouncements {
  import opened Results
  import opened CartSplit
  import opened OrderBooks
  import opened BooksLaws
  import opened OrderHistories

  predicate Announces(b: Books, b': Books) {
    && b.outbox <= b'.outbox && b'.stock.Keys == b.stock.Keys
    && forall p | p in b.stock && b'.stock[p] != b.stock[p] :: StockChanged(p) in b'.outbox[|b.outbox|..]
  }

  lemma {:induction false} UnitsAreAnnounced(lines: seq<Line>, product: nat)
    requires Units(lines, product) > 0
    ensures StockChanged(product) in StockEvents(lines)
  {
    if lines[0].product != product {
      UnitsAreAnnounced(lines[1..], product);
    }
  }

  lemma {:induction false} RestoredAreAnnounced(stock: Stock, items: seq<Item>, product: nat)
    requires ItemUnits(items, product) > 0 && product in stock
    ensures StockChanged(product) in RestoreEvents(stock, items)
  {
    if items[0].product != product {
      RestoredAreAnnounced(stock, items[1..], product);
    }
  }

  lemma {:induction false} AddingExtendsOutbox(b: Books, order: nat, groups: seq<Group>, now: int)
    ensures b.outbox <= AddSellerOrders(b, order, groups, now).outbox
    decreases |groups|
  {
    hide CommissionOn, TotalCents;
    if groups != [] {
      AddingExtendsOutbox(AddSellerOrder(b, order, groups[0], now), order, groups[1..], now);
    }
  }

  lemma CheckoutAnnounces(b: Books, customer: nat, key: string, lines: seq<Line>, now: int)
    ensures Announces(b, Checkout(b, customer, key, lines, now))
  {
    hide Split, TakeAll, FirstRefused, TotalCents, AddSellerOrders, Units, StockEvents;
    var outcome := CheckoutOutcome(b, customer, key, lines);
    if outcome.Ok? && outcome.value.Placed? {
      TakeAllTakesUnits(b.stock, lines);
      var order := |b.orders|;
      var taken := b.(
        stock := TakeAll(b.stock, lines).value, orders := b.orders + [Order(customer, key, TotalCents(lines))]);
      var placed := AddSellerOrders(taken, order, Split(lines), now);
      AddingTakesUnits(taken, order, Split(lines), now, 0);
      AddingExtendsOutbox(taken, order, Split(lines), now);
      var outbox' := placed.outbox + [OrderCreated(order)] + StockEvents(lines);
      forall p | p in b.stock && placed.stock[p] != b.stock[p]
        ensures StockChanged(p) in outbox'[|b.outbox|..]
      {
        UnitsAreAnnounced(lines, p);
        InSuffix(placed.outbox + [OrderCreated(order)], StockEvents(lines), StockChanged(p), |b.outbox|);
      }
    }
  }

  lemma PurchaseAnnounces(b: Books, winner: nat, key: string, lot: Lot, now: int)
    ensures Announces(b, Purchase(b, winner, key, lot, now))
  {
    hide Place, TakeAll;
    var b' := Purchase(b, winner, key, lot, now);
    if b' != b {
      PurchaseWrites(b, winner, key, lot, now);
      assert b'.outbox[|b.outbox|..][2] == StockChanged(lot.product);
      hide Purchase;
    }
  }

  lemma InSuffix(front: seq<Event>, back: seq<Event>, e: Event, from: nat)
    requires e in back && from <= |front|
    ensures e in (front + back)[from..]
  {
    var i :| 0 <= i < |back| && back[i] == e;
    assert (front + back)[from..][|front| - from + i] == e;
  }

  lemma CancelAnnounces(b: Books, policy: Policy, id: nat, now: int)
    ensures Announces(b, Cancel(b, policy, id, now))
  {
    hide RestoreItems, RestoreEvents, ItemUnits;
    if CancelOutcome(b, policy, id) == Ok(true) {
      var items := b.sellerOrders[id].items;
      RestoreItemsRestores(b.stock, items);
      var events := RestoreEvents(b.stock, items);
      var outbox' := b.outbox + events + [SellerOrderCancelled(id)];
      forall p | p in b.stock && RestoreItems(b.stock, items)[p] != b.stock[p]
        ensures StockChanged(p) in outbox'[|b.outbox|..]
      {
        RestoredAreAnnounced(b.stock, items, p);
        InSuffix(b.outbox, events + [SellerOrderCancelled(id)], StockChanged(p), |b.outbox|);
        assert outbox' == b.outbox + (events + [SellerOrderCancelled(id)]);
      }
    }
  }

  lemma RefundAnnounces(b: Books, policy: Policy, id: nat, item: nat, quantity: nat, key: string, now: int)
    ensures Announces(b, CreateRefund(b, policy, id, item, quantity, key, now))
  {
    hide RefundedQuantity, RefundFor;
    var b' := CreateRefund(b, policy, id, item, quantity, key, now);
    if b' != b {
      var product := b.sellerOrders[id].items[item].product;
      if product in b.stock {
        InSuffix(b.outbox, [StockChanged(product), RefundCreated(id)], StockChanged(product), |b.outbox|);
        assert b'.outbox == b.outbox + [StockChanged(product), RefundCreated(id)];
      }
    }
  }

  /** No step moves a product's stock without a STOCK_CHANGED event for it in the same commit. */
  lemma StepAnnouncesStock(b: Books, policy: Policy, step: Step)
    ensures Announces(b, Apply(b, policy, step))
  {
    hide Checkout, Purchase, Cancel, CreateRefund;
    match step
    case DoCheckout(customer, key, lines, now) => CheckoutAnnounces(b, customer, key, lines, now);
    case DoPurchase(winner, key, lot, now) => PurchaseAnnounces(b, winner, key, lot, now);
    case DoCancel(id, now) => CancelAnnounces(b, policy, id, now);
    case DoRefund(id, item, quantity, key, now) => RefundAnnounces(b, policy, id, item, quantity, key, now);
    case _ =>
  }
}

/** Every order and every refund is announced exactly once, whatever else a run does. */
module OrderAnnouncements {
  import opened CartSplit
  import opened OrderBooks
  import opened OrderHistories

  function Count(outbox: seq<Event>, e: Event): nat {
    multiset(outbox)[e]
  }

  function RefundsOf(b: Books, id: nat): nat {
    if id < |b.sellerOrders| then |b.sellerOrders[id].refunds| else 0
  }

  ghost predicate AnnouncedOnce(b: Books) {
    forall k: nat ::
      && Count(b.outbox, OrderCreated(k)) == (if k < |b.orders| then 1 else 0)
      && Count(b.outbox, SellerOrderCreated(k)) == (if k < |b.sellerOrders| then 1 else 0)
      && Count(b.outbox, RefundCreated(k)) == RefundsOf(b, k)
  }

  predicate IsStockEvents(events: seq<Event>) {
    forall e | e in events :: e.StockChanged?
  }

  lemma {:induction false} StockEventsOnly(lines: seq<Line>)
    ensures IsStockEvents(StockEvents(lines))
  {
    if lines != [] {
      StockEventsOnly(lines[1..]);
    }
  }

  lemma {:induction false} RestoreEventsOnly(stock: Stock, items: seq<Item>)
    ensures IsStockEvents(RestoreEvents(stock, items))
  {
    if items != [] {
      RestoreEventsOnly(stock, items[1..]);
    }
  }

  lemma CountAfter(outbox: seq<Event>, more: seq<Event>, e: Event)
    ensures Count(outbox + more, e) == Count(outbox, e) + Count(more, e)
    ensures IsStockEvents(more) && !e.StockChanged? ==> Count(more, e) == 0
  {
    assert e !in more ==> e !in multiset(more);
  }

  /** Adding seller orders announces each of them, and nothing else that is counted here. */
  lemma {:induction false} AddingAnnounces(b: Books, order: nat, groups: seq<Group>, now: int, k: nat)
    requires Count(b.outbox, SellerOrderCreated(k)) == (if k < |b.sellerOrders| then 1 else 0)
    ensures var b' := AddSellerOrders(b, order, groups, now);
            && b'.orders == b.orders && |b.sellerOrders| <= |b'.sellerOrders|
            && Count(b'.outbox, OrderCreated(k)) == Count(b.outbox, OrderCreated(k))
            && Count(b'.outbox, SellerOrderCreated(k)) == (if k < |b'.sellerOrders| then 1 else 0)
            && Count(b'.outbox, RefundCreated(k)) == Count(b.outbox, RefundCreated(k))
            && RefundsOf(b', k) == RefundsOf(b, k)
    decreases |groups|
  {
    hide CommissionOn, TotalCents;
    if groups != [] {
      var added := [SellerOrderCreated(|b.sellerOrders|)];
      CountAfter(b.outbox, added, OrderCreated(k));
      CountAfter(b.outbox, added, SellerOrderCreated(k));
      CountAfter(b.outbox, added, RefundCreated(k));
      AddingAnnounces(AddSellerOrder(b, order, groups[0], now), order, groups[1..], now, k);
    }
  }

  lemma PlaceAnnounces(b: Books, customer: nat, key: string, lines: seq<Line>, stock: Stock, now: int)
    requires AnnouncedOnce(b)
    ensures AnnouncedOnce(Place(b, customer, key, lines, stock, now))
  {
    hide Split, TotalCents, AddSellerOrders, StockEvents, Count;
    var b' := Place(b, customer, key, lines, stock, now);
    var taken := b.(stock := stock, orders := b.orders + [Order(customer, key, TotalCents(lines))]);
    var placed := AddSellerOrders(taken, |b.orders|, Split(lines), now);
    var mark := [OrderCreated(|b.orders|)];
    StockEventsOnly(lines);
    forall k: nat
      ensures Count(b'.outbox, OrderCreated(k)) == (if k < |b'.orders| then 1 else 0)
      ensures Count(b'.outbox, SellerOrderCreated(k)) == (if k < |b'.sellerOrders| then 1 else 0)
      ensures Count(b'.outbox, RefundCreated(k)) == RefundsOf(b', k)
    {
      AddingAnnounces(taken, |b.orders|, Split(lines), now, k);
      MarkCounts(|b.orders|, k);
      forall e | e in [OrderCreated(k), SellerOrderCreated(k), RefundCreated(k)]
        ensures Count(b'.outbox, e) == Count(placed.outbox, e) + Count(mark, e)
      {
        CountAfter(placed.outbox, mark, e);
        CountAfter(placed.outbox + mark, StockEvents(lines), e);
      }
    }
  }

  lemma MarkCounts(order: nat, k: nat)
    ensures Count([OrderCreated(order)], OrderCreated(k)) == (if k == order then 1 else 0)
    ensures Count([OrderCreated(order)], SellerOrderCreated(k)) == 0
            && Count([OrderCreated(order)], RefundCreated(k)) == 0
  {}

  /** Events about stock and statuses only. */
  predicate IsQuiet(events: seq<Event>) {
    forall e | e in events :: e.StockChanged? || e.StatusChanged? || e.SellerOrderCancelled?
  }

  lemma QuietCounts(outbox: seq<Event>, more: seq<Event>, e: Event)
    requires IsQuiet(more) && (e.OrderCreated? || e.SellerOrderCreated? || e.RefundCreated?)
    ensures Count(outbox + more, e) == Count(outbox, e)
  {
    CountAfter(outbox, more, e);
    assert e !in more;
  }

  /** A step that only changes statuses and stock, and announces only those. */
  lemma QuietStepAnnounces(b: Books, b': Books, more: seq<Event>)
    requires AnnouncedOnce(b) && IsQuiet(more) && b'.outbox == b.outbox + more
    requires b'.orders == b.orders && |b'.sellerOrders| == |b.sellerOrders|
    requires forall k: nat | k < |b.sellerOrders| :: b'.sellerOrders[k].refunds == b.sellerOrders[k].refunds
    ensures AnnouncedOnce(b')
  {
    hide Count;
    forall k: nat
      ensures Count(b'.outbox, OrderCreated(k)) == (if k < |b'.orders| then 1 else 0)
      ensures Count(b'.outbox, SellerOrderCreated(k)) == (if k < |b'.sellerOrders| then 1 else 0)
      ensures Count(b'.outbox, RefundCreated(k)) == RefundsOf(b', k)
    {
      QuietCounts(b.outbox, more, OrderCreated(k));
      QuietCounts(b.outbox, more, SellerOrderCreated(k));
      QuietCounts(b.outbox, more, RefundCreated(k));
    }
  }

  lemma MoveAnnounces(b: Books, id: nat, to: Status)
    requires AnnouncedOnce(b) && id < |b.sellerOrders|
    ensures AnnouncedOnce(MoveTo(b, id, to))
  {
    hide AnnouncedOnce;
    QuietStepAnnounces(b, MoveTo(b, id, to), [StatusChanged(id, b.sellerOrders[id].status, to)]);
  }

  lemma CancelAnnouncesOnce(b: Books, policy: Policy, id: nat, now: int)
    requires AnnouncedOnce(b)
    ensures AnnouncedOnce(Cancel(b, policy, id, now))
  {
    hide AnnouncedOnce, RestoreItems, RestoreEvents;
    var b' := Cancel(b, policy, id, now);
    if b' != b {
      var events := RestoreEvents(b.stock, b.sellerOrders[id].items);
      RestoreEventsOnly(b.stock, b.sellerOrders[id].items);
      assert b'.outbox == b.outbox + (events + [SellerOrderCancelled(id)]);
      QuietStepAnnounces(b, b', events + [SellerOrderCancelled(id)]);
    }
  }

  lemma RefundAnnouncesOnce(b: Books, policy: Policy, id: nat, item: nat, quantity: nat, key: string, now: int)
    requires AnnouncedOnce(b)
    ensures AnnouncedOnce(CreateRefund(b, policy, id, item, quantity, key, now))
  {
    hide AnnouncedOnce, RefundedQuantity, RefundFor, Restore, Count;
    var b' := CreateRefund(b, policy, id, item, quantity, key, now);
    if b' != b {
      var product := b.sellerOrders[id].items[item].product;
      var quiet: seq<Event> := if product in b.stock then [StockChanged(product)] else [];
      var restored := b.(outbox := b.outbox + quiet);
      QuietStepAnnounces(b, restored, quiet);
      assert b'.outbox == restored.outbox + [RefundCreated(id)];
      RefundEventAnnounces(restored, b', id);
    }
  }

  lemma RefundEventAnnounces(b: Books, b': Books, id: nat)
    requires AnnouncedOnce(b) && id < |b.sellerOrders| && b'.orders == b.orders && |b'.sellerOrders| == |b.sellerOrders|
    requires b'.outbox == b.outbox + [RefundCreated(id)]
    requires forall k: nat | k < |b.sellerOrders| ::
               |b'.sellerOrders[k].refunds| == |b.sellerOrders[k].refunds| + (if k == id then 1 else 0)
    ensures AnnouncedOnce(b')
  {
    hide Count;
    forall k: nat
      ensures Count(b'.outbox, OrderCreated(k)) == (if k < |b'.orders| then 1 else 0)
      ensures Count(b'.outbox, SellerOrderCreated(k)) == (if k < |b'.sellerOrders| then 1 else 0)
      ensures Count(b'.outbox, RefundCreated(k)) == RefundsOf(b', k)
    {
      RefundEventCounts(b.outbox, id, k);
    }
  }

  lemma RefundEventCounts(outbox: seq<Event>, id: nat, k: nat)
    ensures Count(outbox + [RefundCreated(id)], OrderCreated(k)) == Count(outbox, OrderCreated(k))
    ensures Count(outbox + [RefundCreated(id)], SellerOrderCreated(k)) == Count(outbox, SellerOrderCreated(k))
    ensures Count(outbox + [RefundCreated(id)], RefundCreated(k))
            == Count(outbox, RefundCreated(k)) + (if k == id then 1 else 0)
  {}

  lemma PurchaseAnnouncesOnce(b: Books, winner: nat, key: string, lot: Lot, now: int)
    requires AnnouncedOnce(b)
    ensures AnnouncedOnce(Purchase(b, winner, key, lot, now))
  {
    hide Place, TakeAll, Count;
    var b' := Purchase(b, winner, key, lot, now);
    if b' != b {
      PurchaseWrites(b, winner, key, lot, now);
      var more := b'.outbox[|b.outbox|..];
      assert b'.outbox == b.outbox + more;
      forall k: nat
        ensures Count(b'.outbox, OrderCreated(k)) == (if k < |b'.orders| then 1 else 0)
        ensures Count(b'.outbox, SellerOrderCreated(k)) == (if k < |b'.sellerOrders| then 1 else 0)
        ensures Count(b'.outbox, RefundCreated(k)) == RefundsOf(b', k)
      {
        PurchaseCounts(b, lot.product, k);
        CountAfter(b.outbox, more, OrderCreated(k));
        CountAfter(b.outbox, more, SellerOrderCreated(k));
        CountAfter(b.outbox, more, RefundCreated(k));
      }
    }
  }

  lemma PurchaseCounts(b: Books, product: nat, k: nat)
    ensures var more := [OrderCreated(|b.orders|), SellerOrderCreated(|b.sellerOrders|),
                         StockChanged(product), AuctionPurchased(|b.orders|)];
            && Count(more, OrderCreated(k)) == (if k == |b.orders| then 1 else 0)
            && Count(more, SellerOrderCreated(k)) == (if k == |b.sellerOrders| then 1 else 0)
            && Count(more, RefundCreated(k)) == 0
  {}

  lemma StepAnnouncesOnce(b: Books, policy: Policy, step: Step)
    requires AnnouncedOnce(b)
    ensures AnnouncedOnce(Apply(b, policy, step))
  {
    hide AnnouncedOnce, Place, Purchase, Cancel, CreateRefund, MoveTo, TakeAll, FirstRefused;
    match step
    case DoCheckout(customer, key, lines, now) =>
      if TakeAll(b.stock, lines).Some? { PlaceAnnounces(b, customer, key, lines, TakeAll(b.stock, lines).value, now); }
    case DoPurchase(winner, key, lot, now) => PurchaseAnnouncesOnce(b, winner, key, lot, now);
    case DoUpdateStatus(id, to) =>
      if id < |b.sellerOrders| { MoveAnnounces(b, id, to); }
    case DoDeliver(id, _, crash) =>
      if id < |b.sellerOrders| { MoveAnnounces(b, id, Processing); }
      MarkAnnounces(StartProcessing(b, id), id);
    case DoCancel(id, now) => CancelAnnouncesOnce(b, policy, id, now);
    case DoRefund(id, item, quantity, key, now) => RefundAnnouncesOnce(b, policy, id, item, quantity, key, now);
  }

  lemma MarkAnnounces(moved: Books, id: nat)
    requires AnnouncedOnce(moved)
    ensures AnnouncedOnce(moved.(processed := moved.processed + {id}))
  {
    hide Count;
    assert forall k: nat :: RefundsOf(moved.(processed := moved.processed + {id}), k) == RefundsOf(moved, k);
  }

  /**
   Over every run: one ORDER_CREATED per order, one SELLER_ORDER_CREATED
   per seller order, one REFUND_CREATED per refund.
   */
  lemma {:induction false} RunAnnouncesOnce(b: Books, policy: Policy, trace: seq<Step>)
    requires AnnouncedOnce(b)
    ensures AnnouncedOnce(Run(b, policy, trace))
    decreases |trace|
  {
    if trace != [] {
      hide AnnouncedOnce, Apply;
      StepAnnouncesOnce(b, policy, trace[0]);
      RunAnnouncesOnce(Apply(b, policy, trace[0]), policy, trace[1..]);
    }
  }
}
