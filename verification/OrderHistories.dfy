/** Legal status histories, one order per key and order totals over every run. */
module OrderHistories {
  import opened Results
  import opened Money
  import opened CartSplit
  import opened OrderBooks
  import opened BooksLaws
  import opened Conservation

  // ---------------------------------------------------------------------
  // Status histories
  // ---------------------------------------------------------------------

  /**
   The status an order's events lead to from AwaitingFulfillment;
   None once an event does not follow from the one before.
   */
  function StatusAfter(outbox: seq<Event>, id: nat): Option<Status> {
    if outbox == [] then Some(AwaitingFulfillment)
    else
      var before := StatusAfter(outbox[..|outbox| - 1], id);
      match outbox[|outbox| - 1]
      case StatusChanged(moved, from, to) =>
        if moved != id then before else if before == Some(from) && IsForward(from, to) then Some(to) else None
      case SellerOrderCancelled(cancelled) =>
        if cancelled != id then before else if before.Some? && !before.value.Cancelled? then Some(Cancelled) else None
      case _ => before
  }

  predicate Touches(e: Event, id: nat) {
    (e.StatusChanged? && e.moved == id) || (e.SellerOrderCancelled? && e.cancelled == id)
  }

  /** How many status events an order has had. */
  function Moves(outbox: seq<Event>, id: nat): nat {
    if outbox == [] then 0
    else Moves(outbox[..|outbox| - 1], id) + (if Touches(outbox[|outbox| - 1], id) then 1 else 0)
  }

  /** How many of them left AwaitingFulfillment for Processing. */
  function Starts(outbox: seq<Event>, id: nat): nat {
    if outbox == [] then 0
    else Starts(outbox[..|outbox| - 1], id)
         + (if outbox[|outbox| - 1] == StatusChanged(id, AwaitingFulfillment, Processing) then 1 else 0)
  }

  /** The events recorded for each order are a legal history that ends in its current status. */
  ghost predicate HistoriesLegal(b: Books) {
    forall id: nat :: StatusAfter(b.outbox, id)
      == Some(if id < |b.sellerOrders| then b.sellerOrders[id].status else AwaitingFulfillment)
  }

  lemma HistorySnoc(outbox: seq<Event>, e: Event, id: nat)
    ensures !Touches(e, id) ==> StatusAfter(outbox + [e], id) == StatusAfter(outbox, id)
    ensures e.StatusChanged? && e.moved == id && StatusAfter(outbox, id) == Some(e.from) && IsForward(e.from, e.to)
            ==> StatusAfter(outbox + [e], id) == Some(e.to)
    ensures e.SellerOrderCancelled? && e.cancelled == id && StatusAfter(outbox, id).Some?
            && !StatusAfter(outbox, id).value.Cancelled?
            ==> StatusAfter(outbox + [e], id) == Some(Cancelled)
  {}

  lemma {:induction false} HistorySkips(outbox: seq<Event>, more: seq<Event>, id: nat)
    requires forall e | e in more :: !Touches(e, id)
    ensures StatusAfter(outbox + more, id) == StatusAfter(outbox, id)
  {
    if more == [] {
      assert outbox + more == outbox;
    } else {
      HistorySkips(outbox, more[..|more| - 1], id);
      HistorySnoc(outbox + more[..|more| - 1], more[|more| - 1], id);
      assert outbox + more == outbox + more[..|more| - 1] + [more[|more| - 1]];
    }
  }

  lemma {:induction false} AddingIsLegal(b: Books, order: nat, groups: seq<Group>, now: int)
    requires HistoriesLegal(b)
    ensures HistoriesLegal(AddSellerOrders(b, order, groups, now))
    decreases |groups|
  {
    hide CommissionOn, TotalCents;
    if groups != [] {
      var b1 := AddSellerOrder(b, order, groups[0], now);
      forall id: nat
        ensures StatusAfter(b1.outbox, id)
                == Some(if id < |b1.sellerOrders| then b1.sellerOrders[id].status else AwaitingFulfillment)
      {
        HistorySnoc(b.outbox, SellerOrderCreated(|b.sellerOrders|), id);
      }
      AddingIsLegal(b1, order, groups[1..], now);
    }
  }

  lemma {:induction false} StockEventsTouchNothing(lines: seq<Line>)
    ensures forall e | e in StockEvents(lines) :: e.StockChanged?
  {
    if lines != [] {
      StockEventsTouchNothing(lines[1..]);
    }
  }

  lemma {:induction false} RestoreEventsTouchNothing(stock: Stock, items: seq<Item>)
    ensures forall e | e in RestoreEvents(stock, items) :: e.StockChanged?
  {
    if items != [] {
      RestoreEventsTouchNothing(stock, items[1..]);
    }
  }

  lemma CheckoutIsLegal(b: Books, customer: nat, key: string, lines: seq<Line>, now: int)
    requires HistoriesLegal(b)
    ensures HistoriesLegal(Checkout(b, customer, key, lines, now))
  {
    hide Split, AddSellerOrders, TakeAll, FirstRefused, TotalCents;
    var outcome := CheckoutOutcome(b, customer, key, lines);
    if outcome.Ok? && outcome.value.Placed? {
      var order := |b.orders|;
      var taken := b.(
        stock := TakeAll(b.stock, lines).value, orders := b.orders + [Order(customer, key, TotalCents(lines))]);
      var placed := AddSellerOrders(taken, order, Split(lines), now);
      AddingIsLegal(taken, order, Split(lines), now);
      StockEventsTouchNothing(lines);
      forall id: nat
        ensures StatusAfter(placed.outbox + [OrderCreated(order)] + StockEvents(lines), id)
                == StatusAfter(placed.outbox, id)
      {
        HistorySnoc(placed.outbox, OrderCreated(order), id);
        HistorySkips(placed.outbox + [OrderCreated(order)], StockEvents(lines), id);
      }
    }
  }

  /** A purchase writes one seller order, awaiting fulfillment, and leaves every other row alone. */
  lemma PurchaseWrites(b: Books, winner: nat, key: string, lot: Lot, now: int)
    requires PurchaseOutcome(b, winner, key, lot) == Ok(Placed(|b.orders|))
    ensures var b' := Purchase(b, winner, key, lot, now);
            var commission := CommissionOn(lot.price, lot.rate);
            && b'.orders == b.orders + [Order(winner, key, lot.price)]
            && b'.sellerOrders == b.sellerOrders + [SellerOrder(
                 |b.orders|, lot.seller, [Item(lot.product, lot.price, 1)],
                 lot.price, commission, AwaitingFulfillment, [])]
            && b'.ledger == b.ledger + [Entry(SaleCredit, lot.price, |b.sellerOrders|, lot.seller, now),
                                        Entry(CommissionDebit, commission, |b.sellerOrders|, lot.seller, now)]
            && b'.claims == b.claims[(winner, key) := |b.orders|] && b'.processed == b.processed
            && lot.product in b.stock && b.stock[lot.product] >= 1
            && b'.stock == b.stock[lot.product := b.stock[lot.product] - 1]
  {
    var l := LotLine(lot);
    var lines := [l];
    assert lines[1..] == [] && ItemsOf(lines) == [Item(lot.product, lot.price, 1)];
    assert TakeAll(b.stock, lines).value == b.stock[lot.product := b.stock[lot.product] - 1];
    SplitOne(l);
    hide Split, TotalCents, CommissionOn, TakeAll, ItemsOf;
    var g, order := Group(l.seller, l.rate, lines), |b.orders|;
    var taken := b.(
      stock := TakeAll(b.stock, lines).value, orders := b.orders + [Order(winner, key, TotalCents(lines))]);
    assert [g][1..] == [];
    assert AddSellerOrders(taken, order, [g], now) == AddSellerOrder(taken, order, g, now);
    assert SellerOrderFor(order, g)
        == SellerOrder(order, lot.seller, [Item(lot.product, lot.price, 1)],
                       lot.price, CommissionOn(lot.price, lot.rate), AwaitingFulfillment, []);
  }

  lemma PurchaseIsLegal(b: Books, winner: nat, key: string, lot: Lot, now: int)
    requires HistoriesLegal(b)
    ensures HistoriesLegal(Purchase(b, winner, key, lot, now))
  {
    hide Place, TakeAll, CommissionOn;
    var b' := Purchase(b, winner, key, lot, now);
    if b' != b {
      PurchaseWrites(b, winner, key, lot, now);
      hide Purchase;
      forall id: nat
        ensures StatusAfter(b'.outbox, id)
                == if id == |b.sellerOrders| then Some(AwaitingFulfillment) else StatusAfter(b.outbox, id)
      {
        PurchaseHistory(b, id, lot.product);
      }
    }
  }

  lemma PurchaseHistory(b: Books, id: nat, product: nat)
    requires HistoriesLegal(b)
    ensures var more := [OrderCreated(|b.orders|), SellerOrderCreated(|b.sellerOrders|),
                         StockChanged(product), AuctionPurchased(|b.orders|)];
            StatusAfter(b.outbox + more, id)
            == if id == |b.sellerOrders| then Some(AwaitingFulfillment) else StatusAfter(b.outbox, id)
  {
    var o1 := b.outbox + [OrderCreated(|b.orders|)];
    var o2 := o1 + [SellerOrderCreated(|b.sellerOrders|)];
    var o3 := o2 + [StockChanged(product)];
    HistorySnoc(b.outbox, OrderCreated(|b.orders|), id);
    HistorySnoc(o1, SellerOrderCreated(|b.sellerOrders|), id);
    HistorySnoc(o2, StockChanged(product), id);
    HistorySnoc(o3, AuctionPurchased(|b.orders|), id);
    assert o3 + [AuctionPurchased(|b.orders|)]
        == b.outbox + [OrderCreated(|b.orders|), SellerOrderCreated(|b.sellerOrders|),
                       StockChanged(product), AuctionPurchased(|b.orders|)];
  }

  lemma MoveIsLegal(b: Books, id: nat, to: Status)
    requires HistoriesLegal(b) && id < |b.sellerOrders| && IsForward(b.sellerOrders[id].status, to)
    ensures HistoriesLegal(MoveTo(b, id, to))
  {}

  lemma CancelIsLegal(b: Books, policy: Policy, id: nat, now: int)
    requires HistoriesLegal(b)
    ensures HistoriesLegal(Cancel(b, policy, id, now))
  {
    hide RestoreItems, RestoreEvents;
    if CancelOutcome(b, policy, id) == Ok(true) {
      var more := RestoreEvents(b.stock, b.sellerOrders[id].items);
      RestoreEventsTouchNothing(b.stock, b.sellerOrders[id].items);
      forall i: nat
        ensures StatusAfter(b.outbox + more + [SellerOrderCancelled(id)], i)
             == if i == id then Some(Cancelled) else StatusAfter(b.outbox, i)
      {
        HistorySkips(b.outbox, more, i);
        HistorySnoc(b.outbox + more, SellerOrderCancelled(id), i);
      }
    }
  }

  lemma RefundIsLegal(b: Books, policy: Policy, id: nat, item: nat, quantity: nat, key: string, now: int)
    requires HistoriesLegal(b)
    ensures HistoriesLegal(CreateRefund(b, policy, id, item, quantity, key, now))
  {
    hide RefundedQuantity, ApplyRatio;
    var b' := CreateRefund(b, policy, id, item, quantity, key, now);
    if b' != b {
      var product := b.sellerOrders[id].items[item].product;
      var more: seq<Event> := (if product in b.stock then [StockChanged(product)] else []) + [RefundCreated(id)];
      assert b'.outbox == b.outbox + more;
      forall i: nat {
        HistorySkips(b.outbox, more, i);
      }
    }
  }

  lemma StepIsLegal(b: Books, policy: Policy, step: Step)
    requires HistoriesLegal(b)
    ensures HistoriesLegal(Apply(b, policy, step))
  {
    match step
    case DoCheckout(customer, key, lines, now) => CheckoutIsLegal(b, customer, key, lines, now);
    case DoPurchase(winner, key, lot, now) => PurchaseIsLegal(b, winner, key, lot, now);
    case DoUpdateStatus(id, to) =>
      if UpdateStatusOutcome(b, id, to).Ok? { MoveIsLegal(b, id, to); }
    case DoDeliver(id, stale, crash) =>
      if id < |b.sellerOrders| && b.sellerOrders[id].status.AwaitingFulfillment? { MoveIsLegal(b, id, Processing); }
    case DoCancel(id, now) => CancelIsLegal(b, policy, id, now);
    case DoRefund(id, item, quantity, key, now) => RefundIsLegal(b, policy, id, item, quantity, key, now);
  }

  /** However deliveries repeat, interleave and crash, every order's events form one legal history. */
  lemma {:induction false} RunIsLegal(b: Books, policy: Policy, trace: seq<Step>)
    requires HistoriesLegal(b)
    ensures HistoriesLegal(Run(b, policy, trace))
    decreases |trace|
  {
    if trace != [] {
      StepIsLegal(b, policy, trace[0]);
      RunIsLegal(Apply(b, policy, trace[0]), policy, trace[1..]);
    }
  }

  /**
   A legal history climbs rank by rank: it starts processing at most once, and has exactly as many events as the rank of
   the status it ends in; a cancellation may come early, so four in all at most. That bounds the cascade of events any
   number of redeliveries can cause.
   */
  lemma {:induction false} LegalHistoryClimbs(outbox: seq<Event>, id: nat)
    requires StatusAfter(outbox, id).Some?
    ensures var s := StatusAfter(outbox, id).value;
            && Moves(outbox, id) <= Rank(s) <= 4
            && (!s.Cancelled? ==> Moves(outbox, id) == Rank(s))
            && Starts(outbox, id) <= 1
            && (s.AwaitingFulfillment? ==> Starts(outbox, id) == 0)
            && (s.Processing? || s.Shipped? || s.Delivered? ==> Starts(outbox, id) == 1)
  {
    if outbox != [] {
      LegalHistoryClimbs(outbox[..|outbox| - 1], id);
    }
  }

  /**
   From a fresh marketplace, whatever is delivered how often: at most one start and at most four status events per
   order, and one for each rank it has climbed while it is not cancelled.
   */
  lemma StartsAtMostOnce(b: Books, policy: Policy, trace: seq<Step>, id: nat)
    requires IsFresh(b)
    ensures var b' := Run(b, policy, trace); Starts(b'.outbox, id) <= 1 && Moves(b'.outbox, id) <= 4
    ensures var b' := Run(b, policy, trace);
            id < |b'.sellerOrders| && !b'.sellerOrders[id].status.Cancelled? ==>
              Moves(b'.outbox, id) == Rank(b'.sellerOrders[id].status)
  {
    RunIsLegal(b, policy, trace);
    LegalHistoryClimbs(Run(b, policy, trace).outbox, id);
  }

  // ---------------------------------------------------------------------
  // Idempotency keys
  // ---------------------------------------------------------------------

  /** Claims and orders are in one-to-one correspondence. */
  predicate ClaimsMatchOrders(b: Books) {
    && (forall i: nat | i < |b.orders| ::
          (b.orders[i].buyer, b.orders[i].key) in b.claims && b.claims[(b.orders[i].buyer, b.orders[i].key)] == i)
    && (forall c | c in b.claims :: b.claims[c] < |b.orders|
          && (b.orders[b.claims[c]].buyer, b.orders[b.claims[c]].key) == c)
  }

  /** Claims and orders are only ever added to. */
  predicate ClaimsGrow(b: Books, b': Books) {
    && b.orders <= b'.orders
    && forall c | c in b.claims :: c in b'.claims && b'.claims[c] == b.claims[c]
  }

  lemma PlaceKeepsClaims(b: Books, customer: nat, key: string, lines: seq<Line>, stock: Stock, now: int)
    requires ClaimsMatchOrders(b) && (customer, key) !in b.claims
    ensures var b' := Place(b, customer, key, lines, stock, now); ClaimsMatchOrders(b') && ClaimsGrow(b, b')
  {
    hide Split, AddSellerOrders, TotalCents, StockEvents;
    var taken := b.(stock := stock, orders := b.orders + [Order(customer, key, TotalCents(lines))]);
    AddingTakesUnits(taken, |b.orders|, Split(lines), now, 0);
  }

  lemma StepKeepsClaims(b: Books, policy: Policy, step: Step)
    requires ClaimsMatchOrders(b)
    ensures ClaimsMatchOrders(Apply(b, policy, step)) && ClaimsGrow(b, Apply(b, policy, step))
  {
    hide Checkout, Purchase, RestoreItems, RestoreEvents, RefundedQuantity;
    if step.DoCheckout? || step.DoPurchase? {
      SalesKeepClaims(b, policy, step);
    }
  }

  lemma SalesKeepClaims(b: Books, policy: Policy, step: Step)
    requires ClaimsMatchOrders(b) && (step.DoCheckout? || step.DoPurchase?)
    ensures ClaimsMatchOrders(Apply(b, policy, step)) && ClaimsGrow(b, Apply(b, policy, step))
  {
    hide Place, TakeAll, FirstRefused;
    var b' := Apply(b, policy, step);
    if step.DoCheckout? && b' != b {
      PlaceKeepsClaims(b, step.customer, step.claimKey, step.lines, TakeAll(b.stock, step.lines).value, step.placedAt);
    } else if step.DoPurchase? && b' != b {
      var lines := [LotLine(step.lot)];
      PlaceKeepsClaims(b, step.winner, step.winKey, lines, TakeAll(b.stock, lines).value, step.boughtAt);
    }
  }

  lemma {:induction false} RunKeepsClaims(b: Books, policy: Policy, trace: seq<Step>)
    requires ClaimsMatchOrders(b)
    ensures ClaimsMatchOrders(Run(b, policy, trace)) && ClaimsGrow(b, Run(b, policy, trace))
    decreases |trace|
  {
    hide Apply;
    if trace != [] {
      StepKeepsClaims(b, policy, trace[0]);
      RunKeepsClaims(Apply(b, policy, trace[0]), policy, trace[1..]);
    }
  }

  /**
   At most one order per customer and key, and a retry after commit returns that order and changes nothing,
   whatever has happened in between.
   */
  lemma RetriedCheckout(
    b: Books, policy: Policy, trace: seq<Step>, customer: nat, key: string, lines: seq<Line>, now: int)
    requires ClaimsMatchOrders(b)
    ensures var b' := Run(b, policy, trace);
            && (forall i, j | 0 <= i < j < |b'.orders| ::
                  b'.orders[i].buyer != b'.orders[j].buyer || b'.orders[i].key != b'.orders[j].key)
            && ((customer, key) in b.claims ==>
                  && CheckoutOutcome(b', customer, key, lines) == Ok(Replayed(b.claims[(customer, key)]))
                  && Checkout(b', customer, key, lines, now) == b'
                  && b.orders <= b'.orders)
  {
    RunKeepsClaims(b, policy, trace);
  }

  /** A failed checkout leaves nothing behind: the key stays free for the next attempt. */
  lemma FailedCheckoutLeavesKeyFree(b: Books, customer: nat, key: string, lines: seq<Line>, now: int)
    ensures CheckoutOutcome(b, customer, key, lines).Err? ==>
              Checkout(b, customer, key, lines, now) == b && (customer, key) !in b.claims
    ensures (customer, key) !in b.claims && lines != [] && FirstRefused(lines, 0).None? ==>
              (CheckoutOutcome(b, customer, key, lines) == Ok(Placed(|b.orders|))
               <==> forall l | l in lines :: l.product in b.stock && Units(lines, l.product) <= b.stock[l.product])
  {
    hide Split, FirstRefused, TakeAll, Units;
    TakeAllIff(b.stock, lines);
  }

  /**
   A refund retried under its key never makes a second row: it
   returns the first or is refused, and nothing changes.
   */
  lemma RetriedRefund(b: Books, policy: Policy, id: nat, i: nat, item: nat, quantity: nat, now: int)
    requires RowsFit(b) && id < |b.sellerOrders| && i < |b.sellerOrders[id].refunds|
    ensures var so := b.sellerOrders[id];
            var key := so.refunds[i].key;
            && CreateRefund(b, policy, id, item, quantity, key, now) == b
            && (RefundOutcome(b, policy, id, item, quantity, key) == Ok(Existing(i))
                <==> so.status in policy.refundable && item < |so.items|
                     && quantity <= so.items[item].quantity - RefundedQuantity(so.refunds, item))
  {
    var so := b.sellerOrders[id];
    assert RowFits(so, b.stock);
    var j := FindRefund(so.refunds, so.refunds[i].key);
    assert j == i;
  }

  // ---------------------------------------------------------------------
  // Order totals
  // ---------------------------------------------------------------------

  function SubtotalIn(order: nat): Measure {
    (i: nat, so: SellerOrder) => if so.order == order then so.subtotal else 0
  }

  predicate TotalsAgree(b: Books) {
    && (forall so | so in b.sellerOrders :: so.order < |b.orders|)
    && forall k: nat | k < |b.orders| :: b.orders[k].total == SumBy(SubtotalIn(k), b.sellerOrders)
  }

  lemma {:induction false} NoneYet(orders: seq<SellerOrder>, order: nat)
    requires forall so | so in orders :: so.order < order
    ensures SumBy(SubtotalIn(order), orders) == 0
  {
    if orders != [] {
      assert orders[|orders| - 1] in orders;
      NoneYet(orders[..|orders| - 1], order);
    }
  }

  lemma {:induction false} AddingSubtotals(b: Books, order: nat, groups: seq<Group>, now: int, k: nat)
    ensures var b' := AddSellerOrders(b, order, groups, now);
            && SumBy(SubtotalIn(k), b'.sellerOrders)
                 == SumBy(SubtotalIn(k), b.sellerOrders) + (if k == order then SumSubtotals(groups) else 0)
            && (forall so | so in b'.sellerOrders :: so in b.sellerOrders || so.order == order)
    decreases |groups|
  {
    hide CommissionOn, TotalCents;
    if groups != [] {
      SumSnoc(SubtotalIn(k), b.sellerOrders, SellerOrderFor(order, groups[0]));
      AddingSubtotals(AddSellerOrder(b, order, groups[0], now), order, groups[1..], now, k);
    }
  }

  lemma PlaceTotals(b: Books, customer: nat, key: string, lines: seq<Line>, stock: Stock, now: int)
    requires TotalsAgree(b)
    ensures TotalsAgree(Place(b, customer, key, lines, stock, now))
  {
    hide Split, TotalCents, AddSellerOrders;
    var order := |b.orders|;
    var taken := b.(stock := stock, orders := b.orders + [Order(customer, key, TotalCents(lines))]);
    var placed := AddSellerOrders(taken, order, Split(lines), now);
    AddingTakesUnits(taken, order, Split(lines), now, 0);
    AddingSubtotals(taken, order, Split(lines), now, 0);
    NoneYet(b.sellerOrders, order);
    SplitIsPartition(lines, 0);
    forall k: nat | k < |placed.orders|
      ensures placed.orders[k].total == SumBy(SubtotalIn(k), placed.sellerOrders)
    {
      AddingSubtotals(taken, order, Split(lines), now, k);
    }
  }

  lemma SameSubtotals(b: Books, b': Books, id: nat)
    requires TotalsAgree(b) && id < |b.sellerOrders| && b'.orders == b.orders && id < |b'.sellerOrders|
    requires b'.sellerOrders == b.sellerOrders[id := b'.sellerOrders[id]]
    requires b'.sellerOrders[id].order == b.sellerOrders[id].order
             && b'.sellerOrders[id].subtotal == b.sellerOrders[id].subtotal
    ensures TotalsAgree(b')
  {
    assert b.sellerOrders[id] in b.sellerOrders;
    forall k: nat | k < |b.orders|
      ensures b'.orders[k].total == SumBy(SubtotalIn(k), b'.sellerOrders)
    {
      SumUpdate(SubtotalIn(k), b.sellerOrders, id, b'.sellerOrders[id]);
    }
  }

  lemma StepTotals(b: Books, policy: Policy, step: Step)
    requires TotalsAgree(b)
    ensures TotalsAgree(Apply(b, policy, step))
  {
    hide Place, TakeAll, FirstRefused, RestoreItems, RestoreEvents, RefundedQuantity, TotalsAgree;
    var b' := Apply(b, policy, step);
    if step.DoCheckout? {
      if b' != b {
        PlaceTotals(b, step.customer, step.claimKey, step.lines, TakeAll(b.stock, step.lines).value, step.placedAt);
      }
    } else if step.DoPurchase? {
      if b' != b {
        var lines := [LotLine(step.lot)];
        var placed := Place(b, step.winner, step.winKey, lines, TakeAll(b.stock, lines).value, step.boughtAt);
        PlaceTotals(b, step.winner, step.winKey, lines, TakeAll(b.stock, lines).value, step.boughtAt);
        SameTotals(placed, b');
      }
    } else if Apply(b, policy, step).sellerOrders != b.sellerOrders {
      SameSubtotals(b, Apply(b, policy, step), step.id);
    } else {
      SameTotals(b, Apply(b, policy, step));
    }
  }

  lemma SameTotals(b: Books, b': Books)
    requires TotalsAgree(b) && b'.orders == b.orders && b'.sellerOrders == b.sellerOrders
    ensures TotalsAgree(b')
  {}

  /** An order's total is always the sum of its seller orders' subtotals. */
  lemma {:induction false} RunTotals(b: Books, policy: Policy, trace: seq<Step>)
    requires TotalsAgree(b)
    ensures TotalsAgree(Run(b, policy, trace))
    decreases |trace|
  {
    if trace != [] {
      StepTotals(b, policy, trace[0]);
      RunTotals(Apply(b, policy, trace[0]), policy, trace[1..]);
    }
  }

  /** Commission and net split every subtotal exactly, each between nothing and the whole for rates up to 100%. */
  lemma CommissionSplitsSubtotal(order: nat, g: Group)
    requires g.rate <= 10_000
    ensures var so := SellerOrderFor(order, g);
            0 <= so.commission <= so.subtotal && -10_000 < 2 * (10_000 * so.commission - so.subtotal * g.rate) <= 10_000
  {
    hide FormatCentsToMoney, ParseMoneyToCents;
    ParseUndoesFormat(g.rate);
    PercentWithinWhole(TotalCents(g.lines), FormatCentsToMoney(g.rate));
    HalfUpError(TotalCents(g.lines) * g.rate, 10_000);
  }
}
