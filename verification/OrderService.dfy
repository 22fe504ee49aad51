/** The order transactions as they run: loops over cart lines, groups and items, against one set of tables. */
module OrderTransactions {
  import opened Results
  import opened Money
  import opened CartSplit
  import B = OrderBooks
  import BooksLaws
  import OrderHistories
  import P = ParentOrders
  import L = LifecycleRuns

  /**
   The fields are the committed tables. A transaction that may still be refused works on local copies, which a
   refusal simply drops: that is its rollback.
   */
  class OrderService {
    var stock: B.Stock
    var orders: seq<B.Order>
    var sellerOrders: seq<B.SellerOrder>
    var ledger: seq<B.Entry>
    var outbox: seq<B.Event>
    var claims: map<(nat, string), nat>
    var processed: set<nat>
    /** The parents' stored statuses, by order, and their change events. */
    var statuses: seq<P.OrderStatus>
    var moves: seq<P.Move>
    /** Each customer's cart rows, joined with their products as a checkout reads them. */
    var carts: map<nat, seq<Line>>
    const policy: B.Policy

    ghost function State(): B.Books
      reads this
    {
      B.Books(stock, orders, sellerOrders, ledger, outbox, claims, processed)
    }

    ghost function Parents(): P.Parents
      reads this
    {
      P.Parents(State(), statuses, moves)
    }

    function CartOf(customer: nat): seq<Line>
      reads this
    {
      if customer in carts then carts[customer] else []
    }

    constructor (stock: B.Stock, carts: map<nat, seq<Line>>, policy: B.Policy)
      ensures B.IsFresh(State()) && this.stock == stock && this.policy == policy && this.carts == carts
      ensures statuses == [] && moves == []
    {
      this.stock, this.carts, this.policy, statuses, moves := stock, carts, policy, [], [];
      orders, sellerOrders, ledger, outbox, claims, processed := [], [], [], [], map[], {};
    }

    /** The customer's cart becomes an order and is emptied; a refusal leaves both as they were. */
    method Checkout(customer: nat, key: string, now: int) returns (outcome: Result<B.CheckoutReply, B.CheckoutError>)
      modifies this
      ensures outcome == B.CheckoutOutcome(old(State()), customer, key, old(CartOf(customer)))
      ensures State() == B.Checkout(old(State()), customer, key, old(CartOf(customer)), now)
      ensures Parents() == P.Next(old(Parents()), policy, B.DoCheckout(customer, key, old(CartOf(customer)), now))
      ensures carts == if outcome.Ok? && outcome.value.Placed? then old(carts)[customer := []] else old(carts)
    {
      var lines := CartOf(customer);
      P.NextOfCheckout(Parents(), policy, customer, key, lines, now);
      hide B.Place, B.TakeAll, B.FirstRefused, P.Next;
      if (customer, key) in claims {
        return Ok(B.Replayed(claims[(customer, key)]));
      }
      if lines == [] {
        return Err(B.CartEmpty);
      }
      var refused := AssertPurchasable(lines);
      if refused.Some? {
        return Err(refused.value);
      }
      var taken := TakeStock(lines);
      if taken.None? {
        return Err(B.StockConflict);
      }
      var order := |orders|;
      PlaceOrder(customer, key, lines, taken.value, now);
      carts := carts[customer := []];
      statuses := statuses + [P.New];
      outcome := Ok(B.Placed(order));
    }

    /** The rows of an order whose stock updates have gone through. */
    method PlaceOrder(customer: nat, key: string, lines: seq<Line>, taken: B.Stock, now: int)
      modifies `stock, `orders, `sellerOrders, `ledger, `outbox, `claims
      ensures State() == B.Place(old(State()), customer, key, lines, taken, now)
    {
      hide Split, TotalCents, B.AddSellerOrder, B.AddSellerOrders, B.CommissionOn, BooksLaws.SumBy;
      var groups := GroupBySeller(lines);
      var order := |orders|;
      stock := taken;
      orders := orders + [B.Order(customer, key, TotalCents(lines))];
      ghost var taking := State();
      CreateSellerOrders(order, groups, now);
      BooksLaws.AddingTakesUnits(taking, order, groups, now, 0);
      RecordStockEvents(lines, order);
      claims := claims[(customer, key) := order];
    }

    /** A winner's purchase, once its auction has let it through. */
    method Purchase(winner: nat, key: string, lot: B.Lot, now: int)
      returns (outcome: Result<B.CheckoutReply, B.CheckoutError>)
      modifies this
      ensures outcome == B.PurchaseOutcome(old(State()), winner, key, lot)
      ensures State() == B.Purchase(old(State()), winner, key, lot, now)
      ensures Parents() == P.Next(old(Parents()), policy, B.DoPurchase(winner, key, lot, now)) && carts == old(carts)
    {
      P.NextOfPurchase(Parents(), policy, winner, key, lot, now);
      LotGuard(stock, lot);
      hide B.CommissionOn, B.Place, B.TakeAll, P.Next;
      if (winner, key) in claims {
        return Ok(B.Replayed(claims[(winner, key)]));
      }
      if lot.product !in stock || stock[lot.product] < 1 {
        return Err(B.StockConflict);
      }
      OrderHistories.PurchaseWrites(State(), winner, key, lot, now);
      var order, id := |orders|, |sellerOrders|;
      stock := stock[lot.product := stock[lot.product] - 1];
      var commission := B.CommissionOn(lot.price, lot.rate);
      orders := orders + [B.Order(winner, key, lot.price)];
      sellerOrders := sellerOrders + [B.SellerOrder(order, lot.seller, [B.Item(lot.product, lot.price, 1)], lot.price,
                                                    commission, B.AwaitingFulfillment, [])];
      ledger := ledger + [B.Entry(B.SaleCredit, lot.price, id, lot.seller, now),
                          B.Entry(B.CommissionDebit, commission, id, lot.seller, now)];
      outbox := outbox + [B.OrderCreated(order), B.SellerOrderCreated(id),
                          B.StockChanged(lot.product), B.AuctionPurchased(order)];
      claims := claims[(winner, key) := order];
      statuses := statuses + [P.New];
      outcome := Ok(B.Placed(order));
    }

    static lemma LotGuard(stock: B.Stock, lot: B.Lot)
      ensures B.TakeAll(stock, [B.LotLine(lot)]).Some? <==> lot.product in stock && stock[lot.product] >= 1
    {
      assert [B.LotLine(lot)][1..] == [];
    }

    static method AssertPurchasable(lines: seq<Line>) returns (refused: Option<B.CheckoutError>)
      ensures refused == B.FirstRefused(lines, 0)
    {
      for i := 0 to |lines|
        invariant B.FirstRefused(lines, 0) == B.FirstRefused(lines, i)
      {
        if !lines[i].published {
          return Some(B.Unavailable(i));
        }
        if !lines[i].fixedPrice || lines[i].price.None? {
          return Some(B.NotForDirectPurchase(i));
        }
      }
      refused := None;
    }

    /** One guarded decrement per line, in cart order; the first that affects no row aborts them all. */
    method TakeStock(lines: seq<Line>) returns (taken: Option<B.Stock>)
      ensures taken == B.TakeAll(stock, lines)
    {
      var working: B.Stock := stock;
      for i := 0 to |lines|
        invariant B.TakeAll(stock, lines) == B.TakeAll(working, lines[i..])
      {
        var l := lines[i];
        assert lines[i..][0] == l && lines[i..][1..] == lines[i + 1..];
        if l.product !in working || working[l.product] < l.quantity {
          return None;
        }
        working := working[l.product := working[l.product] - l.quantity];
      }
      taken := Some(working);
    }

    method CreateSellerOrders(order: nat, groups: seq<Group>, now: int)
      modifies `sellerOrders, `ledger, `outbox
      ensures State() == B.AddSellerOrders(old(State()), order, groups, now)
    {
      hide B.AddSellerOrder;
      for i := 0 to |groups|
        invariant B.AddSellerOrders(old(State()), order, groups, now)
                  == B.AddSellerOrders(State(), order, groups[i..], now)
      {
        assert groups[i..][0] == groups[i] && groups[i..][1..] == groups[i + 1..];
        CreateSellerOrder(order, groups[i], now);
      }
      assert groups[|groups|..] == [];
    }

    method CreateSellerOrder(order: nat, group: Group, now: int)
      modifies `sellerOrders, `ledger, `outbox
      ensures State() == B.AddSellerOrder(old(State()), order, group, now)
    {
      hide B.CommissionOn, TotalCents;
      var subtotal := TotalCents(group.lines);
      var commission := B.CommissionOn(subtotal, group.rate);
      var items: seq<B.Item> := [];
      for i := 0 to |group.lines|
        invariant items + B.ItemsOf(group.lines[i..]) == B.ItemsOf(group.lines)
        invariant State() == old(State())
      {
        var l := group.lines[i];
        assert group.lines[i..][1..] == group.lines[i + 1..];
        items := items + [B.Item(l.product, B.OrZero(l.price), l.quantity)];
      }
      assert items == B.ItemsOf(group.lines);
      var id := |sellerOrders|;
      sellerOrders := sellerOrders + [B.SellerOrder(
        order, group.seller, items, subtotal, commission, B.AwaitingFulfillment, [])];
      ledger := ledger + [B.Entry(B.SaleCredit, subtotal, id, group.seller, now),
                          B.Entry(B.CommissionDebit, commission, id, group.seller, now)];
      outbox := outbox + [B.SellerOrderCreated(id)];
    }

    method RecordStockEvents(lines: seq<Line>, order: nat)
      modifies `outbox
      ensures outbox == old(outbox) + [B.OrderCreated(order)] + B.StockEvents(lines)
    {
      outbox := outbox + [B.OrderCreated(order)];
      for i := 0 to |lines|
        invariant outbox + B.StockEvents(lines[i..]) == old(outbox) + [B.OrderCreated(order)] + B.StockEvents(lines)
      {
        assert lines[i..][1..] == lines[i + 1..];
        outbox := outbox + [B.StockChanged(lines[i].product)];
      }
    }

    /** The transaction with nothing in between its reads and its commit. */
    method UpdateStatus(id: nat, to: B.Status) returns (outcome: Result<(), B.StatusError>)
      modifies this
      ensures outcome == B.UpdateStatusOutcome(old(State()), id, to)
      ensures State() == B.UpdateStatus(old(State()), id, to)
      ensures Parents() == P.Next(old(Parents()), policy, B.DoUpdateStatus(id, to)) && carts == old(carts)
    {
      if id >= |sellerOrders| {
        return Err(B.OrderNotFound);
      }
      var previous, order := sellerOrders[id].status, sellerOrders[id].order;
      if !B.IsForward(previous, to) {
        return Err(B.BadTransition(previous, to));
      }
      var step := B.DoUpdateStatus(id, to);
      L.WholeIsNext(Parents(), policy, step);
      hide L.Look, L.Commit, P.Next;
      var draft := DeriveParent(step);
      draft := LookAtParent(order, draft);
      draft := LookAtParent(order, draft);
      CommitUpdateStatus(id, to, draft);
      outcome := Ok(());
    }

    /** Reads the committed siblings, under the transaction's own write, and derives the parent's status from them. */
    method DeriveParent(step: B.Step) returns (draft: L.Draft)
      requires P.Accepted(State(), policy, step)
      ensures draft == L.Begin(Parents(), policy, step)
    {
      P.AcceptedWrites(State(), policy, step);
      var id := step.id;
      hide P.Derive, P.Accepted, B.Apply;
      var order := sellerOrders[id].order;
      ghost var written := sellerOrders[id := sellerOrders[id].(status := P.Target(step))];
      var siblings: seq<B.Status> := [];
      for i := 0 to |sellerOrders|
        invariant siblings == P.ChildStatuses(written[..i], order)
      {
        assert written[..i + 1][..i] == written[..i];
        if sellerOrders[i].order == order {
          siblings := siblings + [if i == id then P.Target(step) else sellerOrders[i].status];
        }
      }
      assert written[..|sellerOrders|] == written;
      draft := L.Draft(step, P.Derive(siblings), []);
    }

    /** One unlocked read of the parent's row: first to compare, then again to save. */
    method LookAtParent(order: nat, draft: L.Draft) returns (looked: L.Draft)
      ensures looked == L.Look(Parents(), order, draft)
    {
      if draft.looks != [] && (draft.looks[0] == draft.next || |draft.looks| >= 2) {
        return draft;
      }
      if order >= |statuses| {
        return draft.(looks := [draft.next]);
      }
      looked := draft.(looks := draft.looks + [statuses[order]]);
    }

    /** Stores and announces what was derived, as far as the looks found it different. */
    method StoreParent(order: nat, draft: L.Draft)
      requires L.IsReady(draft)
      modifies `statuses, `moves
      ensures statuses == if L.Stores(draft) && order < |old(statuses)| then old(statuses)[order := draft.next]
                          else old(statuses)
      ensures moves == if draft.looks[0] != draft.next
                       then old(moves) + [P.Move(order, draft.looks[0], draft.next)] else old(moves)
    {
      if draft.looks[0] == draft.next {
        return;
      }
      if draft.looks[1] != draft.next && order < |statuses| {
        statuses := statuses[order := draft.next];
      }
      moves := moves + [P.Move(order, draft.looks[0], draft.next)];
    }

    /** The commit: row, event and parent become visible together, over whatever the parent's row has become. */
    method CommitUpdateStatus(id: nat, to: B.Status, draft: L.Draft)
      requires B.UpdateStatusOutcome(State(), id, to).Ok?
      requires draft.step == B.DoUpdateStatus(id, to) && L.IsReady(draft)
      modifies `sellerOrders, `outbox, `statuses, `moves
      ensures Parents() == L.Commit(old(Parents()), policy, old(sellerOrders[id].order), draft)
    {
      var sellerOrder := sellerOrders[id];
      var previous := sellerOrder.status;
      sellerOrder := sellerOrder.(status := to);
      sellerOrders := sellerOrders[id := sellerOrder];
      outbox := outbox + [B.StatusChanged(id, previous, to)];
      StoreParent(sellerOrder.order, draft);
    }

    /** One worker's delivery: check, locked move, then the mark as a write of its own. */
    method Process(id: nat, stale: bool, crash: bool)
      modifies this
      ensures State() == B.Deliver(old(State()), id, stale, crash)
      ensures Parents() == P.Next(old(Parents()), policy, B.DoDeliver(id, stale, crash)) && carts == old(carts)
    {
      if id in processed && !stale {
        return;
      }
      if id < |sellerOrders| && sellerOrders[id].status == B.AwaitingFulfillment {
        sellerOrders := sellerOrders[id := sellerOrders[id].(status := B.Processing)];
        outbox := outbox + [B.StatusChanged(id, B.AwaitingFulfillment, B.Processing)];
      }
      if crash {
        return;
      }
      processed := processed + {id};
    }

    /** The transaction with nothing in between its reads and its commit. */
    method Cancel(id: nat, now: int) returns (outcome: Result<bool, B.CancelError>)
      modifies this
      ensures outcome == B.CancelOutcome(old(State()), policy, id)
      ensures State() == B.Cancel(old(State()), policy, id, now)
      ensures Parents() == P.Next(old(Parents()), policy, B.DoCancel(id, now)) && carts == old(carts)
    {
      if id >= |sellerOrders| {
        return Err(B.NoSuchOrder);
      }
      var status, order := sellerOrders[id].status, sellerOrders[id].order;
      if status == B.Cancelled {
        return Ok(false);
      }
      if status !in policy.cancellable {
        return Err(B.NotCancellable(status));
      }
      var step := B.DoCancel(id, now);
      L.WholeIsNext(Parents(), policy, step);
      hide L.Look, L.Commit, P.Next, B.RestoreItems, B.RestoreEvents;
      var draft := DeriveParent(step);
      draft := LookAtParent(order, draft);
      draft := LookAtParent(order, draft);
      CommitCancel(id, now, draft);
      outcome := Ok(true);
    }

    method CommitCancel(id: nat, now: int, draft: L.Draft)
      requires B.CancelOutcome(State(), policy, id) == Ok(true)
      requires draft.step == B.DoCancel(id, now) && L.IsReady(draft)
      modifies `stock, `ledger, `sellerOrders, `outbox, `statuses, `moves
      ensures Parents() == L.Commit(old(Parents()), policy, old(sellerOrders[id].order), draft)
    {
      hide B.RestoreItems, B.RestoreEvents, B.Checkout, B.Purchase, B.Deliver, B.CreateRefund;
      var sellerOrder := sellerOrders[id];
      RestoreEach(sellerOrder.items);
      ledger := ledger + [B.Entry(B.EarningReversal, sellerOrder.subtotal, id, sellerOrder.seller, now),
                          B.Entry(B.CommissionReversal, sellerOrder.commission, id, sellerOrder.seller, now)];
      sellerOrders := sellerOrders[id := sellerOrder.(status := B.Cancelled)];
      outbox := outbox + [B.SellerOrderCancelled(id)];
      StoreParent(sellerOrder.order, draft);
    }

    method RestoreEach(items: seq<B.Item>)
      modifies `stock, `outbox
      ensures stock == B.RestoreItems(old(stock), items)
      ensures outbox == old(outbox) + B.RestoreEvents(old(stock), items)
    {
      for i := 0 to |items|
        invariant stock.Keys == old(stock).Keys
        invariant B.RestoreItems(stock, items[i..]) == B.RestoreItems(old(stock), items)
        invariant outbox + B.RestoreEvents(old(stock), items[i..]) == old(outbox) + B.RestoreEvents(old(stock), items)
      {
        assert items[i..][1..] == items[i + 1..];
        var restored := RestoreProductStock(items[i].product, items[i].quantity);
        if restored {
          outbox := outbox + [B.StockChanged(items[i].product)];
        }
      }
    }

    /** The unguarded increment; false when the product row is gone. */
    method RestoreProductStock(product: nat, quantity: nat) returns (restored: bool)
      modifies `stock
      ensures stock == B.Restore(old(stock), product, quantity)
      ensures restored <==> product in old(stock)
    {
      if product !in stock {
        return false;
      }
      stock := stock[product := stock[product] + quantity];
      restored := true;
    }

    method CreateRefund(id: nat, item: nat, quantity: nat, key: string, now: int)
      returns (outcome: Result<B.RefundReply, B.RefundError>)
      modifies this
      ensures outcome == B.RefundOutcome(old(State()), policy, id, item, quantity, key)
      ensures State() == B.CreateRefund(old(State()), policy, id, item, quantity, key, now)
      ensures Parents() == P.Next(old(Parents()), policy, B.DoRefund(id, item, quantity, key, now))
              && carts == old(carts)
    {
      hide ApplyRatio, B.RefundedQuantity, P.Derived, P.Recompute, B.Checkout, B.Purchase, B.Deliver, B.Cancel;
      if id >= |sellerOrders| {
        return Err(B.UnknownOrder);
      }
      var sellerOrder := sellerOrders[id];
      if sellerOrder.status !in policy.refundable {
        return Err(B.NotRefundable(sellerOrder.status));
      }
      if item >= |sellerOrder.items| {
        return Err(B.NoSuchItem);
      }
      var already := SumRefunded(sellerOrder.refunds, item);
      var remaining := sellerOrder.items[item].quantity - already;
      if quantity > remaining {
        return Err(B.TooMany(remaining));
      }
      var gross := sellerOrder.items[item].unitPrice * quantity;
      var correction := ApplyRatio(gross, sellerOrder.commission, sellerOrder.subtotal);
      var existing := B.FindRefund(sellerOrder.refunds, key);
      if existing < |sellerOrder.refunds| {
        return Ok(B.Existing(existing));
      }
      outcome := Ok(B.Created(|sellerOrder.refunds|));
      var refund := B.Refund(item, quantity, gross, correction, key);
      sellerOrders := sellerOrders[id := sellerOrder.(refunds := sellerOrder.refunds + [refund])];
      ledger := ledger + [B.Entry(B.EarningReversal, gross, id, sellerOrder.seller, now),
                          B.Entry(B.CommissionReversal, correction, id, sellerOrder.seller, now)];
      var restored := RestoreProductStock(sellerOrder.items[item].product, quantity);
      if restored {
        outbox := outbox + [B.StockChanged(sellerOrder.items[item].product)];
      }
      outbox := outbox + [B.RefundCreated(id)];
    }

    static method SumRefunded(refunds: seq<B.Refund>, item: nat) returns (sum: nat)
      ensures sum == B.RefundedQuantity(refunds, item)
    {
      sum := 0;
      for i := 0 to |refunds|
        invariant sum == B.RefundedQuantity(refunds[..i], item)
      {
        assert refunds[..i + 1][..i] == refunds[..i];
        if refunds[i].item == item {
          sum := sum + refunds[i].quantity;
        }
      }
      assert refunds[..|refunds|] == refunds;
    }
  }
}
