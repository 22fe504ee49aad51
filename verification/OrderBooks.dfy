/**
 Stock, seller orders, the append-only ledger and the outbox, under checkouts, status changes,
 the asynchronous consumer, cancellations and partial refunds. What an operation decides it reads from rows
 it has locked: its SellerOrder row or, for a checkout, its product rows. So each is one atomic step here.
 */
module OrderBooks {
  import opened Results
  import opened Money
  import opened CartSplit

  datatype Status = AwaitingFulfillment | Processing | Shipped | Delivered | Cancelled | Refunded

  datatype Item = Item(product: nat, unitPrice: nat, quantity: nat)

  /** The seller's share of a refund is `amount - commission`. */
  datatype Refund = Refund(item: nat, quantity: nat, amount: int, commission: int, key: string)

  datatype SellerOrder = SellerOrder(
    order: nat, seller: nat, items: seq<Item>, subtotal: nat, commission: int, status: Status, refunds: seq<Refund>)

  datatype Order = Order(buyer: nat, key: string, total: nat)

  datatype EntryType =
    | SaleCredit | CommissionDebit | RefundDebit | PayoutDebit | Adjustment | EarningReversal | CommissionReversal

  datatype Entry = Entry(kind: EntryType, amount: int, sellerOrder: nat, seller: nat, at: int)

  datatype Event =
    | OrderCreated(order: nat) | SellerOrderCreated(created: nat)
    | StatusChanged(moved: nat, from: Status, to: Status) | SellerOrderCancelled(cancelled: nat)
    | StockChanged(product: nat) | RefundCreated(refunded: nat) | AuctionPurchased(bought: nat)

  type Stock = map<nat, nat>

  datatype Books = Books(
    stock: Stock, orders: seq<Order>, sellerOrders: seq<SellerOrder>, ledger: seq<Entry>, outbox: seq<Event>,
    claims: map<(nat, string), nat>, processed: set<nat>)

  // ---------------------------------------------------------------------
  // Status policy
  // ---------------------------------------------------------------------

  /** From which statuses an order may be refunded, and from which cancelled. */
  datatype Policy = Policy(refundable: set<Status>, cancellable: set<Status>)

  const SOURCE_POLICY := Policy({Processing, Shipped, Delivered}, {AwaitingFulfillment, Processing})

  predicate IsForward(from: Status, to: Status) {
    || (from.AwaitingFulfillment? && to.Processing?)
    || (from.Processing? && to.Shipped?)
    || (from.Shipped? && to.Delivered?)
  }

  // ---------------------------------------------------------------------
  // Checkout
  // ---------------------------------------------------------------------

  datatype CheckoutError = CartEmpty | Unavailable(line: nat) | NotForDirectPurchase(line: nat) | StockConflict
  datatype CheckoutReply = Placed(order: nat) | Replayed(order: nat)

  /** The first line that cannot be bought, with the reason. */
  function FirstRefused(lines: seq<Line>, from: nat): Option<CheckoutError>
    requires from <= |lines|
    decreases |lines| - from
  {
    if from == |lines| then None
    else if !lines[from].published then Some(Unavailable(from))
    else if !lines[from].fixedPrice || lines[from].price.None? then Some(NotForDirectPurchase(from))
    else FirstRefused(lines, from + 1)
  }

  /** The guarded decrements, one product after another; None as soon as one finds too little. */
  function TakeAll(stock: Stock, lines: seq<Line>): Option<Stock> {
    if lines == [] then Some(stock)
    else
      var l := lines[0];
      if l.product in stock && stock[l.product] >= l.quantity then
        TakeAll(stock[l.product := stock[l.product] - l.quantity], lines[1..])
      else None
  }

  function ItemsOf(lines: seq<Line>): seq<Item> {
    if lines == [] then []
    else [Item(lines[0].product, OrZero(lines[0].price), lines[0].quantity)] + ItemsOf(lines[1..])
  }

  function OrZero(price: Option<nat>): nat {
    if price.Some? then price.value else 0
  }

  /** The rate column holds hundredths of a percent and reads back as decimal text. */
  function CommissionOn(subtotal: nat, rate: nat): int {
    ParseUndoesFormat(rate);
    ApplyPercent(subtotal, FormatCentsToMoney(rate)).value
  }

  function SellerOrderFor(order: nat, g: Group): SellerOrder {
    var subtotal := TotalCents(g.lines);
    SellerOrder(order, g.seller, ItemsOf(g.lines), subtotal, CommissionOn(subtotal, g.rate), AwaitingFulfillment, [])
  }

  function AddSellerOrder(b: Books, order: nat, g: Group, now: int): Books {
    var so, id := SellerOrderFor(order, g), |b.sellerOrders|;
    b.(sellerOrders := b.sellerOrders + [so],
       ledger := b.ledger + [Entry(SaleCredit, so.subtotal, id, g.seller, now),
                             Entry(CommissionDebit, so.commission, id, g.seller, now)],
       outbox := b.outbox + [SellerOrderCreated(id)])
  }

  function AddSellerOrders(b: Books, order: nat, groups: seq<Group>, now: int): Books
    decreases |groups|
  {
    if groups == [] then b else AddSellerOrders(AddSellerOrder(b, order, groups[0], now), order, groups[1..], now)
  }

  function StockEvents(lines: seq<Line>): seq<Event> {
    if lines == [] then [] else [StockChanged(lines[0].product)] + StockEvents(lines[1..])
  }

  function CheckoutOutcome(b: Books, customer: nat, key: string, lines: seq<Line>)
    : Result<CheckoutReply, CheckoutError>
  {
    if (customer, key) in b.claims then Ok(Replayed(b.claims[(customer, key)]))
    else if lines == [] then Err(CartEmpty)
    else if FirstRefused(lines, 0).Some? then Err(FirstRefused(lines, 0).value)
    else if TakeAll(b.stock, lines).None? then Err(StockConflict)
    else Ok(Placed(|b.orders|))
  }

  /** Everything a checkout writes once its stock updates have gone through. */
  function Place(b: Books, customer: nat, key: string, lines: seq<Line>, stock: Stock, now: int): Books {
    var order := |b.orders|;
    var taken := b.(stock := stock, orders := b.orders + [Order(customer, key, TotalCents(lines))]);
    var placed := AddSellerOrders(taken, order, Split(lines), now);
    placed.(outbox := placed.outbox + [OrderCreated(order)] + StockEvents(lines),
            claims := b.claims[(customer, key) := order])
  }

  function Checkout(b: Books, customer: nat, key: string, lines: seq<Line>, now: int): Books {
    var outcome := CheckoutOutcome(b, customer, key, lines);
    if outcome.Ok? && outcome.value.Placed?
    then Place(b, customer, key, lines, TakeAll(b.stock, lines).value, now) else b
  }

  // ---------------------------------------------------------------------
  // A winner's purchase
  // ---------------------------------------------------------------------

  /** One auctioned unit at the price of its top bid. */
  datatype Lot = Lot(product: nat, seller: nat, rate: nat, price: nat)

  function LotLine(lot: Lot): Line {
    Line(lot.product, lot.seller, lot.rate, Some(lot.price), false, true, 1)
  }

  /** What the books decide of a purchase its auction has let through. */
  function PurchaseOutcome(b: Books, winner: nat, key: string, lot: Lot): Result<CheckoutReply, CheckoutError> {
    if (winner, key) in b.claims then Ok(Replayed(b.claims[(winner, key)]))
    else if TakeAll(b.stock, [LotLine(lot)]).None? then Err(StockConflict)
    else Ok(Placed(|b.orders|))
  }

  /** The rows of a one-line checkout, under events of its own. */
  function Purchase(b: Books, winner: nat, key: string, lot: Lot, now: int): Books {
    var outcome := PurchaseOutcome(b, winner, key, lot);
    if outcome.Ok? && outcome.value.Placed? then
      Place(b, winner, key, [LotLine(lot)], TakeAll(b.stock, [LotLine(lot)]).value, now).(
        outbox := b.outbox + [OrderCreated(|b.orders|), SellerOrderCreated(|b.sellerOrders|),
                              StockChanged(lot.product), AuctionPurchased(|b.orders|)])
    else b
  }

  // ---------------------------------------------------------------------
  // Status changes, cancellation, refunds
  // ---------------------------------------------------------------------

  datatype StatusError = OrderNotFound | BadTransition(from: Status, to: Status)
  datatype CancelError = NoSuchOrder | NotCancellable(status: Status)
  datatype RefundError = UnknownOrder | NotRefundable(status: Status) | NoSuchItem | TooMany(remaining: int)
  datatype RefundReply = Created(index: nat) | Existing(index: nat)

  function MoveTo(b: Books, id: nat, to: Status): Books
    requires id < |b.sellerOrders|
  {
    var so := b.sellerOrders[id];
    b.(sellerOrders := b.sellerOrders[id := so.(status := to)],
       outbox := b.outbox + [StatusChanged(id, so.status, to)])
  }

  function UpdateStatusOutcome(b: Books, id: nat, to: Status): Result<(), StatusError> {
    if id >= |b.sellerOrders| then Err(OrderNotFound)
    else if !IsForward(b.sellerOrders[id].status, to) then Err(BadTransition(b.sellerOrders[id].status, to))
    else Ok(())
  }

  function UpdateStatus(b: Books, id: nat, to: Status): Books {
    if UpdateStatusOutcome(b, id, to).Ok? then MoveTo(b, id, to) else b
  }

  /** The consumer's own move: only ever out of AwaitingFulfillment. */
  function StartProcessing(b: Books, id: nat): Books {
    if id < |b.sellerOrders| && b.sellerOrders[id].status.AwaitingFulfillment? then MoveTo(b, id, Processing) else b
  }

  /**
   One delivery of the order's creation event. The check against the processed table, the move and the
   mark are separate steps of a worker: `stale` says the check ran before another worker's mark, and
   `crash` that this worker died before its own.
   */
  function Deliver(b: Books, id: nat, stale: bool, crash: bool): Books {
    if id in b.processed && !stale then b
    else
      var moved := StartProcessing(b, id);
      if crash then moved else moved.(processed := moved.processed + {id})
  }

  function Restore(stock: Stock, product: nat, quantity: nat): Stock {
    if product in stock then stock[product := stock[product] + quantity] else stock
  }

  function RestoreItems(stock: Stock, items: seq<Item>): Stock {
    if items == [] then stock else RestoreItems(Restore(stock, items[0].product, items[0].quantity), items[1..])
  }

  function RestoreEvents(stock: Stock, items: seq<Item>): seq<Event> {
    if items == [] then []
    else (if items[0].product in stock then [StockChanged(items[0].product)] else []) + RestoreEvents(stock, items[1..])
  }

  function CancelOutcome(b: Books, policy: Policy, id: nat): Result<bool, CancelError> {
    if id >= |b.sellerOrders| then Err(NoSuchOrder)
    else if b.sellerOrders[id].status.Cancelled? then Ok(false)
    else if b.sellerOrders[id].status !in policy.cancellable then Err(NotCancellable(b.sellerOrders[id].status))
    else Ok(true)
  }

  /** Restores every unit bought and reverses the whole pair, whatever has been refunded before. */
  function Cancel(b: Books, policy: Policy, id: nat, now: int): Books {
    if CancelOutcome(b, policy, id) == Ok(true) then
      var so := b.sellerOrders[id];
      b.(stock := RestoreItems(b.stock, so.items),
         ledger := b.ledger + [Entry(EarningReversal, so.subtotal, id, so.seller, now),
                               Entry(CommissionReversal, so.commission, id, so.seller, now)],
         sellerOrders := b.sellerOrders[id := so.(status := Cancelled)],
         outbox := b.outbox + RestoreEvents(b.stock, so.items) + [SellerOrderCancelled(id)])
    else b
  }

  function RefundedQuantity(refunds: seq<Refund>, item: nat): nat {
    if refunds == [] then 0
    else RefundedQuantity(refunds[..|refunds| - 1], item)
         + (if refunds[|refunds| - 1].item == item then refunds[|refunds| - 1].quantity else 0)
  }

  function FindRefund(refunds: seq<Refund>, key: string): (i: nat)
    ensures i <= |refunds|
    ensures i < |refunds| ==> refunds[i].key == key
    ensures forall j | 0 <= j < i :: refunds[j].key != key
  {
    if refunds == [] || refunds[0].key == key then 0 else 1 + FindRefund(refunds[1..], key)
  }

  /** The quantity check comes before the insert that would find the key taken. */
  function RefundOutcome(b: Books, policy: Policy, id: nat, item: nat, quantity: nat, key: string)
    : Result<RefundReply, RefundError>
  {
    if id >= |b.sellerOrders| then Err(UnknownOrder)
    else
      var so := b.sellerOrders[id];
      if so.status !in policy.refundable then Err(NotRefundable(so.status))
      else if item >= |so.items| then Err(NoSuchItem)
      else
        var remaining := so.items[item].quantity - RefundedQuantity(so.refunds, item);
        if quantity > remaining then Err(TooMany(remaining))
        else
          var i := FindRefund(so.refunds, key);
          Ok(if i < |so.refunds| then Existing(i) else Created(|so.refunds|))
  }

  function RefundFor(so: SellerOrder, item: nat, quantity: nat, key: string): Refund
    requires item < |so.items|
  {
    var gross := so.items[item].unitPrice * quantity;
    Refund(item, quantity, gross, ApplyRatio(gross, so.commission, so.subtotal), key)
  }

  function CreateRefund(b: Books, policy: Policy, id: nat, item: nat, quantity: nat, key: string, now: int): Books {
    var outcome := RefundOutcome(b, policy, id, item, quantity, key);
    if outcome.Ok? && outcome.value.Created? then
      var so := b.sellerOrders[id];
      var r := RefundFor(so, item, quantity, key);
      var product := so.items[item].product;
      b.(sellerOrders := b.sellerOrders[id := so.(refunds := so.refunds + [r])],
         ledger := b.ledger + [Entry(EarningReversal, r.amount, id, so.seller, now),
                               Entry(CommissionReversal, r.commission, id, so.seller, now)],
         stock := Restore(b.stock, product, quantity),
         outbox := b.outbox + (if product in b.stock then [StockChanged(product)] else []) + [RefundCreated(id)])
    else b
  }

  // ---------------------------------------------------------------------
  // Runs
  // ---------------------------------------------------------------------

  datatype Step =
    | DoCheckout(customer: nat, claimKey: string, lines: seq<Line>, placedAt: int)
    | DoPurchase(winner: nat, winKey: string, lot: Lot, boughtAt: int)
    | DoUpdateStatus(id: nat, to: Status)
    | DoDeliver(id: nat, stale: bool, crash: bool)
    | DoCancel(id: nat, cancelledAt: int)
    | DoRefund(id: nat, item: nat, quantity: nat, key: string, refundedAt: int)

  /** Request validation: every quantity asked for is at least one. */
  predicate IsRequest(step: Step) {
    match step
    case DoCheckout(_, _, lines, _) => forall l | l in lines :: l.quantity >= 1
    case DoRefund(_, _, quantity, _, _) => quantity >= 1
    case _ => true
  }

  function Apply(b: Books, policy: Policy, step: Step): Books {
    match step
    case DoCheckout(customer, key, lines, now) => Checkout(b, customer, key, lines, now)
    case DoPurchase(winner, key, lot, now) => Purchase(b, winner, key, lot, now)
    case DoUpdateStatus(id, to) => UpdateStatus(b, id, to)
    case DoDeliver(id, stale, crash) => Deliver(b, id, stale, crash)
    case DoCancel(id, now) => Cancel(b, policy, id, now)
    case DoRefund(id, item, quantity, key, now) => CreateRefund(b, policy, id, item, quantity, key, now)
  }

  predicate IsTrace(trace: seq<Step>) {
    forall i | 0 <= i < |trace| :: IsRequest(trace[i])
  }

  function Run(b: Books, policy: Policy, trace: seq<Step>): Books
    decreases |trace|
  {
    if trace == [] then b else Run(Apply(b, policy, trace[0]), policy, trace[1..])
  }

  /** A marketplace that has stock and has sold nothing yet. */
  predicate IsFresh(b: Books) {
    b.orders == [] && b.sellerOrders == [] && b.ledger == [] && b.outbox == [] && b.claims == map[] && b.processed == {}
  }
}
