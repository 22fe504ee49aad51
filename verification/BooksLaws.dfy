/** What every run of the order books keeps: exact stock, exact ledger, legal histories, one order per key. */
module BooksLaws {
  import opened Results
  import opened Money
  import opened CartSplit
  import opened OrderBooks

  // ---------------------------------------------------------------------
  // Sums over the seller orders
  // ---------------------------------------------------------------------

  /** A quantity read off one seller order and its row number. */
  type Measure = (nat, SellerOrder) -> int

  function SumBy(f: Measure, orders: seq<SellerOrder>): int {
    if orders == [] then 0
    else SumBy(f, orders[..|orders| - 1]) + f(|orders| - 1, orders[|orders| - 1])
  }

  lemma SumSnoc(f: Measure, orders: seq<SellerOrder>, so: SellerOrder)
    ensures SumBy(f, orders + [so]) == SumBy(f, orders) + f(|orders|, so)
  {}

  lemma {:induction false} SumUpdate(f: Measure, orders: seq<SellerOrder>, i: nat, so: SellerOrder)
    requires i < |orders|
    ensures SumBy(f, orders[i := so]) == SumBy(f, orders) - f(i, orders[i]) + f(i, so)
  {
    var n := |orders| - 1;
    var init := orders[..n];
    if i == n {
      assert orders[i := so][..n] == init;
    } else {
      SumUpdate(f, init, i, so);
      assert orders[i := so][..n] == init[i := so];
    }
  }

  // ---------------------------------------------------------------------
  // Rows
  // ---------------------------------------------------------------------

  function ItemsTotal(items: seq<Item>): nat {
    if items == [] then 0 else items[0].unitPrice * items[0].quantity + ItemsTotal(items[1..])
  }

  function ItemUnits(items: seq<Item>, product: nat): nat {
    if items == [] then 0
    else (if items[0].product == product then items[0].quantity else 0) + ItemUnits(items[1..], product)
  }

  predicate RefundFits(r: Refund, so: SellerOrder) {
    && r.item < |so.items| && r.quantity >= 1
    && r.amount == so.items[r.item].unitPrice * r.quantity
    && r.commission == ApplyRatio(r.amount, so.commission, so.subtotal)
  }

  /** Refunds fit their items, never exceed what was bought, and carry distinct keys. */
  predicate RefundsFit(so: SellerOrder) {
    && (forall r | r in so.refunds :: RefundFits(r, so))
    && (forall k: nat | k < |so.items| :: RefundedQuantity(so.refunds, k) <= so.items[k].quantity)
    && (forall i, j | 0 <= i < j < |so.refunds| :: so.refunds[i].key != so.refunds[j].key)
  }

  predicate RowFits(so: SellerOrder, stock: Stock) {
    && (forall it | it in so.items :: it.product in stock)
    && so.subtotal == ItemsTotal(so.items)
    && !so.status.Refunded?
    && RefundsFit(so)
  }

  predicate RowsFit(b: Books) {
    forall so | so in b.sellerOrders :: RowFits(so, b.stock)
  }

  lemma {:induction false} ItemsOfLines(lines: seq<Line>, product: nat)
    ensures ItemsTotal(ItemsOf(lines)) == TotalCents(lines)
    ensures ItemUnits(ItemsOf(lines), product) == Units(lines, product)
    ensures forall it | it in ItemsOf(lines) :: exists l :: l in lines && l.product == it.product
  {
    if lines != [] {
      ItemsOfLines(lines[1..], product);
      forall it | it in ItemsOf(lines)
        ensures exists l :: l in lines && l.product == it.product
      {
        if it == ItemsOf(lines)[0] {
          assert lines[0] in lines;
        }
      }
    }
  }

  // ---------------------------------------------------------------------
  // Stock
  // ---------------------------------------------------------------------

  function RefundedUnits(items: seq<Item>, refunds: seq<Refund>, product: nat): int {
    if refunds == [] then 0
    else
      var r := refunds[|refunds| - 1];
      RefundedUnits(items, refunds[..|refunds| - 1], product)
      + (if r.item < |items| && items[r.item].product == product then r.quantity else 0)
  }

  /** Units of a product this order has taken and not given back; negative when more came back than left. */
  function Absent(so: SellerOrder, product: nat): int {
    (if so.status.Cancelled? then 0 else ItemUnits(so.items, product)) - RefundedUnits(so.items, so.refunds, product)
  }

  /** Units of a product the customer still holds, as the order's status and refunds tell it. */
  function Held(so: SellerOrder, product: nat): int {
    if so.status.Cancelled? then 0 else ItemUnits(so.items, product) - RefundedUnits(so.items, so.refunds, product)
  }

  function AbsentOf(product: nat): Measure {
    (i: nat, so: SellerOrder) => Absent(so, product)
  }

  function HeldOf(product: nat): Measure {
    (i: nat, so: SellerOrder) => Held(so, product)
  }

  /** Every product's initial stock is its current stock plus what orders have taken and not given back. */
  predicate StockBalances(b: Books, initial: map<nat, int>) {
    && b.stock.Keys == initial.Keys
    && forall p | p in initial :: b.stock[p] + SumBy(AbsentOf(p), b.sellerOrders) == initial[p]
  }

  lemma {:induction false} TakeAllTakesUnits(stock: Stock, lines: seq<Line>)
    requires TakeAll(stock, lines).Some?
    ensures var stock' := TakeAll(stock, lines).value;
            && stock'.Keys == stock.Keys
            && (forall l | l in lines :: l.product in stock)
            && forall p | p in stock :: stock'[p] == stock[p] - Units(lines, p)
    decreases |lines|
  {
    if lines != [] {
      var l := lines[0];
      TakeAllTakesUnits(stock[l.product := stock[l.product] - l.quantity], lines[1..]);
    }
  }

  /** The guarded decrements go through exactly when the cart as a whole asks for no more than there is. */
  lemma {:induction false} TakeAllIff(stock: Stock, lines: seq<Line>)
    ensures TakeAll(stock, lines).Some?
       <==> forall l | l in lines :: l.product in stock && Units(lines, l.product) <= stock[l.product]
    decreases |lines|
  {
    if TakeAll(stock, lines).Some? {
      TakeAllTakesUnits(stock, lines);
    } else {
      var l, rest := lines[0], lines[1..];
      assert l in lines && Units(lines, l.product) == l.quantity + Units(rest, l.product);
      if l.product in stock && stock[l.product] >= l.quantity {
        var stock1 := stock[l.product := stock[l.product] - l.quantity];
        TakeAllIff(stock1, rest);
        var m :| m in rest && !(m.product in stock1 && Units(rest, m.product) <= stock1[m.product]);
        assert m in lines;
      }
    }
  }

  lemma {:induction false} RestoreItemsRestores(stock: Stock, items: seq<Item>)
    ensures var stock' := RestoreItems(stock, items);
            && stock'.Keys == stock.Keys
            && forall p | p in stock :: stock'[p] == stock[p] + ItemUnits(items, p)
    decreases |items|
  {
    if items != [] {
      RestoreItemsRestores(Restore(stock, items[0].product, items[0].quantity), items[1..]);
    }
  }

  lemma {:induction false} AddingTakesUnits(b: Books, order: nat, groups: seq<Group>, now: int, product: nat)
    ensures var b' := AddSellerOrders(b, order, groups, now);
            && b'.stock == b.stock && b'.orders == b.orders && b'.claims == b.claims && b'.processed == b.processed
            && SumBy(AbsentOf(product), b'.sellerOrders)
              == SumBy(AbsentOf(product), b.sellerOrders) + SumUnits(groups, product)
    decreases |groups|
  {
    if groups != [] {
      var so := SellerOrderFor(order, groups[0]);
      ItemsOfLines(groups[0].lines, product);
      SumSnoc(AbsentOf(product), b.sellerOrders, so);
      AddingTakesUnits(AddSellerOrder(b, order, groups[0], now), order, groups[1..], now, product);
    }
  }

  lemma PlaceBalances(b: Books, initial: map<nat, int>, customer: nat, key: string, lines: seq<Line>, now: int)
    requires StockBalances(b, initial) && TakeAll(b.stock, lines).Some?
    ensures StockBalances(Place(b, customer, key, lines, TakeAll(b.stock, lines).value, now), initial)
  {
    hide CommissionOn, Split;
    TakeAllTakesUnits(b.stock, lines);
    var taken := b.(
      stock := TakeAll(b.stock, lines).value, orders := b.orders + [Order(customer, key, TotalCents(lines))]);
    var placed := AddSellerOrders(taken, |b.orders|, Split(lines), now);
    AddingTakesUnits(taken, |b.orders|, Split(lines), now, 0);
    forall p | p in initial
      ensures placed.stock[p] + SumBy(AbsentOf(p), placed.sellerOrders) == initial[p]
    {
      AddingTakesUnits(taken, |b.orders|, Split(lines), now, p);
      SplitIsPartition(lines, p);
    }
  }

  lemma SalesBalance(b: Books, policy: Policy, initial: map<nat, int>, step: Step)
    requires StockBalances(b, initial) && (step.DoCheckout? || step.DoPurchase?)
    ensures StockBalances(Apply(b, policy, step), initial)
  {
    hide Place, TakeAll, FirstRefused;
    if Apply(b, policy, step) != b {
      match step
      case DoCheckout(customer, key, lines, now) => PlaceBalances(b, initial, customer, key, lines, now);
      case DoPurchase(winner, key, lot, now) => PlaceBalances(b, initial, winner, key, [LotLine(lot)], now);
    }
  }

  lemma CancelBalances(b: Books, policy: Policy, initial: map<nat, int>, id: nat, now: int)
    requires StockBalances(b, initial)
    ensures StockBalances(Cancel(b, policy, id, now), initial)
  {
    if CancelOutcome(b, policy, id) == Ok(true) {
      var so := b.sellerOrders[id];
      RestoreItemsRestores(b.stock, so.items);
      forall p | p in initial {
        SumUpdate(AbsentOf(p), b.sellerOrders, id, so.(status := Cancelled));
      }
    }
  }

  lemma RefundBalances(
    b: Books, policy: Policy, initial: map<nat, int>, id: nat, item: nat, quantity: nat, key: string, now: int)
    requires StockBalances(b, initial)
    ensures StockBalances(CreateRefund(b, policy, id, item, quantity, key, now), initial)
  {
    var outcome := RefundOutcome(b, policy, id, item, quantity, key);
    if outcome.Ok? && outcome.value.Created? {
      var so := b.sellerOrders[id];
      var r := RefundFor(so, item, quantity, key);
      var so' := so.(refunds := so.refunds + [r]);
      assert so'.refunds[..|so.refunds|] == so.refunds;
      forall p | p in initial {
        SumUpdate(AbsentOf(p), b.sellerOrders, id, so');
      }
    }
  }

  lemma MoveBalances(b: Books, initial: map<nat, int>, id: nat, to: Status)
    requires StockBalances(b, initial) && id < |b.sellerOrders|
    requires !b.sellerOrders[id].status.Cancelled? && !to.Cancelled?
    ensures StockBalances(MoveTo(b, id, to), initial)
  {
    forall p | p in initial {
      SumUpdate(AbsentOf(p), b.sellerOrders, id, b.sellerOrders[id].(status := to));
    }
  }

  lemma StepBalances(b: Books, policy: Policy, initial: map<nat, int>, step: Step)
    requires StockBalances(b, initial)
    ensures StockBalances(Apply(b, policy, step), initial)
  {
    match step
    case DoCheckout(_, _, _, _) => SalesBalance(b, policy, initial, step);
    case DoPurchase(_, _, _, _) => SalesBalance(b, policy, initial, step);
    case DoUpdateStatus(id, to) =>
      if UpdateStatusOutcome(b, id, to).Ok? { MoveBalances(b, initial, id, to); }
    case DoDeliver(id, stale, crash) =>
      if id < |b.sellerOrders| && b.sellerOrders[id].status.AwaitingFulfillment? {
        MoveBalances(b, initial, id, Processing);
      }
    case DoCancel(id, now) => CancelBalances(b, policy, initial, id, now);
    case DoRefund(id, item, quantity, key, now) => RefundBalances(b, policy, initial, id, item, quantity, key, now);
  }

  /** The exact stock law, over every run and under any status policy. Stock is a natural number throughout. */
  lemma {:induction false} RunBalances(b: Books, policy: Policy, initial: map<nat, int>, trace: seq<Step>)
    requires StockBalances(b, initial)
    ensures StockBalances(Run(b, policy, trace), initial)
    decreases |trace|
  {
    if trace != [] {
      StepBalances(b, policy, initial, trace[0]);
      RunBalances(Apply(b, policy, trace[0]), policy, initial, trace[1..]);
    }
  }

  // ---------------------------------------------------------------------
  // Ledger
  // ---------------------------------------------------------------------

  /** What a ledger sum counts: the balance of one side of the pair, or only what has been reversed of it. */
  datatype Side = Earning | Commission | EarningReversed | CommissionReversed

  predicate IsEarning(side: Side) {
    side.Earning? || side.EarningReversed?
  }

  predicate IsReversed(side: Side) {
    side.EarningReversed? || side.CommissionReversed?
  }

  /** How an entry counts in the analytics sums for one side; kinds the marketplace never writes count for nothing. */
  function Sign(kind: EntryType, side: Side): int {
    match side
    case Earning => if kind.SaleCredit? then 1 else if kind.EarningReversal? then -1 else 0
    case Commission => if kind.CommissionDebit? then 1 else if kind.CommissionReversal? then -1 else 0
    case EarningReversed => if kind.EarningReversal? then 1 else 0
    case CommissionReversed => if kind.CommissionReversal? then 1 else 0
  }

  function NetSign(kind: EntryType): int {
    match kind
    case SaleCredit => 1
    case CommissionDebit => -1
    case EarningReversal => -1
    case CommissionReversal => 1
    case _ => 0
  }

  /** Which entries a report keeps: a predicate on the seller order and the seller. */
  type Scope = (nat, nat) -> bool

  function LedgerSum(ledger: seq<Entry>, side: Side, scope: Scope): int {
    if ledger == [] then 0
    else
      var e := ledger[|ledger| - 1];
      LedgerSum(ledger[..|ledger| - 1], side, scope)
      + (if scope(e.sellerOrder, e.seller) then Sign(e.kind, side) * e.amount else 0)
  }

  function RefundSum(refunds: seq<Refund>, side: Side): int {
    if refunds == [] then 0
    else
      var r := refunds[|refunds| - 1];
      RefundSum(refunds[..|refunds| - 1], side) + (if IsEarning(side) then r.amount else r.commission)
  }

  function Original(so: SellerOrder, side: Side): int {
    if IsEarning(side) then so.subtotal else so.commission
  }

  /**
   What the books say of an order: its original figure unless cancelled, less its refunds; or what was reversed of it,
   its refunds and, when cancelled, the original figure besides.
   */
  function Booked(so: SellerOrder, side: Side): int {
    if IsReversed(side) then (if so.status.Cancelled? then Original(so, side) else 0) + RefundSum(so.refunds, side)
    else (if so.status.Cancelled? then 0 else Original(so, side)) - RefundSum(so.refunds, side)
  }

  function BookedIn(side: Side, scope: Scope): Measure {
    (i: nat, so: SellerOrder) => if scope(i, so.seller) then Booked(so, side) else 0
  }

  predicate LedgerAgrees(b: Books, side: Side, scope: Scope) {
    LedgerSum(b.ledger, side, scope) == SumBy(BookedIn(side, scope), b.sellerOrders)
  }

  /** Two more entries for one order. */
  lemma PairAdds(ledger: seq<Entry>, e: Entry, c: Entry, side: Side, scope: Scope)
    requires e.sellerOrder == c.sellerOrder && e.seller == c.seller
    ensures LedgerSum(ledger + [e, c], side, scope) == LedgerSum(ledger, side, scope)
            + (if scope(e.sellerOrder, e.seller)
               then Sign(e.kind, side) * e.amount + Sign(c.kind, side) * c.amount else 0)
  {
    var l1, l2 := ledger + [e], ledger + [e, c];
    assert l2[..|l1|] == l1 && l1[..|ledger|] == ledger;
  }

  lemma {:induction false} AddingAgrees(b: Books, order: nat, groups: seq<Group>, now: int, side: Side, scope: Scope)
    requires LedgerAgrees(b, side, scope)
    ensures LedgerAgrees(AddSellerOrders(b, order, groups, now), side, scope)
    decreases |groups|
  {
    hide CommissionOn, TotalCents;
    if groups != [] {
      var so, id := SellerOrderFor(order, groups[0]), |b.sellerOrders|;
      PairAdds(b.ledger, Entry(SaleCredit, so.subtotal, id, so.seller, now),
               Entry(CommissionDebit, so.commission, id, so.seller, now), side, scope);
      SumSnoc(BookedIn(side, scope), b.sellerOrders, so);
      AddingAgrees(AddSellerOrder(b, order, groups[0], now), order, groups[1..], now, side, scope);
    }
  }

  lemma PlaceAgrees(
    b: Books, customer: nat, key: string, lines: seq<Line>, stock: Stock, now: int, side: Side, scope: Scope)
    requires LedgerAgrees(b, side, scope)
    ensures LedgerAgrees(Place(b, customer, key, lines, stock, now), side, scope)
  {
    hide Split, AddSellerOrders, TotalCents;
    var taken := b.(stock := stock, orders := b.orders + [Order(customer, key, TotalCents(lines))]);
    AddingAgrees(taken, |b.orders|, Split(lines), now, side, scope);
  }

  lemma SalesAgree(b: Books, policy: Policy, step: Step, side: Side, scope: Scope)
    requires LedgerAgrees(b, side, scope) && (step.DoCheckout? || step.DoPurchase?)
    ensures LedgerAgrees(Apply(b, policy, step), side, scope)
  {
    hide Place, TakeAll, FirstRefused;
    if Apply(b, policy, step) != b {
      match step
      case DoCheckout(customer, key, lines, now) =>
        PlaceAgrees(b, customer, key, lines, TakeAll(b.stock, lines).value, now, side, scope);
      case DoPurchase(winner, key, lot, now) =>
        var lines := [LotLine(lot)];
        PlaceAgrees(b, winner, key, lines, TakeAll(b.stock, lines).value, now, side, scope);
    }
  }

  lemma CancelAgrees(b: Books, policy: Policy, id: nat, now: int, side: Side, scope: Scope)
    requires LedgerAgrees(b, side, scope)
    ensures LedgerAgrees(Cancel(b, policy, id, now), side, scope)
  {
    if CancelOutcome(b, policy, id) == Ok(true) {
      var so := b.sellerOrders[id];
      PairAdds(b.ledger, Entry(EarningReversal, so.subtotal, id, so.seller, now),
               Entry(CommissionReversal, so.commission, id, so.seller, now), side, scope);
      SumUpdate(BookedIn(side, scope), b.sellerOrders, id, so.(status := Cancelled));
    }
  }

  lemma RefundAgrees(
    b: Books, policy: Policy, id: nat, item: nat, quantity: nat, key: string, now: int, side: Side, scope: Scope)
    requires LedgerAgrees(b, side, scope)
    ensures LedgerAgrees(CreateRefund(b, policy, id, item, quantity, key, now), side, scope)
  {
    hide RefundedQuantity, ApplyRatio;
    var outcome := RefundOutcome(b, policy, id, item, quantity, key);
    if outcome.Ok? && outcome.value.Created? {
      var so := b.sellerOrders[id];
      var r := RefundFor(so, item, quantity, key);
      var so' := so.(refunds := so.refunds + [r]);
      assert so'.refunds[..|so.refunds|] == so.refunds;
      PairAdds(b.ledger, Entry(EarningReversal, r.amount, id, so.seller, now),
               Entry(CommissionReversal, r.commission, id, so.seller, now), side, scope);
      SumUpdate(BookedIn(side, scope), b.sellerOrders, id, so');
    }
  }

  lemma MoveAgrees(b: Books, id: nat, to: Status, side: Side, scope: Scope)
    requires LedgerAgrees(b, side, scope) && id < |b.sellerOrders|
    requires !b.sellerOrders[id].status.Cancelled? && !to.Cancelled?
    ensures LedgerAgrees(MoveTo(b, id, to), side, scope)
  {
    var so := b.sellerOrders[id];
    var so' := so.(status := to);
    SumUpdate(BookedIn(side, scope), b.sellerOrders, id, so');
    assert Booked(so', side) == Booked(so, side);
    assert BookedIn(side, scope)(id, so') == BookedIn(side, scope)(id, so);
  }

  lemma StepAgrees(b: Books, policy: Policy, step: Step, side: Side, scope: Scope)
    requires LedgerAgrees(b, side, scope)
    ensures LedgerAgrees(Apply(b, policy, step), side, scope)
  {
    match step
    case DoCheckout(_, _, _, _) => SalesAgree(b, policy, step, side, scope);
    case DoPurchase(_, _, _, _) => SalesAgree(b, policy, step, side, scope);
    case DoUpdateStatus(id, to) =>
      if UpdateStatusOutcome(b, id, to).Ok? { MoveAgrees(b, id, to, side, scope); }
    case DoDeliver(id, stale, crash) =>
      if id < |b.sellerOrders| && b.sellerOrders[id].status.AwaitingFulfillment? {
        MoveAgrees(b, id, Processing, side, scope);
      }
    case DoCancel(id, now) => CancelAgrees(b, policy, id, now, side, scope);
    case DoRefund(id, item, quantity, key, now) => RefundAgrees(b, policy, id, item, quantity, key, now, side, scope);
  }

  /** Whatever a report is scoped to, its ledger sums are the sums of what the orders' own rows say. */
  lemma {:induction false} RunAgrees(b: Books, policy: Policy, trace: seq<Step>, side: Side, scope: Scope)
    requires LedgerAgrees(b, side, scope)
    ensures LedgerAgrees(Run(b, policy, trace), side, scope)
    decreases |trace|
  {
    if trace != [] {
      StepAgrees(b, policy, trace[0], side, scope);
      RunAgrees(Apply(b, policy, trace[0]), policy, trace[1..], side, scope);
    }
  }
}
