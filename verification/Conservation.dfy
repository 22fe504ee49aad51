/**
 When the books conserve stock and money. The exact laws hold under any status policy; conservation as the
 rows tell it holds exactly while no cancelled order carries refunds, and over every run exactly when the
 policy never lets a refunded order be cancelled.
 */
module Conservation {
  import opened Results
  import opened Money
  import opened CartSplit
  import opened OrderBooks
  import opened BooksLaws

  // ---------------------------------------------------------------------
  // Rows stay well formed
  // ---------------------------------------------------------------------

  lemma {:induction false} AddingFits(b: Books, order: nat, groups: seq<Group>, now: int)
    requires RowsFit(b) && forall g, l | g in groups && l in g.lines :: l.product in b.stock
    ensures RowsFit(AddSellerOrders(b, order, groups, now))
    decreases |groups|
  {
    hide CommissionOn;
    if groups != [] {
      var g := groups[0];
      var so := SellerOrderFor(order, g);
      ItemsOfLines(g.lines, 0);
      assert g in groups;
      assert RowFits(so, b.stock);
      AddingFits(AddSellerOrder(b, order, g, now), order, groups[1..], now);
    }
  }

  lemma PlaceFits(b: Books, customer: nat, key: string, lines: seq<Line>, now: int)
    requires RowsFit(b) && TakeAll(b.stock, lines).Some?
    ensures RowsFit(Place(b, customer, key, lines, TakeAll(b.stock, lines).value, now))
  {
    hide Split, CommissionOn;
    TakeAllTakesUnits(b.stock, lines);
    SplitGroupsAreSellers(lines);
    var taken := b.(
      stock := TakeAll(b.stock, lines).value, orders := b.orders + [Order(customer, key, TotalCents(lines))]);
    assert RowsFit(taken);
    forall g, l | g in Split(lines) && l in g.lines
      ensures l.product in taken.stock
    {
      assert l in OfSeller(lines, g.seller);
    }
    AddingFits(taken, |b.orders|, Split(lines), now);
    AddingTakesUnits(taken, |b.orders|, Split(lines), now, 0);
  }

  lemma SalesFit(b: Books, policy: Policy, step: Step)
    requires RowsFit(b) && (step.DoCheckout? || step.DoPurchase?)
    ensures RowsFit(Apply(b, policy, step))
  {
    hide Place, TakeAll, FirstRefused;
    if Apply(b, policy, step) != b {
      match step
      case DoCheckout(customer, key, lines, now) => PlaceFits(b, customer, key, lines, now);
      case DoPurchase(winner, key, lot, now) => PlaceFits(b, winner, key, [LotLine(lot)], now);
    }
  }

  lemma RefundKeepsFit(so: SellerOrder, r: Refund)
    requires RefundsFit(so) && RefundFits(r, so) && FindRefund(so.refunds, r.key) == |so.refunds|
    requires RefundedQuantity(so.refunds, r.item) + r.quantity <= so.items[r.item].quantity
    ensures RefundsFit(so.(refunds := so.refunds + [r]))
  {}

  lemma RefundStepFits(b: Books, policy: Policy, id: nat, item: nat, quantity: nat, key: string, now: int)
    requires RowsFit(b) && quantity >= 1
    ensures RowsFit(CreateRefund(b, policy, id, item, quantity, key, now))
  {
    hide RefundedUnits, ApplyRatio, ItemsTotal;
    var outcome := RefundOutcome(b, policy, id, item, quantity, key);
    if outcome.Ok? && outcome.value.Created? {
      var so := b.sellerOrders[id];
      assert RowFits(so, b.stock);
      var r := RefundFor(so, item, quantity, key);
      RefundKeepsFit(so, r);
      var b' := CreateRefund(b, policy, id, item, quantity, key, now);
      assert b'.stock.Keys == b.stock.Keys;
      forall x | x in b'.sellerOrders
        ensures RowFits(x, b'.stock)
      {
        assert x == so.(refunds := so.refunds + [r]) || x in b.sellerOrders;
      }
    }
  }

  lemma CancelFits(b: Books, policy: Policy, id: nat, now: int)
    requires RowsFit(b)
    ensures RowsFit(Cancel(b, policy, id, now))
  {
    if CancelOutcome(b, policy, id) == Ok(true) {
      var so := b.sellerOrders[id];
      RestoreItemsRestores(b.stock, so.items);
      assert RowFits(so, b.stock);
      RefundsFitAnyStatus(so, Cancelled);
    }
  }

  lemma RefundsFitAnyStatus(so: SellerOrder, to: Status)
    requires RefundsFit(so)
    ensures RefundsFit(so.(status := to))
  {}

  lemma MoveFits(b: Books, id: nat, to: Status)
    requires RowsFit(b) && id < |b.sellerOrders| && !to.Refunded?
    ensures RowsFit(MoveTo(b, id, to))
  {
    assert RowFits(b.sellerOrders[id], b.stock);
    RefundsFitAnyStatus(b.sellerOrders[id], to);
  }

  lemma StepFits(b: Books, policy: Policy, step: Step)
    requires RowsFit(b) && IsRequest(step)
    ensures RowsFit(Apply(b, policy, step))
  {
    match step
    case DoCheckout(_, _, _, _) => SalesFit(b, policy, step);
    case DoPurchase(_, _, _, _) => SalesFit(b, policy, step);
    case DoUpdateStatus(id, to) =>
      if UpdateStatusOutcome(b, id, to).Ok? { MoveFits(b, id, to); }
    case DoDeliver(id, stale, crash) =>
      if id < |b.sellerOrders| && b.sellerOrders[id].status.AwaitingFulfillment? { MoveFits(b, id, Processing); }
    case DoCancel(id, now) => CancelFits(b, policy, id, now);
    case DoRefund(id, item, quantity, key, now) => RefundStepFits(b, policy, id, item, quantity, key, now);
  }

  /** In every reachable state refunds fit their items, stay within what was bought, and have distinct keys. */
  lemma {:induction false} RunFits(b: Books, policy: Policy, trace: seq<Step>)
    requires RowsFit(b) && IsTrace(trace)
    ensures RowsFit(Run(b, policy, trace))
    decreases |trace|
  {
    if trace != [] {
      StepFits(b, policy, trace[0]);
      RunFits(Apply(b, policy, trace[0]), policy, trace[1..]);
    }
  }

  // ---------------------------------------------------------------------
  // Conservation of stock
  // ---------------------------------------------------------------------

  /** Initial stock is current stock plus the units customers still hold. */
  predicate Conserved(b: Books, initial: Stock) {
    && b.stock.Keys == initial.Keys
    && forall p | p in initial :: b.stock[p] + SumBy(HeldOf(p), b.sellerOrders) == initial[p]
  }

  predicate IsOverReversed(so: SellerOrder) {
    so.status.Cancelled? && so.refunds != []
  }

  predicate OverReversed(b: Books) {
    exists so :: so in b.sellerOrders && IsOverReversed(so)
  }

  /** Units given back twice: refunded and then restored again by the cancellation. */
  function ExcessOf(product: nat): Measure {
    (i: nat, so: SellerOrder) => if so.status.Cancelled? then RefundedUnits(so.items, so.refunds, product) else 0
  }

  lemma {:induction false} RefundedUnitsAtLeast(items: seq<Item>, refunds: seq<Refund>, product: nat)
    ensures RefundedUnits(items, refunds, product) >= 0
  {
    if refunds != [] {
      RefundedUnitsAtLeast(items, refunds[..|refunds| - 1], product);
    }
  }

  lemma {:induction false} HeldExceedsAbsent(orders: seq<SellerOrder>, product: nat)
    ensures SumBy(HeldOf(product), orders) == SumBy(AbsentOf(product), orders) + SumBy(ExcessOf(product), orders)
    ensures SumBy(ExcessOf(product), orders) >= 0
    ensures forall i: nat | i < |orders| :: SumBy(ExcessOf(product), orders) >= ExcessOf(product)(i, orders[i])
  {
    if orders != [] {
      var n := |orders| - 1;
      HeldExceedsAbsent(orders[..n], product);
      RefundedUnitsAtLeast(orders[n].items, orders[n].refunds, product);
      forall i: nat | i < n
        ensures SumBy(ExcessOf(product), orders) >= ExcessOf(product)(i, orders[i])
      {
        assert orders[..n][i] == orders[i];
      }
    }
  }

  lemma {:induction false} NoExcess(orders: seq<SellerOrder>, product: nat)
    requires forall so | so in orders :: !IsOverReversed(so)
    ensures SumBy(ExcessOf(product), orders) == 0
  {
    if orders != [] {
      assert orders[|orders| - 1] in orders;
      NoExcess(orders[..|orders| - 1], product);
    }
  }

  /** Stock is conserved exactly when no cancelled order carries a refund. */
  lemma ConservedIff(b: Books, initial: Stock)
    requires StockBalances(b, initial) && RowsFit(b)
    ensures Conserved(b, initial) <==> !OverReversed(b)
  {
    if OverReversed(b) {
      var so :| so in b.sellerOrders && IsOverReversed(so);
      var i: nat :| i < |b.sellerOrders| && b.sellerOrders[i] == so;
      assert RowFits(so, b.stock);
      var r := so.refunds[|so.refunds| - 1];
      assert RefundFits(r, so);
      var p := so.items[r.item].product;
      RefundedUnitsAtLeast(so.items, so.refunds[..|so.refunds| - 1], p);
      HeldExceedsAbsent(b.sellerOrders, p);
      assert ExcessOf(p)(i, so) >= 1;
      assert so.items[r.item] in so.items;
    } else {
      forall p | p in initial
        ensures b.stock[p] + SumBy(HeldOf(p), b.sellerOrders) == initial[p]
      {
        HeldExceedsAbsent(b.sellerOrders, p);
        NoExcess(b.sellerOrders, p);
      }
    }
  }

  /** A cancellation keeps stock conserved exactly when its order has no refunds. */
  lemma CancelConservesIff(b: Books, policy: Policy, initial: Stock, id: nat, now: int)
    requires StockBalances(b, initial) && RowsFit(b) && Conserved(b, initial)
    requires CancelOutcome(b, policy, id) == Ok(true)
    ensures Conserved(Cancel(b, policy, id, now), initial) <==> b.sellerOrders[id].refunds == []
  {
    var b' := Cancel(b, policy, id, now);
    CancelBalances(b, policy, initial, id, now);
    CancelFits(b, policy, id, now);
    ConservedIff(b, initial);
    ConservedIff(b', initial);
    var so' := b.sellerOrders[id].(status := Cancelled);
    assert b'.sellerOrders[id] == so';
    if b.sellerOrders[id].refunds == [] {
      forall so | so in b'.sellerOrders
        ensures !IsOverReversed(so)
      {
        assert so == so' || so in b.sellerOrders;
      }
    } else {
      assert so' in b'.sellerOrders;
    }
  }

  // ---------------------------------------------------------------------
  // The ledger and the financial summary
  // ---------------------------------------------------------------------

  /** What the derived summary calls the effective figure: nothing for a cancelled order, else original less refunds. */
  function Effective(so: SellerOrder, side: Side): int {
    if so.status.Cancelled? then 0 else Original(so, side) - RefundSum(so.refunds, side)
  }

  function EffectiveIn(side: Side, scope: Scope): Measure {
    (i: nat, so: SellerOrder) => if scope(i, so.seller) then Effective(so, side) else 0
  }

  function OnlyRow(id: nat): Scope {
    (i: nat, seller: nat) => i == id
  }

  lemma {:induction false} SumOfOneRow(orders: seq<SellerOrder>, id: nat, side: Side)
    ensures SumBy(BookedIn(side, OnlyRow(id)), orders) == if id < |orders| then Booked(orders[id], side) else 0
  {
    if orders != [] {
      SumOfOneRow(orders[..|orders| - 1], id, side);
    }
  }

  /**
   For each order, the ledger folds to the derived summary
   exactly when the order was not both refunded and cancelled.
   */
  lemma LedgerMatchesSummaryIff(b: Books, id: nat, side: Side)
    requires LedgerAgrees(b, side, OnlyRow(id)) && id < |b.sellerOrders| && !IsReversed(side)
    ensures var so := b.sellerOrders[id];
            (LedgerSum(b.ledger, side, OnlyRow(id)) == Effective(so, side))
            <==> (so.status.Cancelled? ==> RefundSum(so.refunds, side) == 0)
  {
    SumOfOneRow(b.sellerOrders, id, side);
  }

  /**
   An accepted cancellation leaves the ledger at the order's effective figure exactly when nothing of that side had
   been refunded before it.
   */
  lemma CancelKeepsLedgerIff(b: Books, policy: Policy, id: nat, now: int, side: Side)
    requires LedgerAgrees(b, side, OnlyRow(id)) && !IsReversed(side)
    requires CancelOutcome(b, policy, id) == Ok(true)
    ensures var b' := Cancel(b, policy, id, now);
            && id < |b'.sellerOrders|
            && (LedgerSum(b'.ledger, side, OnlyRow(id)) == Effective(b'.sellerOrders[id], side)
                <==> RefundSum(b.sellerOrders[id].refunds, side) == 0)
  {
    CancelAgrees(b, policy, id, now, side, OnlyRow(id));
    LedgerMatchesSummaryIff(Cancel(b, policy, id, now), id, side);
  }

  // ---------------------------------------------------------------------
  // Which policies conserve
  // ---------------------------------------------------------------------

  function Rank(s: Status): nat {
    match s
    case AwaitingFulfillment => 0
    case Processing => 1
    case Shipped => 2
    case Delivered => 3
    case Cancelled => 4
    case Refunded => 5
  }

  predicate IsProgress(s: Status) {
    Rank(s) <= 3
  }

  predicate CanCancel(policy: Policy) {
    exists c :: c in policy.cancellable && IsProgress(c)
  }

  /** No order can be refunded and then reach, or already be past, a cancellation. */
  predicate Separated(policy: Policy) {
    && (forall r, c | r in policy.refundable && c in policy.cancellable && IsProgress(r) && IsProgress(c) ::
          Rank(r) > Rank(c))
    && (Cancelled in policy.refundable ==> !CanCancel(policy))
  }

  /** A refunded order has moved past every cancellable status. */
  predicate RefundsAreFinal(so: SellerOrder, policy: Policy) {
    && !so.status.Refunded?
    && (so.status.Cancelled? ==> CanCancel(policy) && so.refunds == [])
    && (so.refunds != [] ==> forall c | c in policy.cancellable && IsProgress(c) :: Rank(so.status) > Rank(c))
  }

  predicate AllRefundsFinal(b: Books, policy: Policy) {
    forall so | so in b.sellerOrders :: RefundsAreFinal(so, policy)
  }

  lemma ReplacedRow(b: Books, policy: Policy, id: nat, so': SellerOrder, b': Books)
    requires AllRefundsFinal(b, policy) && id < |b.sellerOrders| && RefundsAreFinal(so', policy)
    requires b'.sellerOrders == b.sellerOrders[id := so']
    ensures AllRefundsFinal(b', policy)
  {}

  lemma {:induction false} AddingKeepsFinal(b: Books, order: nat, groups: seq<Group>, now: int, policy: Policy)
    requires AllRefundsFinal(b, policy)
    ensures AllRefundsFinal(AddSellerOrders(b, order, groups, now), policy)
    decreases |groups|
  {
    if groups != [] {
      AddingKeepsFinal(AddSellerOrder(b, order, groups[0], now), order, groups[1..], now, policy);
    }
  }

  lemma PlaceKeepsFinal(
    b: Books, policy: Policy, customer: nat, key: string, lines: seq<Line>, stock: Stock, now: int)
    requires AllRefundsFinal(b, policy)
    ensures AllRefundsFinal(Place(b, customer, key, lines, stock, now), policy)
  {
    hide Split, TotalCents, AddSellerOrders;
    AddingKeepsFinal(b.(stock := stock, orders := b.orders + [Order(customer, key, TotalCents(lines))]),
                     |b.orders|, Split(lines), now, policy);
  }

  lemma StepKeepsFinal(b: Books, policy: Policy, step: Step)
    requires Separated(policy) && AllRefundsFinal(b, policy)
    ensures AllRefundsFinal(Apply(b, policy, step), policy)
  {
    hide Place, RestoreItems, RestoreEvents, TakeAll, FirstRefused, RefundedQuantity;
    var b' := Apply(b, policy, step);
    if step.DoCheckout? {
      if b' != b {
        PlaceKeepsFinal(b, policy, step.customer, step.claimKey, step.lines,
          TakeAll(b.stock, step.lines).value, step.placedAt);
      }
    } else if step.DoPurchase? {
      if b' != b {
        var lines := [LotLine(step.lot)];
        PlaceKeepsFinal(b, policy, step.winner, step.winKey, lines, TakeAll(b.stock, lines).value, step.boughtAt);
      }
    } else if step.id < |b.sellerOrders| && b' != b {
      var so := b.sellerOrders[step.id];
      assert RefundsAreFinal(so, policy);
      assert so.status in policy.cancellable && IsProgress(so.status) ==> CanCancel(policy);
      if b'.sellerOrders != b.sellerOrders {
        ReplacedRow(b, policy, step.id, b'.sellerOrders[step.id], b');
      }
    }
  }

  lemma {:induction false} RunKeepsFinal(b: Books, policy: Policy, trace: seq<Step>)
    requires Separated(policy) && AllRefundsFinal(b, policy)
    ensures AllRefundsFinal(Run(b, policy, trace), policy)
    decreases |trace|
  {
    if trace != [] {
      StepKeepsFinal(b, policy, trace[0]);
      RunKeepsFinal(Apply(b, policy, trace[0]), policy, trace[1..]);
    }
  }

  lemma {:induction false} RunConcat(b: Books, policy: Policy, t: seq<Step>, u: seq<Step>)
    ensures Run(b, policy, t + u) == Run(Run(b, policy, t), policy, u)
    decreases |t|
  {
    hide Apply;
    if t == [] {
      assert t + u == u;
    } else {
      RunConcat(Apply(b, policy, t[0]), policy, t[1..], u);
      assert (t + u)[1..] == t[1..] + u;
    }
  }

  /** From a fresh marketplace, a separated policy conserves stock in every reachable state. */
  lemma SeparatedConserves(b: Books, policy: Policy, trace: seq<Step>)
    requires IsFresh(b) && IsTrace(trace) && Separated(policy)
    ensures Conserved(Run(b, policy, trace), b.stock)
  {
    var b' := Run(b, policy, trace);
    RunBalances(b, policy, b.stock, trace);
    RunFits(b, policy, trace);
    RunKeepsFinal(b, policy, trace);
    ConservedIff(b', b.stock);
    forall so | so in b'.sellerOrders
      ensures !IsOverReversed(so)
    {
      assert RefundsAreFinal(so, policy);
    }
  }

  lemma {:induction false} NothingReversedTwice(orders: seq<SellerOrder>, side: Side, scope: Scope)
    requires !IsReversed(side) && (forall so | so in orders :: !IsOverReversed(so))
    ensures SumBy(EffectiveIn(side, scope), orders) == SumBy(BookedIn(side, scope), orders)
  {
    if orders != [] {
      var last := orders[|orders| - 1];
      assert last in orders && (last.status.Cancelled? ==> RefundSum(last.refunds, side) == 0);
      assert Booked(last, side) == Effective(last, side);
      NothingReversedTwice(orders[..|orders| - 1], side, scope);
    }
  }

  /**
   Under a separated policy, in every reachable state and for any choice of orders and sellers, the append-only ledger
   sums to the originals less refunds, and to nothing for cancelled orders.
   */
  lemma SeparatedLedgerIsExact(b: Books, policy: Policy, trace: seq<Step>, side: Side, scope: Scope)
    requires IsFresh(b) && IsTrace(trace) && Separated(policy) && !IsReversed(side)
    ensures var b' := Run(b, policy, trace);
            LedgerSum(b'.ledger, side, scope) == SumBy(EffectiveIn(side, scope), b'.sellerOrders)
  {
    RunAgrees(b, policy, trace, side, scope);
    RunKeepsFinal(b, policy, trace);
    var b' := Run(b, policy, trace);
    assert forall so | so in b'.sellerOrders && RefundsAreFinal(so, policy) :: !IsOverReversed(so);
    NothingReversedTwice(b'.sellerOrders, side, scope);
  }

  /**
   And what the ledger reverses of an order is its full pair,
   once, when it is cancelled, and its refunds otherwise.
   */
  lemma ReversedExactlyOnce(b: Books, policy: Policy, trace: seq<Step>, id: nat)
    requires IsFresh(b) && IsTrace(trace) && Separated(policy) && id < |Run(b, policy, trace).sellerOrders|
    ensures var b' := Run(b, policy, trace); var so := b'.sellerOrders[id];
            && LedgerSum(b'.ledger, EarningReversed, OnlyRow(id))
                 == (if so.status.Cancelled? then so.subtotal else RefundSum(so.refunds, Earning))
            && LedgerSum(b'.ledger, CommissionReversed, OnlyRow(id))
                 == (if so.status.Cancelled? then so.commission else RefundSum(so.refunds, Commission))
  {
    RunAgrees(b, policy, trace, EarningReversed, OnlyRow(id));
    RunAgrees(b, policy, trace, CommissionReversed, OnlyRow(id));
    RunKeepsFinal(b, policy, trace);
    var b' := Run(b, policy, trace);
    SumOfOneRow(b'.sellerOrders, id, EarningReversed);
    SumOfOneRow(b'.sellerOrders, id, CommissionReversed);
    var so := b'.sellerOrders[id];
    assert so in b'.sellerOrders && RefundsAreFinal(so, policy);
    SameRefundSum(so.refunds);
  }

  lemma {:induction false} SameRefundSum(refunds: seq<Refund>)
    ensures RefundSum(refunds, EarningReversed) == RefundSum(refunds, Earning)
    ensures RefundSum(refunds, CommissionReversed) == RefundSum(refunds, Commission)
  {
    if refunds != [] {
      SameRefundSum(refunds[..|refunds| - 1]);
    }
  }

  // ---------------------------------------------------------------------
  // The failing run of any other policy
  // ---------------------------------------------------------------------

  function Next(s: Status): Status
    requires Rank(s) < 3
  {
    if s.AwaitingFulfillment? then Processing else if s.Processing? then Shipped else Delivered
  }

  /** Forward status changes of order row 0. */
  function Path(from: Status, to: Status): seq<Step>
    requires Rank(from) <= Rank(to) <= 3
    decreases Rank(to) - Rank(from)
  {
    if from == to then [] else [DoUpdateStatus(0, Next(from))] + Path(Next(from), to)
  }

  lemma {:induction false} PathMoves(b: Books, policy: Policy, from: Status, to: Status)
    requires Rank(from) <= Rank(to) <= 3 && |b.sellerOrders| == 1 && b.sellerOrders[0].status == from
    ensures Run(b, policy, Path(from, to)).sellerOrders == [b.sellerOrders[0].(status := to)]
    ensures IsTrace(Path(from, to))
    decreases Rank(to) - Rank(from)
  {
    if from != to {
      PathMoves(UpdateStatus(b, 0, Next(from)), policy, Next(from), to);
    }
  }

  const ONE_LINE := Line(0, 0, 1000, Some(1000), true, true, 1)
  const ONE_SALE := DoCheckout(0, "sale", [ONE_LINE], 0)
  const ONE_STOCKED := Books(map[0 := 1], [], [], [], [], map[], {})

  /** One unit at 10.00 for which 10% commission is due. */
  const SOLD := SellerOrder(0, 0, [Item(0, 1000, 1)], 1000, 100, AwaitingFulfillment, [])

  lemma CommissionIs(subtotal: nat, rate: nat)
    ensures CommissionOn(subtotal, rate) == RoundHalfUpDivide(subtotal * rate, 10_000)
  {
    hide FormatCentsToMoney, ParseMoneyToCents;
    ParseUndoesFormat(rate);
  }

  function Stocked(stock: Stock): Books {
    Books(stock, [], [], [], [], map[], {})
  }

  /** The order that one line becomes. */
  function SoldLine(l: Line): SellerOrder
    requires l.price.Some?
  {
    var subtotal := l.price.value * l.quantity;
    SellerOrder(0, l.seller, [Item(l.product, l.price.value, l.quantity)], subtotal, CommissionOn(subtotal, l.rate),
                AwaitingFulfillment, [])
  }

  lemma OneGroup(l: Line)
    requires l.price.Some?
    ensures Split([l]) == [Group(l.seller, l.rate, [l])]
            && SellerOrderFor(0, Group(l.seller, l.rate, [l])) == SoldLine(l)
  {
    hide CommissionOn;
    SplitOne(l);
    var lines := [l];
    assert lines[1..] == [];
    assert ItemsOf(lines) == [Item(l.product, l.price.value, l.quantity)];
  }

  lemma OneLineTaken(stock: Stock, l: Line)
    requires l.published && l.fixedPrice && l.price.Some? && l.product in stock && stock[l.product] >= l.quantity
    ensures FirstRefused([l], 0).None? && TakeAll(stock, [l]).Some?
  {
    assert [l][1..] == [] && FirstRefused([l], 1).None?;
  }

  /** A one-line checkout against fresh books places its order. */
  lemma OneLineSells(stock: Stock, l: Line)
    requires l.published && l.fixedPrice && l.price.Some? && l.product in stock && stock[l.product] >= l.quantity
    ensures var b := Checkout(Stocked(stock), 0, "sale", [l], 0); b.sellerOrders == [SoldLine(l)] && b.processed == {}
  {
    OneLineTaken(stock, l);
    OneGroup(l);
    hide Split, SellerOrderFor, TotalCents, TakeAll, FirstRefused, SoldLine;
    var b, g := Stocked(stock), Group(l.seller, l.rate, [l]);
    var taken := b.(stock := TakeAll(stock, [l]).value, orders := b.orders + [Order(0, "sale", TotalCents([l]))]);
    assert [g][1..] == [];
    var placed := AddSellerOrder(taken, 0, g, 0);
    assert AddSellerOrders(taken, 0, [g], 0) == placed && placed.sellerOrders == [SoldLine(l)];
    assert CheckoutOutcome(b, 0, "sale", [l]) == Ok(Placed(0));
  }

  lemma OneSale(policy: Policy)
    ensures var b := Apply(ONE_STOCKED, policy, ONE_SALE); b.sellerOrders == [SOLD] && b.processed == {}
  {
    CommissionIs(1000, 1000);
    OneLineSells(ONE_STOCKED.stock, ONE_LINE);
    hide Checkout, CommissionOn;
    assert Stocked(ONE_STOCKED.stock) == ONE_STOCKED && SoldLine(ONE_LINE) == SOLD;
  }

  const ONE_REFUND := DoRefund(0, 0, 1, "refund", 0)
  const REFUND_ROW := Refund(0, 1, 1000, 100, "refund")

  lemma OneRefund(b: Books, policy: Policy, status: Status)
    requires b.sellerOrders == [SOLD.(status := status)] && status in policy.refundable
    ensures Apply(b, policy, ONE_REFUND).sellerOrders == [SOLD.(status := status, refunds := [REFUND_ROW])]
  {
    RatioOfWhole(100, 1000);
    hide ApplyRatio;
    var so := b.sellerOrders[0];
    assert RefundFor(so, 0, 1, "refund") == REFUND_ROW;
    assert RefundOutcome(b, policy, 0, 0, 1, "refund") == Ok(Created(0));
    assert so.refunds + [REFUND_ROW] == [REFUND_ROW];
  }

  /** Refund at r, move on to c, cancel. */
  function RefundThenCancel(r: Status, c: Status): seq<Step>
    requires Rank(r) <= Rank(c) <= 3
  {
    [ONE_SALE] + Path(AwaitingFulfillment, r) + [ONE_REFUND] + Path(r, c) + [DoCancel(0, 0)]
  }

  /** Move on to c, cancel, and refund what is already cancelled. */
  function CancelThenRefund(c: Status): seq<Step>
    requires IsProgress(c)
  {
    [ONE_SALE] + Path(AwaitingFulfillment, c) + [DoCancel(0, 0)] + [ONE_REFUND]
  }

  lemma RunOne(b: Books, policy: Policy, step: Step)
    ensures Run(b, policy, [step]) == Apply(b, policy, step)
  {}

  const REVERSED_TWICE := SOLD.(status := Cancelled, refunds := [REFUND_ROW])

  lemma RefundThenCancelOverReverses(policy: Policy, r: Status, c: Status)
    requires r in policy.refundable && c in policy.cancellable && Rank(r) <= Rank(c) <= 3
    ensures IsTrace(RefundThenCancel(r, c))
    ensures Run(ONE_STOCKED, policy, RefundThenCancel(r, c)).sellerOrders == [REVERSED_TWICE]
  {
    hide Path, Apply, Run;
    var t1 := [ONE_SALE];
    var t2 := t1 + Path(AwaitingFulfillment, r);
    var t3 := t2 + [ONE_REFUND];
    var t4 := t3 + Path(r, c);
    OneSale(policy);
    RunOne(ONE_STOCKED, policy, ONE_SALE);
    var b1 := Run(ONE_STOCKED, policy, t1);
    PathMoves(b1, policy, AwaitingFulfillment, r);
    RunConcat(ONE_STOCKED, policy, t1, Path(AwaitingFulfillment, r));
    var b2 := Run(ONE_STOCKED, policy, t2);
    OneRefund(b2, policy, r);
    RunOne(b2, policy, ONE_REFUND);
    RunConcat(ONE_STOCKED, policy, t2, [ONE_REFUND]);
    var b3 := Run(ONE_STOCKED, policy, t3);
    PathMoves(b3, policy, r, c);
    RunConcat(ONE_STOCKED, policy, t3, Path(r, c));
    var b4 := Run(ONE_STOCKED, policy, t4);
    LastCancel(b4, policy);
    RunOne(b4, policy, DoCancel(0, 0));
    RunConcat(ONE_STOCKED, policy, t4, [DoCancel(0, 0)]);
  }

  lemma LastCancel(b: Books, policy: Policy)
    requires |b.sellerOrders| == 1 && IsProgress(b.sellerOrders[0].status)
             && b.sellerOrders[0].status in policy.cancellable
    ensures Apply(b, policy, DoCancel(0, 0)).sellerOrders == [b.sellerOrders[0].(status := Cancelled)]
  {}

  lemma CancelThenRefundOverReverses(policy: Policy, c: Status)
    requires Cancelled in policy.refundable && c in policy.cancellable && IsProgress(c)
    ensures IsTrace(CancelThenRefund(c))
    ensures Run(ONE_STOCKED, policy, CancelThenRefund(c)).sellerOrders == [REVERSED_TWICE]
  {
    hide Path, Apply, Run;
    var t1 := [ONE_SALE];
    var t2 := t1 + Path(AwaitingFulfillment, c);
    var t3 := t2 + [DoCancel(0, 0)];
    OneSale(policy);
    RunOne(ONE_STOCKED, policy, ONE_SALE);
    var b1 := Run(ONE_STOCKED, policy, t1);
    PathMoves(b1, policy, AwaitingFulfillment, c);
    RunConcat(ONE_STOCKED, policy, t1, Path(AwaitingFulfillment, c));
    var b2 := Run(ONE_STOCKED, policy, t2);
    LastCancel(b2, policy);
    RunOne(b2, policy, DoCancel(0, 0));
    RunConcat(ONE_STOCKED, policy, t2, [DoCancel(0, 0)]);
    var b3 := Run(ONE_STOCKED, policy, t3);
    OneRefund(b3, policy, Cancelled);
    RunOne(b3, policy, ONE_REFUND);
    RunConcat(ONE_STOCKED, policy, t3, [ONE_REFUND]);
  }

  /** What has been reversed of the one order, and what the ledger then says of it, when it was reversed twice. */
  predicate PaysTwice(b: Books) {
    && |b.sellerOrders| == 1
    && LedgerSum(b.ledger, EarningReversed, OnlyRow(0)) == 2 * b.sellerOrders[0].subtotal == 2000
    && LedgerSum(b.ledger, CommissionReversed, OnlyRow(0)) == 2 * b.sellerOrders[0].commission == 200
    && LedgerSum(b.ledger, Earning, OnlyRow(0)) == -1000 && Effective(b.sellerOrders[0], Earning) == 0
    && LedgerSum(b.ledger, Commission, OnlyRow(0)) == -100 && Effective(b.sellerOrders[0], Commission) == 0
  }

  lemma TwiceBooked(side: Side)
    ensures Booked(REVERSED_TWICE, side)
         == match side
            case Earning => -1000
            case Commission => -100
            case EarningReversed => 2000
            case CommissionReversed => 200
  {
    var refunds := [REFUND_ROW];
    assert refunds[..0] == [];
    assert RefundSum(refunds, side) == if IsEarning(side) then 1000 else 100;
  }

  lemma ReversedTwicePaysTwice(policy: Policy, trace: seq<Step>)
    requires Run(ONE_STOCKED, policy, trace).sellerOrders == [REVERSED_TWICE]
    ensures OverReversed(Run(ONE_STOCKED, policy, trace)) && PaysTwice(Run(ONE_STOCKED, policy, trace))
  {
    var b := Run(ONE_STOCKED, policy, trace);
    assert b.sellerOrders[0] in b.sellerOrders;
    SumsAreBooked(policy, trace, Earning);
    SumsAreBooked(policy, trace, Commission);
    SumsAreBooked(policy, trace, EarningReversed);
    SumsAreBooked(policy, trace, CommissionReversed);
    hide LedgerSum, Run;
  }

  lemma SumsAreBooked(policy: Policy, trace: seq<Step>, side: Side)
    requires Run(ONE_STOCKED, policy, trace).sellerOrders == [REVERSED_TWICE]
    ensures LedgerSum(Run(ONE_STOCKED, policy, trace).ledger, side, OnlyRow(0))
         == match side
            case Earning => -1000
            case Commission => -100
            case EarningReversed => 2000
            case CommissionReversed => 200
  {
    RunAgrees(ONE_STOCKED, policy, trace, side, OnlyRow(0));
    hide Run, Booked;
    SumOfOneRow([REVERSED_TWICE], 0, side);
    TwiceBooked(side);
  }

  /**
   A policy that is not separated breaks conservation in some run: the unit comes back twice, and both sides of its
   pair are reversed twice.
   */
  lemma UnseparatedFails(policy: Policy) returns (trace: seq<Step>)
    requires !Separated(policy)
    ensures IsFresh(ONE_STOCKED) && IsTrace(trace)
    ensures !Conserved(Run(ONE_STOCKED, policy, trace), ONE_STOCKED.stock)
    ensures PaysTwice(Run(ONE_STOCKED, policy, trace))
  {
    if r, c :|
         r in policy.refundable && c in policy.cancellable && IsProgress(r) && IsProgress(c) && Rank(r) <= Rank(c)
    {
      trace := RefundThenCancel(r, c);
      RefundThenCancelOverReverses(policy, r, c);
    } else {
      var c :| c in policy.cancellable && IsProgress(c);
      trace := CancelThenRefund(c);
      CancelThenRefundOverReverses(policy, c);
    }
    hide Run, PaysTwice, Conserved;
    ReversedTwicePaysTwice(policy, trace);
    RunBalances(ONE_STOCKED, policy, ONE_STOCKED.stock, trace);
    RunFits(ONE_STOCKED, policy, trace);
    ConservedIff(Run(ONE_STOCKED, policy, trace), ONE_STOCKED.stock);
  }

  /** For every order and both sides of its pair, the ledger says what the derived summary says. */
  predicate LedgerExact(b: Books) {
    forall id, side | 0 <= id < |b.sellerOrders| && side in {Earning, Commission} ::
      LedgerSum(b.ledger, side, OnlyRow(id)) == Effective(b.sellerOrders[id], side)
  }

  lemma SeparatedIsExact(b: Books, policy: Policy, trace: seq<Step>)
    requires IsFresh(b) && IsTrace(trace) && Separated(policy)
    ensures LedgerExact(Run(b, policy, trace))
  {
    RunKeepsFinal(b, policy, trace);
    var b' := Run(b, policy, trace);
    forall id: nat, side | id < |b'.sellerOrders| && side in {Earning, Commission}
      ensures LedgerSum(b'.ledger, side, OnlyRow(id)) == Effective(b'.sellerOrders[id], side)
    {
      RunAgrees(b, policy, trace, side, OnlyRow(id));
      LedgerMatchesSummaryIff(b', id, side);
      assert b'.sellerOrders[id] in b'.sellerOrders && RefundsAreFinal(b'.sellerOrders[id], policy);
    }
  }

  /**
   Conservation over every run from a fresh marketplace, of stock
   and of money alike, is exactly separation of the policy.
   */
  lemma SeparatedIffConserving(policy: Policy)
    ensures Separated(policy)
       <==> forall b, trace | IsFresh(b) && IsTrace(trace) :: Conserved(Run(b, policy, trace), b.stock)
    ensures Separated(policy)
       <==> forall b, trace | IsFresh(b) && IsTrace(trace) :: LedgerExact(Run(b, policy, trace))
  {
    hide Run, Conserved, LedgerSum, Effective;
    if Separated(policy) {
      forall b, trace | IsFresh(b) && IsTrace(trace)
        ensures Conserved(Run(b, policy, trace), b.stock) && LedgerExact(Run(b, policy, trace))
      {
        SeparatedConserves(b, policy, trace);
        SeparatedIsExact(b, policy, trace);
      }
    } else {
      var trace := UnseparatedFails(policy);
      assert IsFresh(ONE_STOCKED) && IsTrace(trace);
      assert !LedgerExact(Run(ONE_STOCKED, policy, trace)) by {
        assert LedgerSum(Run(ONE_STOCKED, policy, trace).ledger, Earning, OnlyRow(0)) == -1000;
      }
    }
  }

  lemma SourcePolicyOverlaps()
    ensures !Separated(SOURCE_POLICY) && Separated(Policy({Shipped, Delivered}, SOURCE_POLICY.cancellable))
  {
    assert Processing in SOURCE_POLICY.refundable && Processing in SOURCE_POLICY.cancellable;
  }

  /** The policy in force lets a processing order be refunded and then cancelled; refunds from shipment on would not. */
  lemma SourcePolicyIsNotSeparated()
    ensures !Separated(SOURCE_POLICY)
    ensures var b := Run(ONE_STOCKED, SOURCE_POLICY, RefundThenCancel(Processing, Processing));
            OverReversed(b) && PaysTwice(b)
    ensures Separated(Policy({Shipped, Delivered}, SOURCE_POLICY.cancellable))
  {
    SourcePolicyOverlaps();
    hide Run, Separated, OverReversed, PaysTwice, RefundThenCancel;
    RefundThenCancelOverReverses(SOURCE_POLICY, Processing, Processing);
    ReversedTwicePaysTwice(SOURCE_POLICY, RefundThenCancel(Processing, Processing));
  }
}
