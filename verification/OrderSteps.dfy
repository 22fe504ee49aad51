/** What each order operation accepts and what its ledger entries carry, said without the tables it looks them up in. */
module OrderSteps {
  import opened Results
  import opened CartSplit
  import opened OrderBooks
  import opened BooksLaws
  import opened Conservation
  import opened LedgerReports

  // ---------------------------------------------------------------------
  // Which requests are accepted
  // ---------------------------------------------------------------------

  /** An order moves to the next rank up and to no other, and only as far as delivered. */
  lemma UpdateDecides(b: Books, id: nat, to: Status)
    ensures UpdateStatusOutcome(b, id, to)
            == if id >= |b.sellerOrders| then Err(OrderNotFound)
               else
                 var from := b.sellerOrders[id].status;
                 if Rank(to) <= 3 && Rank(to) == Rank(from) + 1 then Ok(()) else Err(BadTransition(from, to))
  {}

  /** The program's policy cancels what is not shipped yet; a second cancellation is accepted and does nothing. */
  lemma CancelDecides(b: Books, id: nat)
    ensures CancelOutcome(b, SOURCE_POLICY, id)
            == if id >= |b.sellerOrders| then Err(NoSuchOrder)
               else
                 var status := b.sellerOrders[id].status;
                 if Rank(status) <= 1 then Ok(true)
                 else if Rank(status) == 4 then Ok(false)
                 else Err(NotCancellable(status))
  {}

  /** Units of an item that no refund has taken back yet. */
  function Left(so: SellerOrder, item: nat): int
    requires item < |so.items|
  {
    so.items[item].quantity - RefundedQuantity(so.refunds, item)
  }

  /**
   It refunds an item that is started, shipped or delivered, up to the units left of it; a key already used gets its
   own refund back, but only within the same limits.
   */
  lemma RefundDecides(b: Books, id: nat, item: nat, quantity: nat, key: string)
    ensures var outcome := RefundOutcome(b, SOURCE_POLICY, id, item, quantity, key);
            if id >= |b.sellerOrders| then outcome == Err(UnknownOrder)
            else
              var so := b.sellerOrders[id];
              if !(1 <= Rank(so.status) <= 3) then outcome == Err(NotRefundable(so.status))
              else if item >= |so.items| then outcome == Err(NoSuchItem)
              else if quantity > Left(so, item) then outcome == Err(TooMany(Left(so, item)))
              else if forall r | r in so.refunds :: r.key != key then outcome == Ok(Created(|so.refunds|))
              else
                && outcome.Ok? && outcome.value.Existing? && outcome.value.index < |so.refunds|
                && so.refunds[outcome.value.index].key == key
                && forall j | 0 <= j < outcome.value.index :: so.refunds[j].key != key
  {
    if id < |b.sellerOrders| {
      var so := b.sellerOrders[id];
      var i := FindRefund(so.refunds, key);
      if i < |so.refunds| {
        assert so.refunds[i] in so.refunds;
      }
    }
  }

  predicate IsBuyable(l: Line) {
    l.published && l.fixedPrice && l.price.Some?
  }

  predicate InStock(stock: Stock, lines: seq<Line>) {
    forall l | l in lines :: l.product in stock && Units(lines, l.product) <= stock[l.product]
  }

  /** The first line that cannot be bought decides, and a line not published any more is reported as unavailable. */
  lemma {:induction false} FirstRefusedIs(lines: seq<Line>, from: nat)
    requires from <= |lines|
    ensures var refused := FirstRefused(lines, from);
            if forall i | from <= i < |lines| :: IsBuyable(lines[i]) then refused.None?
            else
              && refused.Some? && (refused.value.Unavailable? || refused.value.NotForDirectPurchase?)
              && from <= refused.value.line < |lines|
              && !IsBuyable(lines[refused.value.line])
              && (refused.value.Unavailable? <==> !lines[refused.value.line].published)
              && forall i | from <= i < refused.value.line :: IsBuyable(lines[i])
    decreases |lines| - from
  {
    if from < |lines| {
      FirstRefusedIs(lines, from + 1);
    }
  }

  /** A known key replays; then the cart must not be empty, every line buyable, and the stock enough for all of them. */
  lemma CheckoutDecides(b: Books, customer: nat, key: string, lines: seq<Line>)
    ensures var outcome := CheckoutOutcome(b, customer, key, lines);
            if (customer, key) in b.claims then outcome == Ok(Replayed(b.claims[(customer, key)]))
            else if lines == [] then outcome == Err(CartEmpty)
            else if exists l | l in lines :: !IsBuyable(l) then
              var refused := FirstRefused(lines, 0); refused.Some? && outcome == Err(refused.value)
            else if !InStock(b.stock, lines) then outcome == Err(StockConflict)
            else outcome == Ok(Placed(|b.orders|))
  {
    FirstRefusedIs(lines, 0);
    TakeAllIff(b.stock, lines);
  }

  /** A purchase its auction has let through needs a fresh key and one unit. */
  lemma PurchaseDecides(b: Books, winner: nat, key: string, lot: Lot)
    ensures PurchaseOutcome(b, winner, key, lot)
            == if (winner, key) in b.claims then Ok(Replayed(b.claims[(winner, key)]))
               else if lot.product in b.stock && b.stock[lot.product] >= 1 then Ok(Placed(|b.orders|))
               else Err(StockConflict)
  {
    var lines := [LotLine(lot)];
    assert lines[1..] == [] && Units([], lot.product) == 0;
    TakeAllIff(b.stock, lines);
  }

  /**
   One delivery leaves its order started, and its event marked unless the worker died before; once marked, only a check
   made too early lets a delivery do anything, and even that finds nothing left to start.
   */
  lemma DeliveryDecides(b: Books, id: nat, stale: bool, crash: bool)
    ensures var b' := Deliver(b, id, stale, crash);
            && (id in b.processed && !stale ==> b' == b)
            && (id !in b.processed || stale ==>
                  && (!crash ==> b'.processed == b.processed + {id}) && (crash ==> b'.processed == b.processed)
                  && |b'.sellerOrders| == |b.sellerOrders|
                  && forall i | 0 <= i < |b.sellerOrders| ::
                       b'.sellerOrders[i] == if i == id && b.sellerOrders[i].status.AwaitingFulfillment?
                                             then b.sellerOrders[i].(status := Processing) else b.sellerOrders[i])
            && b' == b.(sellerOrders := b'.sellerOrders, outbox := b'.outbox, processed := b'.processed)
    ensures Deliver(Deliver(b, id, stale, false), id, false, crash) == Deliver(b, id, stale, false)
  {}

  /** What an accepted move writes: the row's status and one event that names both statuses. */
  lemma UpdateWrites(b: Books, id: nat, to: Status)
    ensures var b' := UpdateStatus(b, id, to);
            if UpdateStatusOutcome(b, id, to).Err? then b' == b
            else
              && b'.sellerOrders == b.sellerOrders[id := b.sellerOrders[id].(status := to)]
              && b' == b.(sellerOrders := b'.sellerOrders,
                          outbox := b.outbox + [StatusChanged(id, b.sellerOrders[id].status, to)])
  {}

  // ---------------------------------------------------------------------
  // What a step's ledger entries carry
  // ---------------------------------------------------------------------

  function TimeOf(step: Step): int {
    match step
    case DoCheckout(_, _, _, now) => now
    case DoPurchase(_, _, _, now) => now
    case DoCancel(_, now) => now
    case DoRefund(_, _, _, _, now) => now
    case _ => 0
  }

  /** Entries from position n on are dated `at` and belong to the seller of their own order. */
  predicate EntriesOwned(b: Books, n: nat, at: int) {
    forall i | n <= i < |b.ledger| ::
      b.ledger[i].at == at && b.ledger[i].sellerOrder < |b.sellerOrders|
      && b.ledger[i].seller == b.sellerOrders[b.ledger[i].sellerOrder].seller
  }

  lemma {:induction false} AddingOwns(b: Books, order: nat, groups: seq<Group>, now: int, n: nat)
    requires n <= |b.ledger| && EntriesOwned(b, n, now)
    ensures var b' := AddSellerOrders(b, order, groups, now); b.ledger <= b'.ledger && EntriesOwned(b', n, now)
    decreases |groups|
  {
    if groups != [] {
      OneOwns(b, order, groups[0], now, n);
      hide AddSellerOrder, EntriesOwned;
      AddingOwns(AddSellerOrder(b, order, groups[0], now), order, groups[1..], now, n);
    }
  }

  lemma OneOwns(b: Books, order: nat, g: Group, now: int, n: nat)
    requires n <= |b.ledger| && EntriesOwned(b, n, now)
    ensures var b' := AddSellerOrder(b, order, g, now); b.ledger <= b'.ledger && EntriesOwned(b', n, now)
  {
    hide CommissionOn, TotalCents, ItemsOf;
  }

  lemma PlaceOwns(b: Books, customer: nat, key: string, lines: seq<Line>, stock: Stock, now: int)
    ensures var b' := Place(b, customer, key, lines, stock, now);
            b.ledger <= b'.ledger && EntriesOwned(b', |b.ledger|, now)
  {
    hide Split, TotalCents, AddSellerOrders, StockEvents;
    var taken := b.(stock := stock, orders := b.orders + [Order(customer, key, TotalCents(lines))]);
    AddingOwns(taken, |b.orders|, Split(lines), now, |b.ledger|);
  }

  /** Every entry a step adds carries the step's time and its order's seller, and none is ever changed or removed. */
  lemma StepOwnsEntries(b: Books, policy: Policy, step: Step)
    ensures var b' := Apply(b, policy, step); b.ledger <= b'.ledger && EntriesOwned(b', |b.ledger|, TimeOf(step))
  {
    hide Place, TakeAll, FirstRefused, RestoreItems, RestoreEvents, RefundedQuantity;
    match step
    case DoCheckout(customer, key, lines, now) =>
      if TakeAll(b.stock, lines).Some? {
        PlaceOwns(b, customer, key, lines, TakeAll(b.stock, lines).value, now);
      }
    case DoPurchase(winner, key, lot, now) =>
      if TakeAll(b.stock, [LotLine(lot)]).Some? {
        PlaceOwns(b, winner, key, [LotLine(lot)], TakeAll(b.stock, [LotLine(lot)]).value, now);
      }
    case _ =>
  }

  // ---------------------------------------------------------------------
  // What a report over any window counts
  // ---------------------------------------------------------------------

  /** What the orders' own rows say, for one seller or for all. */
  function Figure(b: Books, side: Side, seller: Option<nat>): int {
    SumBy(BookedIn(side, SellerScope(seller)), b.sellerOrders)
  }

  /** By how much the steps of a window have changed it. */
  function ChangeWithin(
    b: Books, policy: Policy, trace: seq<Step>, side: Side, from: int, to: int, seller: Option<nat>): int
    decreases |trace|
  {
    if trace == [] then 0
    else
      var b' := Apply(b, policy, trace[0]);
      (if from <= TimeOf(trace[0]) < to then Figure(b', side, seller) - Figure(b, side, seller) else 0)
      + ChangeWithin(b', policy, trace[1..], side, from, to, seller)
  }

  lemma {:induction false} DatedEntries(
    ledger: seq<Entry>, n: nat, at: int, side: Side, from: int, to: int, seller: Option<nat>)
    requires n <= |ledger| && forall i | n <= i < |ledger| :: ledger[i].at == at
    ensures ReportSum(ledger, side, from, to, seller) - ReportSum(ledger[..n], side, from, to, seller)
         == if from <= at < to
            then LedgerSum(ledger, side, SellerScope(seller)) - LedgerSum(ledger[..n], side, SellerScope(seller)) else 0
  {
    if n < |ledger| {
      var init := ledger[..|ledger| - 1];
      assert init[..n] == ledger[..n];
      DatedEntries(init, n, at, side, from, to, seller);
    } else {
      assert ledger[..n] == ledger;
    }
  }

  /**
   A report over any window, for one seller or for all, is what the steps of that window have changed in the orders'
   own rows: sales at the time of sale, reversals at the time of the refund or cancellation.
   */
  lemma {:induction false} ReportCountsWindow(
    b: Books, policy: Policy, trace: seq<Step>, side: Side, from: int, to: int, seller: Option<nat>)
    requires LedgerAgrees(b, side, SellerScope(seller))
    ensures ReportSum(Run(b, policy, trace).ledger, side, from, to, seller)
         == ReportSum(b.ledger, side, from, to, seller) + ChangeWithin(b, policy, trace, side, from, to, seller)
    decreases |trace|
  {
    if trace != [] {
      var b' := Apply(b, policy, trace[0]);
      StepAgrees(b, policy, trace[0], side, SellerScope(seller));
      StepOwnsEntries(b, policy, trace[0]);
      DatedEntries(b'.ledger, |b.ledger|, TimeOf(trace[0]), side, from, to, seller);
      assert b'.ledger[..|b.ledger|] == b.ledger;
      hide Apply, ReportSum, LedgerSum, SumBy;
      ReportCountsWindow(b', policy, trace[1..], side, from, to, seller);
    }
  }
}
