/** What any sequence of refunds on one seller order adds up to. */
module RefundLaws {
  import opened Money
  import opened CartSplit
  import opened OrderBooks
  import opened BooksLaws
  import opened Conservation
  import opened OrderHistories

  function Amounts(refunds: seq<Refund>): seq<int> {
    if refunds == [] then [] else Amounts(refunds[..|refunds| - 1]) + [refunds[|refunds| - 1].amount]
  }

  lemma {:induction false} SumCentsSnoc(values: seq<int>, x: int)
    ensures SumCents(values + [x]) == SumCents(values) + x
  {
    if values != [] {
      SumCentsSnoc(values[1..], x);
      assert (values + [x])[1..] == values[1..] + [x];
    } else {
      assert [x][1..] == [] && values + [x] == [x];
    }
  }

  lemma {:induction false} CorrectionsSnoc(values: seq<int>, x: int, numerator: int, denominator: int)
    ensures Corrections(values + [x], numerator, denominator)
         == Corrections(values, numerator, denominator) + [ApplyRatio(x, numerator, denominator)]
  {
    hide ApplyRatio;
    if values != [] {
      CorrectionsSnoc(values[1..], x, numerator, denominator);
      assert (values + [x])[1..] == values[1..] + [x];
    } else {
      assert [x][1..] == [] && values + [x] == [x];
    }
  }

  /** The refunds' gross amounts and commission corrections, as sums over the split they make. */
  lemma {:induction false} RefundSums(so: SellerOrder, refunds: seq<Refund>)
    requires forall r | r in refunds :: RefundFits(r, so)
    ensures |Amounts(refunds)| == |refunds| && NonNegative(Amounts(refunds))
    ensures RefundSum(refunds, Earning) == SumCents(Amounts(refunds))
    ensures RefundSum(refunds, Commission) == SumCents(Corrections(Amounts(refunds), so.commission, so.subtotal))
  {
    hide ApplyRatio;
    if refunds != [] {
      var init, r := refunds[..|refunds| - 1], refunds[|refunds| - 1];
      RefundSums(so, init);
      assert RefundFits(r, so);
      SumCentsSnoc(Amounts(init), r.amount);
      CorrectionsSnoc(Amounts(init), r.amount, so.commission, so.subtotal);
      SumCentsSnoc(Corrections(Amounts(init), so.commission, so.subtotal), r.commission);
    }
  }

  /**
   n refunds on an order with subtotal S > 0 and commission C: S times the commission reversed differs from C times
   the gross refunded by the rounding residues, which lie within n half units of S.
   */
  lemma RefundDrift(so: SellerOrder)
    requires RefundsFit(so) && so.subtotal > 0 && so.commission >= 0
    ensures var residues := SumResidues(Amounts(so.refunds), so.commission, so.subtotal);
            so.subtotal * RefundSum(so.refunds, Commission) == so.commission * RefundSum(so.refunds, Earning) + residues
    ensures WithinHalfUnits(
              so.subtotal * RefundSum(so.refunds, Commission) - so.commission * RefundSum(so.refunds, Earning),
                            |so.refunds|, so.subtotal)
  {
    hide RefundFits, Amounts, SumResidues, Corrections, RefundSum;
    RefundSums(so, so.refunds);
    DriftOfSplit(Amounts(so.refunds), so.commission, so.subtotal);
    DriftIsBounded(Amounts(so.refunds), so.commission, so.subtotal);
  }

  /** Each correction is at most its refund, and nothing at all when the order was free. */
  lemma EachCorrectionWithin(so: SellerOrder, r: Refund)
    requires RefundFits(r, so) && 0 <= so.commission <= so.subtotal
    ensures 0 <= r.commission <= r.amount
    ensures so.subtotal == 0 ==> r.commission == 0
  {
    hide ApplyRatio;
    assert r.amount >= 0;
    RatioWithin(r.amount, so.commission, so.subtotal);
    if so.subtotal == 0 {
      FreeRatio(r.amount, so.commission);
    }
  }

  lemma FreeRatio(amount: int, numerator: int)
    ensures ApplyRatio(amount, numerator, 0) == 0
  {}

  /** One refund of the whole subtotal reverses exactly the commission charged. */
  lemma WholeRefundReversesCommission(so: SellerOrder, r: Refund)
    requires RefundFits(r, so) && so.subtotal > 0 && so.commission >= 0 && r.amount == so.subtotal
    ensures r.commission == so.commission
  {
    RatioOfWhole(so.commission, so.subtotal);
  }

  // ---------------------------------------------------------------------
  // Rows that runs reach
  // ---------------------------------------------------------------------

  /** Commission rates of at most 100%. */
  predicate RatesFit(step: Step) {
    && (step.DoCheckout? ==> forall l | l in step.lines :: l.rate <= 10_000)
    && (step.DoPurchase? ==> step.lot.rate <= 10_000)
  }

  predicate CommissionsFit(b: Books) {
    forall so | so in b.sellerOrders :: 0 <= so.commission <= so.subtotal
  }

  lemma {:induction false} AddingKeepsCommissions(b: Books, order: nat, groups: seq<Group>, now: int)
    requires CommissionsFit(b) && forall g | g in groups :: g.rate <= 10_000
    ensures CommissionsFit(AddSellerOrders(b, order, groups, now))
    decreases |groups|
  {
    if groups != [] {
      hide CommissionOn, TotalCents;
      CommissionSplitsSubtotal(order, groups[0]);
      AddingKeepsCommissions(AddSellerOrder(b, order, groups[0], now), order, groups[1..], now);
    }
  }

  lemma {:induction false} GroupRates(lines: seq<Line>)
    requires forall l | l in lines :: l.rate <= 10_000
    ensures forall g | g in Split(lines) :: g.rate <= 10_000
    decreases |lines|
  {
    if lines != [] {
      GroupRates(NotOfSeller(lines[1..], lines[0].seller));
    }
  }

  lemma PlaceKeepsCommissions(b: Books, customer: nat, key: string, lines: seq<Line>, stock: Stock, now: int)
    requires CommissionsFit(b) && forall l | l in lines :: l.rate <= 10_000
    ensures CommissionsFit(Place(b, customer, key, lines, stock, now))
  {
    GroupRates(lines);
    hide Split, TotalCents, AddSellerOrders;
    AddingKeepsCommissions(b.(stock := stock, orders := b.orders + [Order(customer, key, TotalCents(lines))]),
                           |b.orders|, Split(lines), now);
  }

  lemma StepKeepsCommissions(b: Books, policy: Policy, step: Step)
    requires CommissionsFit(b) && RatesFit(step)
    ensures CommissionsFit(Apply(b, policy, step))
  {
    hide Place, RestoreItems, RestoreEvents, TakeAll, FirstRefused, RefundedQuantity, ApplyRatio;
    var b' := Apply(b, policy, step);
    if step.DoCheckout? {
      if b' != b {
        PlaceKeepsCommissions(b, step.customer, step.claimKey, step.lines,
          TakeAll(b.stock, step.lines).value, step.placedAt);
      }
    } else if step.DoPurchase? {
      if b' != b {
        var lines := [LotLine(step.lot)];
        PlaceKeepsCommissions(b, step.winner, step.winKey, lines, TakeAll(b.stock, lines).value, step.boughtAt);
      }
    } else if step.id < |b.sellerOrders| && b' != b {
      var so := b.sellerOrders[step.id];
      assert so in b.sellerOrders;
      assert b'.sellerOrders[step.id].commission == so.commission && b'.sellerOrders[step.id].subtotal == so.subtotal;
    }
  }

  lemma {:induction false} RunKeepsCommissions(b: Books, policy: Policy, trace: seq<Step>)
    requires CommissionsFit(b) && forall step | step in trace :: RatesFit(step)
    ensures CommissionsFit(Run(b, policy, trace))
    decreases |trace|
  {
    if trace != [] {
      hide CommissionsFit, Apply, RatesFit;
      assert trace[0] in trace;
      StepKeepsCommissions(b, policy, trace[0]);
      RunKeepsCommissions(Apply(b, policy, trace[0]), policy, trace[1..]);
    }
  }

  /**
   In every state a run of the books can reach under rates of at most 100%: each correction of each order lies between
   nothing and its refund, and n refunds of a priced order drift by less than n half units down and at most n up.
   */
  lemma ReachableDrift(b: Books, policy: Policy, trace: seq<Step>, id: nat)
    requires IsFresh(b) && IsTrace(trace) && forall step | step in trace :: RatesFit(step)
    requires id < |Run(b, policy, trace).sellerOrders|
    ensures var so := Run(b, policy, trace).sellerOrders[id];
            && (forall r | r in so.refunds :: 0 <= r.commission <= r.amount)
            && (so.subtotal > 0 ==>
                  WithinHalfUnits(so.subtotal * RefundSum(so.refunds, Commission)
                                  - so.commission * RefundSum(so.refunds, Earning), |so.refunds|, so.subtotal))
  {
    RunFits(b, policy, trace);
    RunKeepsCommissions(b, policy, trace);
    var so := Run(b, policy, trace).sellerOrders[id];
    assert so in Run(b, policy, trace).sellerOrders;
    hide Run, RefundFits, ApplyRatio, RefundSum, WithinHalfUnits;
    forall r | r in so.refunds
      ensures 0 <= r.commission <= r.amount
    {
      EachCorrectionWithin(so, r);
    }
    if so.subtotal > 0 {
      RefundDrift(so);
    }
  }

  // ---------------------------------------------------------------------
  // Gross refunded, item by item
  // ---------------------------------------------------------------------

  /** The first n items' refunded units at their own prices. */
  function RefundedGross(items: seq<Item>, refunds: seq<Refund>, n: nat): nat
    requires n <= |items|
  {
    if n == 0 then 0
    else RefundedGross(items, refunds, n - 1) + items[n - 1].unitPrice * RefundedQuantity(refunds, n - 1)
  }

  function BoughtGross(items: seq<Item>, n: nat): nat
    requires n <= |items|
  {
    if n == 0 then 0 else BoughtGross(items, n - 1) + items[n - 1].unitPrice * items[n - 1].quantity
  }

  lemma {:induction false} BoughtGrossIsTotal(items: seq<Item>)
    ensures BoughtGross(items, |items|) == ItemsTotal(items)
  {
    if items != [] {
      BoughtGrossIsTotal(items[1..]);
      BoughtGrossShift(items, |items| - 1);
    }
  }

  lemma {:induction false} BoughtGrossShift(items: seq<Item>, n: nat)
    requires n < |items|
    ensures BoughtGross(items, n + 1) == items[0].unitPrice * items[0].quantity + BoughtGross(items[1..], n)
  {
    if n > 0 {
      BoughtGrossShift(items, n - 1);
    }
  }

  lemma {:induction false} NothingRefunded(items: seq<Item>, n: nat)
    requires n <= |items|
    ensures RefundedGross(items, [], n) == 0
  {
    if n > 0 {
      NothingRefunded(items, n - 1);
    }
  }

  lemma {:induction false} RefundedGrossSnoc(items: seq<Item>, refunds: seq<Refund>, r: Refund, n: nat)
    requires n <= |items|
    ensures RefundedGross(items, refunds + [r], n)
         == RefundedGross(items, refunds, n) + (if r.item < n then items[r.item].unitPrice * r.quantity else 0)
  {
    if n > 0 {
      RefundedGrossSnoc(items, refunds, r, n - 1);
      assert (refunds + [r])[..|refunds|] == refunds;
      if r.item == n - 1 {
        Distribute(items[n - 1].unitPrice, RefundedQuantity(refunds, n - 1), r.quantity);
      }
    }
  }

  lemma {:induction false} GrossByItem(so: SellerOrder, refunds: seq<Refund>)
    requires forall r | r in refunds :: RefundFits(r, so)
    ensures RefundSum(refunds, Earning) == RefundedGross(so.items, refunds, |so.items|)
  {
    hide ApplyRatio;
    if refunds == [] {
      NothingRefunded(so.items, |so.items|);
    } else {
      var init, r := refunds[..|refunds| - 1], refunds[|refunds| - 1];
      GrossByItem(so, init);
      assert RefundFits(r, so);
      RefundedGrossSnoc(so.items, init, r, |so.items|);
      assert init + [r] == refunds;
    }
  }

  predicate FullyRefunded(so: SellerOrder) {
    forall k: nat | k < |so.items| :: RefundedQuantity(so.refunds, k) == so.items[k].quantity
  }

  lemma {:induction false} GrossCap(so: SellerOrder, n: nat)
    requires RefundsFit(so) && n <= |so.items|
    ensures RefundedGross(so.items, so.refunds, n) <= BoughtGross(so.items, n)
    ensures FullyRefunded(so) ==> RefundedGross(so.items, so.refunds, n) == BoughtGross(so.items, n)
  {
    hide RefundFits;
    if n > 0 {
      GrossCap(so, n - 1);
      var bought, back := so.items[n - 1].quantity, RefundedQuantity(so.refunds, n - 1);
      assert back <= bought;
      Distribute(so.items[n - 1].unitPrice, back, bought - back);
      NonNegProduct(so.items[n - 1].unitPrice, bought - back);
    }
  }

  /** Refunds never exceed the subtotal, and refunding every unit, in any split, gives back exactly the subtotal. */
  lemma FullRefundIsSubtotal(so: SellerOrder)
    requires RefundsFit(so) && so.subtotal == ItemsTotal(so.items)
    ensures RefundSum(so.refunds, Earning) <= so.subtotal
    ensures FullyRefunded(so) ==> RefundSum(so.refunds, Earning) == so.subtotal
  {
    GrossByItem(so, so.refunds);
    GrossCap(so, |so.items|);
    BoughtGrossIsTotal(so.items);
  }

  /** A full refund reverses exactly the commission charged if and only if the rounding residues cancel. */
  lemma FullRefundDriftIff(so: SellerOrder)
    requires RefundsFit(so) && so.subtotal == ItemsTotal(so.items) && so.subtotal > 0 && so.commission >= 0
    requires FullyRefunded(so)
    ensures RefundSum(so.refunds, Commission) == so.commission
       <==> SumResidues(Amounts(so.refunds), so.commission, so.subtotal) == 0
  {
    hide RefundFits, Amounts, SumResidues, Corrections, RefundSum;
    FullRefundIsSubtotal(so);
    RefundSums(so, so.refunds);
    ZeroDriftIff(Amounts(so.refunds), so.commission, so.subtotal);
  }
}

/** The analytics sums over the ledger. */
module LedgerReports {
  import opened Results
  import opened OrderBooks
  import opened BooksLaws

  /** Entries created in [from, to), for one seller or for everyone. */
  predicate InReport(e: Entry, from: int, to: int, seller: Option<nat>) {
    from <= e.at < to && (seller.Some? ==> e.seller == seller.value)
  }

  function ReportSum(ledger: seq<Entry>, side: Side, from: int, to: int, seller: Option<nat>): int {
    if ledger == [] then 0
    else
      var e := ledger[|ledger| - 1];
      ReportSum(ledger[..|ledger| - 1], side, from, to, seller)
      + (if InReport(e, from, to, seller) then Sign(e.kind, side) * e.amount else 0)
  }

  function NetSum(ledger: seq<Entry>, from: int, to: int, seller: Option<nat>): int {
    if ledger == [] then 0
    else
      var e := ledger[|ledger| - 1];
      NetSum(ledger[..|ledger| - 1], from, to, seller)
        + (if InReport(e, from, to, seller) then NetSign(e.kind) * e.amount else 0)
  }

  /** Net is gross less commission, for any ledger, window and seller. */
  lemma {:induction false} NetIsGrossLessCommission(ledger: seq<Entry>, from: int, to: int, seller: Option<nat>)
    ensures NetSum(ledger, from, to, seller)
         == ReportSum(ledger, Earning, from, to, seller) - ReportSum(ledger, Commission, from, to, seller)
  {
    if ledger != [] {
      NetIsGrossLessCommission(ledger[..|ledger| - 1], from, to, seller);
    }
  }

  /** Adjacent half-open windows add up: no entry is lost or counted twice at the seam. */
  lemma {:induction false} WindowsAdd(ledger: seq<Entry>, side: Side, from: int, mid: int, to: int, seller: Option<nat>)
    requires from <= mid <= to
    ensures ReportSum(ledger, side, from, to, seller)
         == ReportSum(ledger, side, from, mid, seller) + ReportSum(ledger, side, mid, to, seller)
  {
    if ledger != [] {
      WindowsAdd(ledger[..|ledger| - 1], side, from, mid, to, seller);
    }
  }

  function SellerScope(seller: Option<nat>): Scope {
    (i: nat, s: nat) => seller.Some? ==> s == seller.value
  }

  lemma {:induction false} WholeWindow(ledger: seq<Entry>, side: Side, from: int, to: int, seller: Option<nat>)
    requires forall e | e in ledger :: from <= e.at < to
    ensures ReportSum(ledger, side, from, to, seller) == LedgerSum(ledger, side, SellerScope(seller))
  {
    if ledger != [] {
      assert ledger[|ledger| - 1] in ledger;
      WholeWindow(ledger[..|ledger| - 1], side, from, to, seller);
    }
  }

  /** A report over the whole life of the books, for any seller or for all, is the sum of what the orders' rows say. */
  lemma ReportMatchesOrders(
    b: Books, policy: Policy, trace: seq<Step>, side: Side, from: int, to: int, seller: Option<nat>)
    requires LedgerAgrees(b, side, SellerScope(seller))
    requires forall e | e in Run(b, policy, trace).ledger :: from <= e.at < to
    ensures var b' := Run(b, policy, trace);
            ReportSum(b'.ledger, side, from, to, seller) == SumBy(BookedIn(side, SellerScope(seller)), b'.sellerOrders)
  {
    hide Run;
    RunAgrees(b, policy, trace, side, SellerScope(seller));
    WholeWindow(Run(b, policy, trace).ledger, side, from, to, seller);
  }
}
