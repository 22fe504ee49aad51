/**
 Which orders can be refunded in parts without drift: a
 condition on the order's own row, checked before any refund.
 */
module RefundSplits {
  import opened Results
  import opened Money
  import opened CartSplit
  import opened OrderBooks
  import opened BooksLaws
  import opened Conservation
  import opened RefundLaws

  // ---------------------------------------------------------------------
  // The condition
  // ---------------------------------------------------------------------

  /** A way of refunding every unit of an order. */
  predicate IsSplit(so: SellerOrder, refunds: seq<Refund>) {
    RefundsFit(so.(refunds := refunds)) && FullyRefunded(so.(refunds := refunds))
  }

  /** However every unit is refunded, exactly the commission charged is reversed. */
  ghost predicate NeverDrifts(so: SellerOrder) {
    forall refunds | IsSplit(so, refunds) :: RefundSum(refunds, Commission) == so.commission
  }

  /** Rounding error of one unit of item k, in units of 1/subtotal of a cent. */
  function UnitResidue(so: SellerOrder, k: nat): int
    requires so.subtotal > 0 && k < |so.items|
  {
    Residue(so.items[k].unitPrice, so.commission, so.subtotal)
  }

  function ItemResidues(so: SellerOrder, n: nat): int
    requires so.subtotal > 0 && n <= |so.items|
  {
    if n == 0 then 0 else ItemResidues(so, n - 1) + so.items[n - 1].quantity * UnitResidue(so, n - 1)
  }

  /**
   One unit's rounding error, times the units bought, stays within half a cent for each item, and over the whole
   order these errors cancel. A free order has no commission to reverse.
   */
  predicate IsDriftFree(so: SellerOrder) {
    if so.subtotal == 0 then so.commission == 0
    else
      && (forall k: nat | k < |so.items| ::
            0 - so.subtotal < 2 * (so.items[k].quantity * UnitResidue(so, k)) <= so.subtotal)
      && ItemResidues(so, |so.items|) == 0
  }

  // ---------------------------------------------------------------------
  // Corrections that add up
  // ---------------------------------------------------------------------

  function UnitCorrection(so: SellerOrder, k: nat): int
    requires k < |so.items|
  {
    ApplyRatio(so.items[k].unitPrice, so.commission, so.subtotal)
  }

  /** q units of item k are corrected by q times one unit's correction. */
  predicate AddsUp(so: SellerOrder, k: nat, q: nat)
    requires k < |so.items|
  {
    ApplyRatio(so.items[k].unitPrice * q, so.commission, so.subtotal) == q * UnitCorrection(so, k)
  }

  lemma Triple(q: int, s: int, u: int, c: int, p: int, r: int)
    requires s * u == c * p + r
    ensures s * (q * u) - p * q * c == q * r
  {
    assert q * (s * u) == q * (c * p) + q * r;
    assert q * (s * u) == s * (q * u) && q * (c * p) == p * q * c;
  }

  /** Corrections of q units add up exactly when q unit errors stay within half a cent. */
  lemma AddsUpIff(so: SellerOrder, k: nat, q: nat)
    requires so.subtotal > 0 && so.commission >= 0 && k < |so.items|
    ensures AddsUp(so, k, q) <==> 0 - so.subtotal < 2 * (q * UnitResidue(so, k)) <= so.subtotal
  {
    var p, c, s := so.items[k].unitPrice, so.commission, so.subtotal;
    RatioResidue(p, c, s);
    hide ApplyRatio, Residue;
    Triple(q, s, UnitCorrection(so, k), c, p, UnitResidue(so, k));
    NonNegProduct(p, q);
    NonNegProduct(p * q, c);
    RoundHalfUpIsNearest(p * q * c, s, q * UnitCorrection(so, k));
    RatioOf(p * q, c, s);
  }

  lemma RatioOf(amount: int, numerator: int, denominator: int)
    requires denominator > 0
    ensures ApplyRatio(amount, numerator, denominator) == RoundHalfUpDivide(amount * numerator, denominator)
  {}

  lemma Within(q: nat, most: nat, r: int, s: int)
    requires q <= most && s > 0 && -s < 2 * (most * r) <= s
    ensures -s < 2 * (q * r) <= s
  {
    if r >= 0 {
      NonNegProduct(most - q, r);
      NonNegProduct(q, r);
    } else {
      NonNegProduct(most - q, -r);
      NonNegProduct(q, -r);
    }
    assert most * r == q * r + (most - q) * r;
  }

  lemma DriftFreeAddsUp(so: SellerOrder, k: nat, q: nat)
    requires IsDriftFree(so) && so.commission >= 0 && k < |so.items| && q <= so.items[k].quantity
    ensures AddsUp(so, k, q)
  {
    if so.subtotal > 0 {
      hide ApplyRatio, Residue;
      Within(q, so.items[k].quantity, UnitResidue(so, k), so.subtotal);
      AddsUpIff(so, k, q);
    } else {
      FreeRatio(so.items[k].unitPrice * q, so.commission);
      FreeRatio(so.items[k].unitPrice, so.commission);
    }
  }

  // ---------------------------------------------------------------------
  // No drift in any split
  // ---------------------------------------------------------------------

  /** The first n items' refunded units at their unit corrections. */
  function CorrectedBy(so: SellerOrder, refunds: seq<Refund>, n: nat): int
    requires n <= |so.items|
  {
    if n == 0 then 0 else CorrectedBy(so, refunds, n - 1) + RefundedQuantity(refunds, n - 1) * UnitCorrection(so, n - 1)
  }

  /** The first n items' bought units at their unit corrections. */
  function UnitByUnit(so: SellerOrder, n: nat): int
    requires n <= |so.items|
  {
    if n == 0 then 0 else UnitByUnit(so, n - 1) + so.items[n - 1].quantity * UnitCorrection(so, n - 1)
  }

  lemma {:induction false} CorrectedByNothing(so: SellerOrder, n: nat)
    requires n <= |so.items|
    ensures CorrectedBy(so, [], n) == 0
  {
    hide UnitCorrection;
    if n > 0 {
      CorrectedByNothing(so, n - 1);
    }
  }

  lemma {:induction false} CorrectedBySnoc(so: SellerOrder, refunds: seq<Refund>, r: Refund, n: nat)
    requires n <= |so.items| && r.item < |so.items|
    ensures CorrectedBy(so, refunds + [r], n)
         == CorrectedBy(so, refunds, n) + (if r.item < n then r.quantity * UnitCorrection(so, r.item) else 0)
  {
    hide UnitCorrection, RefundFor;
    if n > 0 {
      CorrectedBySnoc(so, refunds, r, n - 1);
      assert (refunds + [r])[..|refunds|] == refunds;
      if r.item == n - 1 {
        Distribute(UnitCorrection(so, n - 1), RefundedQuantity(refunds, n - 1), r.quantity);
      }
    }
  }

  lemma {:induction false} CorrectedByAll(so: SellerOrder, refunds: seq<Refund>, n: nat)
    requires FullyRefunded(so.(refunds := refunds)) && n <= |so.items|
    ensures CorrectedBy(so, refunds, n) == UnitByUnit(so, n)
  {
    hide UnitCorrection;
    if n > 0 {
      CorrectedByAll(so, refunds, n - 1);
    }
  }

  predicate WithinBought(so: SellerOrder, refunds: seq<Refund>) {
    forall k: nat | k < |so.items| :: RefundedQuantity(refunds, k) <= so.items[k].quantity
  }

  /** In a drift-free order any refunds correct what their units do. */
  lemma {:induction false} RefundsCorrectUnits(so: SellerOrder, refunds: seq<Refund>)
    requires IsDriftFree(so) && so.commission >= 0
    requires (forall r | r in refunds :: RefundFits(r, so)) && WithinBought(so, refunds)
    ensures RefundSum(refunds, Commission) == CorrectedBy(so, refunds, |so.items|)
  {
    hide IsDriftFree, UnitCorrection, ApplyRatio;
    if refunds == [] {
      CorrectedByNothing(so, |so.items|);
    } else {
      var init, r := refunds[..|refunds| - 1], refunds[|refunds| - 1];
      assert RefundFits(r, so);
      assert r.quantity <= RefundedQuantity(refunds, r.item);
      RefundsCorrectUnits(so, init);
      DriftFreeAddsUp(so, r.item, r.quantity);
      CorrectedBySnoc(so, init, r, |so.items|);
      assert init + [r] == refunds;
    }
  }

  /** Unit corrections and unit errors make up the commission's share of the gross. */
  lemma {:induction false} UnitsShareCommission(so: SellerOrder, n: nat)
    requires so.subtotal > 0 && so.commission >= 0 && n <= |so.items|
    ensures so.subtotal * UnitByUnit(so, n) == so.commission * BoughtGross(so.items, n) + ItemResidues(so, n)
  {
    if n > 0 {
      UnitsShareCommission(so, n - 1);
      var it := so.items[n - 1];
      RatioResidue(it.unitPrice, so.commission, so.subtotal);
      hide ApplyRatio, Residue;
      Triple(it.quantity, so.subtotal, UnitCorrection(so, n - 1), so.commission, it.unitPrice, UnitResidue(so, n - 1));
      Distribute(so.subtotal, UnitByUnit(so, n - 1), it.quantity * UnitCorrection(so, n - 1));
      Distribute(so.commission, BoughtGross(so.items, n - 1), it.unitPrice * it.quantity);
    }
  }

  lemma FreeUnits(so: SellerOrder, n: nat)
    requires so.subtotal == 0 && n <= |so.items|
    ensures UnitByUnit(so, n) == 0
  {
    if n > 0 {
      FreeUnits(so, n - 1);
    }
  }

  /** Unit errors cancel exactly when refunding unit by unit reverses the commission. */
  lemma UnitsMakeCommissionIff(so: SellerOrder)
    requires so.subtotal == ItemsTotal(so.items) && so.subtotal > 0 && so.commission >= 0
    ensures UnitByUnit(so, |so.items|) == so.commission <==> ItemResidues(so, |so.items|) == 0
  {
    hide UnitByUnit, ItemResidues;
    UnitsShareCommission(so, |so.items|);
    BoughtGrossIsTotal(so.items);
    var total := UnitByUnit(so, |so.items|);
    NoSmallMultiple(so.subtotal, total - so.commission);
    Distribute(so.subtotal, so.commission, total - so.commission);
  }

  lemma DriftFreeNeverDrifts(so: SellerOrder)
    requires so.subtotal == ItemsTotal(so.items) && so.commission >= 0 && IsDriftFree(so)
    ensures NeverDrifts(so)
  {
    forall refunds | IsSplit(so, refunds)
      ensures RefundSum(refunds, Commission) == so.commission
    {
      hide UnitByUnit, ApplyRatio;
      assert forall r | r in refunds && RefundFits(r, so.(refunds := refunds)) :: RefundFits(r, so);
      RefundsCorrectUnits(so, refunds);
      CorrectedByAll(so, refunds, |so.items|);
      if so.subtotal > 0 {
        UnitsMakeCommissionIff(so);
      } else {
        FreeUnits(so, |so.items|);
      }
    }
  }

  // ---------------------------------------------------------------------
  // The splits that show it
  // ---------------------------------------------------------------------

  /** A key for each position; lengths tell them apart. */
  function KeyAt(i: nat): string {
    seq(i, _ => 'r')
  }

  function AddRefund(so: SellerOrder, refunds: seq<Refund>, item: nat, quantity: nat): seq<Refund>
    requires item < |so.items|
  {
    refunds + [RefundFor(so, item, quantity, KeyAt(|refunds|))]
  }

  function AddUnits(so: SellerOrder, refunds: seq<Refund>, item: nat, n: nat): seq<Refund>
    requires item < |so.items|
  {
    if n == 0 then refunds else AddRefund(so, AddUnits(so, refunds, item, n - 1), item, 1)
  }

  /** The first n items refunded in full: item `whole` in one refund, every other unit by unit. */
  function SplitOf(so: SellerOrder, whole: nat, n: nat): seq<Refund>
    requires n <= |so.items|
  {
    if n == 0 then []
    else
      var before, quantity := SplitOf(so, whole, n - 1), so.items[n - 1].quantity;
      if n - 1 == whole && quantity > 0 then AddRefund(so, before, whole, quantity)
      else AddUnits(so, before, n - 1, quantity)
  }

  lemma RefundAdds(so: SellerOrder, refunds: seq<Refund>, item: nat, quantity: nat)
    requires item < |so.items| && quantity >= 1
    requires (forall r | r in refunds :: RefundFits(r, so)) && (forall i | 0 <= i < |refunds| :: |refunds[i].key| == i)
    ensures var more := AddRefund(so, refunds, item, quantity);
            && (forall r | r in more :: RefundFits(r, so)) && (forall i | 0 <= i < |more| :: |more[i].key| == i)
            && (forall k: nat ::
                  RefundedQuantity(more, k) == RefundedQuantity(refunds, k) + (if k == item then quantity else 0))
            && RefundSum(more, Commission) == RefundSum(refunds, Commission)
                 + ApplyRatio(so.items[item].unitPrice * quantity, so.commission, so.subtotal)
  {
    hide ApplyRatio;
    var more := AddRefund(so, refunds, item, quantity);
    assert more[..|refunds|] == refunds;
  }

  lemma {:induction false} UnitsAdd(so: SellerOrder, refunds: seq<Refund>, item: nat, n: nat)
    requires item < |so.items|
    requires (forall r | r in refunds :: RefundFits(r, so)) && (forall i | 0 <= i < |refunds| :: |refunds[i].key| == i)
    ensures var more := AddUnits(so, refunds, item, n);
            && (forall r | r in more :: RefundFits(r, so)) && (forall i | 0 <= i < |more| :: |more[i].key| == i)
            && (forall k: nat ::
                  RefundedQuantity(more, k) == RefundedQuantity(refunds, k) + (if k == item then n else 0))
            && RefundSum(more, Commission) == RefundSum(refunds, Commission) + n * UnitCorrection(so, item)
  {
    hide ApplyRatio, RefundFits, AddRefund, RefundSum, RefundedQuantity;
    if n > 0 {
      UnitsAdd(so, refunds, item, n - 1);
      RefundAdds(so, AddUnits(so, refunds, item, n - 1), item, 1);
      assert so.items[item].unitPrice * 1 == so.items[item].unitPrice;
    }
  }

  /** What SplitOf corrects. */
  function SplitCorrects(so: SellerOrder, whole: nat, n: nat): int
    requires n <= |so.items|
  {
    if n == 0 then 0
    else
      var it := so.items[n - 1];
      SplitCorrects(so, whole, n - 1)
      + (if n - 1 == whole && it.quantity > 0 then ApplyRatio(it.unitPrice * it.quantity, so.commission, so.subtotal)
         else it.quantity * UnitCorrection(so, n - 1))
  }

  lemma {:induction false} SplitIsPartial(so: SellerOrder, whole: nat, n: nat)
    requires n <= |so.items|
    ensures var refunds := SplitOf(so, whole, n);
            && (forall r | r in refunds :: RefundFits(r, so))
            && (forall i | 0 <= i < |refunds| :: |refunds[i].key| == i)
            && (forall k: nat | k < |so.items| ::
                  RefundedQuantity(refunds, k) == if k < n then so.items[k].quantity else 0)
            && RefundSum(refunds, Commission) == SplitCorrects(so, whole, n)
  {
    hide ApplyRatio, RefundFits, AddRefund, AddUnits, UnitCorrection;
    if n > 0 {
      SplitIsPartial(so, whole, n - 1);
      var before, quantity := SplitOf(so, whole, n - 1), so.items[n - 1].quantity;
      if n - 1 == whole && quantity > 0 {
        RefundAdds(so, before, whole, quantity);
      } else {
        UnitsAdd(so, before, n - 1, quantity);
      }
    }
  }

  lemma SplitIsSplit(so: SellerOrder, whole: nat)
    ensures IsSplit(so, SplitOf(so, whole, |so.items|))
    ensures RefundSum(SplitOf(so, whole, |so.items|), Commission) == SplitCorrects(so, whole, |so.items|)
  {
    hide ApplyRatio, SplitOf, SplitCorrects;
    var refunds := SplitOf(so, whole, |so.items|);
    SplitIsPartial(so, whole, |so.items|);
    var full := so.(refunds := refunds);
    assert forall r | RefundFits(r, so) :: RefundFits(r, full);
    forall i, j | 0 <= i < j < |refunds|
      ensures refunds[i].key != refunds[j].key
    {
      assert |refunds[i].key| == i && |refunds[j].key| == j;
    }
  }

  /** With no item refunded whole, or one, against all of them unit by unit. */
  lemma {:induction false} SplitAgainstUnits(so: SellerOrder, whole: nat, n: nat)
    requires n <= |so.items|
    ensures whole >= n ==> SplitCorrects(so, whole, n) == UnitByUnit(so, n)
    ensures whole < n && so.items[whole].quantity > 0 ==>
              SplitCorrects(so, whole, n) - UnitByUnit(so, n)
                == ApplyRatio(so.items[whole].unitPrice * so.items[whole].quantity, so.commission, so.subtotal)
                   - so.items[whole].quantity * UnitCorrection(so, whole)
  {
    hide ApplyRatio, UnitCorrection;
    if n > 0 {
      SplitAgainstUnits(so, whole, n - 1);
    }
  }

  lemma NeverDriftsMakesCommission(so: SellerOrder)
    requires NeverDrifts(so)
    ensures UnitByUnit(so, |so.items|) == so.commission
  {
    hide SplitOf, SplitCorrects, UnitByUnit, IsSplit;
    SplitIsSplit(so, |so.items|);
    SplitAgainstUnits(so, |so.items|, |so.items|);
  }

  lemma NeverDriftsAddsUp(so: SellerOrder, k: nat)
    requires NeverDrifts(so) && k < |so.items|
    ensures AddsUp(so, k, so.items[k].quantity)
  {
    if so.items[k].quantity == 0 {
      assert so.items[k].unitPrice * 0 == 0;
    } else {
      hide SplitOf, SplitCorrects, UnitByUnit, IsSplit, ApplyRatio, UnitCorrection;
      NeverDriftsMakesCommission(so);
      SplitIsSplit(so, k);
      SplitAgainstUnits(so, k, |so.items|);
    }
  }

  lemma NeverDriftsIsDriftFree(so: SellerOrder)
    requires so.subtotal == ItemsTotal(so.items) && so.commission >= 0 && NeverDrifts(so)
    ensures IsDriftFree(so)
  {
    hide NeverDrifts, UnitByUnit, ItemResidues, UnitResidue, AddsUp;
    NeverDriftsMakesCommission(so);
    if so.subtotal > 0 {
      forall k: nat | k < |so.items|
        ensures 0 - so.subtotal < 2 * (so.items[k].quantity * UnitResidue(so, k)) <= so.subtotal
      {
        NeverDriftsAddsUp(so, k);
        AddsUpIff(so, k, so.items[k].quantity);
      }
      UnitsMakeCommissionIff(so);
    } else {
      FreeUnits(so, |so.items|);
    }
  }

  /**
   Every way of refunding an order in full reverses exactly its commission if and only if the order is drift-free, a
   condition on the row that can be checked before the first refund.
   */
  lemma NeverDriftsIff(so: SellerOrder)
    requires so.subtotal == ItemsTotal(so.items) && so.commission >= 0
    ensures NeverDrifts(so) <==> IsDriftFree(so)
  {
    hide NeverDrifts, IsDriftFree;
    if IsDriftFree(so) {
      DriftFreeNeverDrifts(so);
    }
    if NeverDrifts(so) {
      NeverDriftsIsDriftFree(so);
    }
  }

  // ---------------------------------------------------------------------
  // Splits as runs of the books
  // ---------------------------------------------------------------------

  function RefundSteps(id: nat, refunds: seq<Refund>, now: int): seq<Step> {
    if refunds == [] then []
    else
      var r := refunds[|refunds| - 1];
      RefundSteps(id, refunds[..|refunds| - 1], now) + [DoRefund(id, r.item, r.quantity, r.key, now)]
  }

  lemma PrefixFits(so: SellerOrder, refunds: seq<Refund>)
    requires RefundsFit(so.(refunds := refunds)) && refunds != []
    ensures var init, r := refunds[..|refunds| - 1], refunds[|refunds| - 1];
            && RefundsFit(so.(refunds := init)) && RefundFits(r, so) && FindRefund(init, r.key) == |init|
            && r.quantity <= so.items[r.item].quantity - RefundedQuantity(init, r.item)
  {
    hide ApplyRatio;
    var init, r := refunds[..|refunds| - 1], refunds[|refunds| - 1];
    var full, less := so.(refunds := refunds), so.(refunds := init);
    assert forall x | x in init :: x in refunds;
    assert forall x | RefundFits(x, full) :: RefundFits(x, less) && RefundFits(x, so);
    assert forall k: nat :: RefundedQuantity(init, k) <= RefundedQuantity(refunds, k);
  }

  /** The next refund is accepted and appended as it stands. */
  lemma NextRefund(b: Books, policy: Policy, id: nat, so: SellerOrder, refunds: seq<Refund>, now: int)
    requires RefundsFit(so.(refunds := refunds)) && refunds != [] && so.status in policy.refundable
    requires id < |b.sellerOrders| && b.sellerOrders[id] == so.(refunds := refunds[..|refunds| - 1])
    ensures var r := refunds[|refunds| - 1];
            CreateRefund(b, policy, id, r.item, r.quantity, r.key, now).sellerOrders
              == b.sellerOrders[id := so.(refunds := refunds)]
  {
    PrefixFits(so, refunds);
    hide ApplyRatio, RefundsFit, RefundedQuantity;
    var init, r := refunds[..|refunds| - 1], refunds[|refunds| - 1];
    assert RefundFor(b.sellerOrders[id], r.item, r.quantity, r.key) == r;
    assert init + [r] == refunds;
  }

  /** Refunds that fit a refundable order can be asked for one after another, and each is made as it stands. */
  lemma {:induction false} RefundsAreARun(
    b: Books, policy: Policy, id: nat, so: SellerOrder, refunds: seq<Refund>, now: int)
    requires RefundsFit(so.(refunds := refunds)) && so.status in policy.refundable
    requires id < |b.sellerOrders| && b.sellerOrders[id] == so.(refunds := [])
    ensures IsTrace(RefundSteps(id, refunds, now))
    ensures Run(b, policy, RefundSteps(id, refunds, now)).sellerOrders == b.sellerOrders[id := so.(refunds := refunds)]
    decreases |refunds|
  {
    if refunds != [] {
      var init, r := refunds[..|refunds| - 1], refunds[|refunds| - 1];
      PrefixFits(so, refunds);
      hide Run, RefundsFit, CreateRefund;
      RefundsAreARun(b, policy, id, so, init, now);
      var step := DoRefund(id, r.item, r.quantity, r.key, now);
      var before := Run(b, policy, RefundSteps(id, init, now));
      RunConcat(b, policy, RefundSteps(id, init, now), [step]);
      RunOne(before, policy, step);
      NextRefund(before, policy, id, so, refunds, now);
    }
  }

  /**
   Seen from the ledger: for an order not refunded yet, every run of refunds that returns all its units reverses
   exactly its commission if and only if the order is drift-free.
   */
  lemma RefundRunsNeverDriftIff(b: Books, policy: Policy, id: nat, now: int)
    requires LedgerAgrees(b, CommissionReversed, OnlyRow(id)) && id < |b.sellerOrders|
    requires var so := b.sellerOrders[id];
             so.refunds == [] && so.status in policy.refundable && !so.status.Cancelled?
             && so.subtotal == ItemsTotal(so.items) && so.commission >= 0
    ensures var so := b.sellerOrders[id];
            IsDriftFree(so)
            <==> forall refunds | IsSplit(so, refunds) ::
                   LedgerSum(Run(b, policy, RefundSteps(id, refunds, now)).ledger, CommissionReversed, OnlyRow(id))
                     == so.commission
  {
    var so := b.sellerOrders[id];
    forall refunds | IsSplit(so, refunds)
      ensures LedgerSum(Run(b, policy, RefundSteps(id, refunds, now)).ledger, CommissionReversed, OnlyRow(id))
           == RefundSum(refunds, Commission)
    {
      RefundsAreARun(b, policy, id, so, refunds, now);
      RunAgrees(b, policy, RefundSteps(id, refunds, now), CommissionReversed, OnlyRow(id));
      SumOfOneRow(b.sellerOrders[id := so.(refunds := refunds)], id, CommissionReversed);
      SameRefundSum(refunds);
    }
    hide IsDriftFree, IsSplit, LedgerSum, Run;
    NeverDriftsIff(so);
  }

  /** The same of every order a run of the books can reach, under rates of at most 100%, before its first refund. */
  lemma ReachableNeverDriftIff(b: Books, policy: Policy, trace: seq<Step>, id: nat, now: int)
    requires IsFresh(b) && IsTrace(trace) && forall step | step in trace :: RatesFit(step)
    requires id < |Run(b, policy, trace).sellerOrders|
    requires var so := Run(b, policy, trace).sellerOrders[id];
             so.refunds == [] && so.status in policy.refundable && !so.status.Cancelled?
    ensures var reached := Run(b, policy, trace); var so := reached.sellerOrders[id];
            IsDriftFree(so)
            <==> forall refunds | IsSplit(so, refunds) ::
                   LedgerSum(
                     Run(reached, policy, RefundSteps(id, refunds, now)).ledger, CommissionReversed, OnlyRow(id))
                     == so.commission
  {
    RunFits(b, policy, trace);
    RunKeepsCommissions(b, policy, trace);
    RunAgrees(b, policy, trace, CommissionReversed, OnlyRow(id));
    var reached := Run(b, policy, trace);
    assert reached.sellerOrders[id] in reached.sellerOrders;
    hide Run, IsDriftFree, IsSplit, LedgerSum;
    RefundRunsNeverDriftIff(reached, policy, id, now);
  }

  // ---------------------------------------------------------------------
  // Three units at five cents
  // ---------------------------------------------------------------------

  const FIVES := Line(0, 0, 1000, Some(5), true, true, 3)
  const FIVES_SOLD := SellerOrder(0, 0, [Item(0, 5, 3)], 15, 2, AwaitingFulfillment, [])
  const FIVES_STOCKED := Books(map[0 := 3], [], [], [], [], map[], {})
  const FIVES_SALE: seq<Step> := [DoCheckout(0, "sale", [FIVES], 0), DoUpdateStatus(0, Processing)]

  function UnitRefunds(): seq<Refund> {
    SplitOf(FIVES_SOLD, 1, 1)
  }

  lemma FivesSold()
    ensures Run(FIVES_STOCKED, SOURCE_POLICY, FIVES_SALE).sellerOrders == [FIVES_SOLD.(status := Processing)]
    ensures IsTrace(FIVES_SALE)
  {
    CommissionIs(15, 1000);
    OneLineSells(FIVES_STOCKED.stock, FIVES);
    hide Checkout, CommissionOn;
    assert Stocked(FIVES_STOCKED.stock) == FIVES_STOCKED && SoldLine(FIVES) == FIVES_SOLD;
    var b1 := Checkout(FIVES_STOCKED, 0, "sale", [FIVES], 0);
    assert UpdateStatus(b1, 0, Processing).sellerOrders == [FIVES_SOLD.(status := Processing)];
    hide UpdateStatus;
    RunConcat(FIVES_STOCKED, SOURCE_POLICY, [FIVES_SALE[0]], [FIVES_SALE[1]]);
    RunOne(FIVES_STOCKED, SOURCE_POLICY, FIVES_SALE[0]);
    RunOne(b1, SOURCE_POLICY, FIVES_SALE[1]);
    assert FIVES_SALE == [FIVES_SALE[0]] + [FIVES_SALE[1]];
  }

  /**
   From an empty marketplace: sell three units at 5 cents with 2 cents commission, refund them one by one. The ledger
   then reverses 3 cents of commission, one more than was charged.
   */
  lemma FivesDrift()
    ensures !IsDriftFree(FIVES_SOLD) && IsFresh(FIVES_STOCKED)
    ensures var trace := FIVES_SALE + RefundSteps(0, UnitRefunds(), 0);
            var b := Run(FIVES_STOCKED, SOURCE_POLICY, trace);
            && IsTrace(trace) && |b.sellerOrders| == 1 && FullyRefunded(b.sellerOrders[0])
            && LedgerSum(b.ledger, EarningReversed, OnlyRow(0)) == 15 == b.sellerOrders[0].subtotal
            && LedgerSum(b.ledger, CommissionReversed, OnlyRow(0)) == 3 && b.sellerOrders[0].commission == 2
  {
    var so, refunds := FIVES_SOLD.(status := Processing), UnitRefunds();
    assert 2 * (3 * UnitResidue(FIVES_SOLD, 0)) == 30;
    FivesSold();
    FivesSplit();
    hide UnitRefunds, IsDriftFree, Run, RefundSteps;
    var b0 := Run(FIVES_STOCKED, SOURCE_POLICY, FIVES_SALE);
    RefundsAreARun(b0, SOURCE_POLICY, 0, so, refunds, 0);
    var trace := FIVES_SALE + RefundSteps(0, refunds, 0);
    RunConcat(FIVES_STOCKED, SOURCE_POLICY, FIVES_SALE, RefundSteps(0, refunds, 0));
    RunAgrees(FIVES_STOCKED, SOURCE_POLICY, trace, EarningReversed, OnlyRow(0));
    RunAgrees(FIVES_STOCKED, SOURCE_POLICY, trace, CommissionReversed, OnlyRow(0));
    SumOfOneRow([so.(refunds := refunds)], 0, EarningReversed);
    SumOfOneRow([so.(refunds := refunds)], 0, CommissionReversed);
    SameRefundSum(refunds);
  }

  lemma FivesSplit()
    ensures var so := FIVES_SOLD.(status := Processing, refunds := UnitRefunds());
            && RefundsFit(so) && FullyRefunded(so)
            && RefundSum(so.refunds, Earning) == 15 && RefundSum(so.refunds, Commission) == 3
  {
    SplitIsSplit(FIVES_SOLD, 1);
    SplitAgainstUnits(FIVES_SOLD, 1, 1);
    assert UnitCorrection(FIVES_SOLD, 0) == 1;
    assert UnitByUnit(FIVES_SOLD, 0) == 0 && UnitByUnit(FIVES_SOLD, 1) == 3;
    hide UnitRefunds, SplitOf, ApplyRatio;
    var full := FIVES_SOLD.(refunds := UnitRefunds());
    FullRefundIsSubtotal(full);
    RefundsFitAnyStatus(full, Processing);
  }
}
