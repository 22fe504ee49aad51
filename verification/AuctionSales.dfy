/**
 An auction's purchase and the order books' purchase are one transaction seen from two sides: the desk decides winner,
 status and window, the books write the order, its seller order and its ledger pair.
 */
module AuctionSales {
  import opened Results
  import opened Money
  import opened Auctions
  import B = OrderBooks
  import OrderHistories

  /** The lot the desk sells: its product at the current price, under the rate the desk reads as text. */
  function LotOf(d: Desk, product: nat, rate: nat): B.Lot
    requires d.auction.currentPrice >= 0
  {
    B.Lot(product, d.seller, rate, d.auction.currentPrice)
  }

  /** Both sides read the same product row and the same claim table. */
  predicate Agree(d: Desk, b: B.Books, product: nat, rate: nat) {
    && product in b.stock && b.stock[product] == d.stock
    && d.rate == FormatCentsToMoney(rate)
    && d.claims.Keys == b.claims.Keys
  }

  /** What the desk checks before any stock is touched. */
  predicate MayBuy(d: Desk, now: int, buyer: nat) {
    && d.auction.winner == Some(buyer) && d.auction.status.AwaitingPayment?
    && d.auction.windowEndsAt.Some? && now <= d.auction.windowEndsAt.value
  }

  lemma TakesOneUnit(stock: B.Stock, lot: B.Lot)
    requires lot.product in stock
    ensures B.TakeAll(stock, [B.LotLine(lot)])
         == if stock[lot.product] >= 1 then Some(stock[lot.product := stock[lot.product] - 1]) else None
  {
    var lines := [B.LotLine(lot)];
    assert lines[1..] == [];
  }

  lemma CommissionReads(d: Desk, rate: nat)
    requires d.auction.currentPrice >= 0 && d.rate == FormatCentsToMoney(rate)
    ensures ApplyPercent(d.auction.currentPrice, d.rate) == Ok(B.CommissionOn(d.auction.currentPrice, rate))
  {
    ParseUndoesFormat(rate);
  }

  /** The desk sells exactly when its own guards hold and the books would place the order. */
  lemma SellsIffPlaced(d: Desk, b: B.Books, product: nat, rate: nat, now: int, buyer: nat, key: string)
    requires Agree(d, b, product, rate) && d.auction.currentPrice >= 0
    ensures var lot := LotOf(d, product, rate);
            CheckoutOutcome(d, now, buyer, key) == Ok(Purchased(|d.orders|))
            <==> MayBuy(d, now, buyer) && B.PurchaseOutcome(b, buyer, key, lot) == Ok(B.Placed(|b.orders|))
  {
    TakesOneUnit(b.stock, LotOf(d, product, rate));
    CommissionReads(d, rate);
    hide B.TakeAll, ApplyPercent, B.CommissionOn, FormatCentsToMoney;
  }

  /**
   And then both write the same sale: one unit at the top bid, the same commission, and a ledger pair that leaves the
   seller's share the desk computes. Stock and claims agree again afterwards.
   */
  lemma SaleMatchesBooks(d: Desk, b: B.Books, product: nat, rate: nat, now: int, buyer: nat, key: string)
    requires Agree(d, b, product, rate) && d.auction.currentPrice >= 0
    requires CheckoutOutcome(d, now, buyer, key) == Ok(Purchased(|d.orders|))
    ensures var lot := LotOf(d, product, rate);
            var d', b' := Checkout(d, now, buyer, key), B.Purchase(b, buyer, key, lot, now);
            && |d'.orders| == |d.orders| + 1 && |b'.orders| == |b.orders| + 1
            && |b'.sellerOrders| == |b.sellerOrders| + 1
            && var sale, order, so := d'.orders[|d.orders|], b'.orders[|b.orders|], b'.sellerOrders[|b.sellerOrders|];
            && order.buyer == sale.buyer && order.key == sale.key && order.total == sale.total
            && so.order == |b.orders| && so.seller == d.seller && so.items == [B.Item(product, sale.total, 1)]
            && so.subtotal == sale.total && so.commission == sale.commission
            && b'.ledger == b.ledger
                            + [B.Entry(B.SaleCredit, sale.total, |b.sellerOrders|, d.seller, now),
                               B.Entry(B.CommissionDebit, sale.commission, |b.sellerOrders|, d.seller, now)]
            && sale.net == sale.total - sale.commission
            && Agree(d', b', product, rate)
  {
    var lot := LotOf(d, product, rate);
    SellsIffPlaced(d, b, product, rate, now, buyer, key);
    CommissionReads(d, rate);
    OrderHistories.PurchaseWrites(b, buyer, key, lot, now);
    hide B.TakeAll, ApplyPercent, B.CommissionOn, FormatCentsToMoney, B.Purchase, B.PurchaseOutcome;
  }
}
