/** What each auction operation accepts and writes, column by column, and that a seller never trades with itself. */
module AuctionSteps {
  import opened Results
  import opened Money
  import opened Auctions
  import R = Reconciliation

  predicate IsOpen(a: Auction) {
    a.status.Scheduled? || a.status.Active?
  }

  // ---------------------------------------------------------------------
  // Bids
  // ---------------------------------------------------------------------

  predicate IsFreshBid(d: Desk, bidder: nat, key: string) {
    forall b | b in d.bids :: b.bidder != bidder || b.key != key
  }

  /** The start price, or the last bid and one increment. */
  function LeastBid(d: Desk): int {
    if d.bids == [] then d.auction.startPrice else d.bids[|d.bids| - 1].amount + d.auction.increment
  }

  /** A bid under a new key: the window, then the seller's own bid, then the amount decide, in this order. */
  lemma BidDecides(
    d: Desk, clock: int, windowMs: int, initialStock: nat, now: int, bidder: nat, key: string, amount: string)
    requires Inv(d, clock, windowMs, initialStock) && IsPriceText(amount) && IsFreshBid(d, bidder, key)
    ensures var cents := PriceCents(amount);
            BidOutcome(d, now, bidder, key, amount)
            == if !IsOpen(d.auction) || now < d.auction.startsAt || now >= d.auction.endsAt then Err(NotOpen)
               else if bidder == d.seller then Err(OwnAuction)
               else if cents < LeastBid(d) then Err(TooLow(LeastBid(d)))
               else Ok(Bid(|d.bids|, bidder, cents, key, now))
  {
    hide PriceCents, IsPriceText, FormatCentsToMoney, ParseMoneyToCents;
  }

  /** An accepted bid leads; a scheduled auction starts with it; nothing else changes. */
  lemma BidWrites(d: Desk, now: int, bidder: nat, key: string, amount: string)
    requires IsPriceText(amount) && IsFreshBid(d, bidder, key)
    ensures var outcome, d' := BidOutcome(d, now, bidder, key, amount), PlaceBid(d, now, bidder, key, amount);
            if outcome.Err? then d' == d
            else
              var a, a' := d.auction, d'.auction;
              && d'.bids == d.bids + [outcome.value] && a'.currentPrice == PriceCents(amount)
              && a'.winner == Some(bidder) && a'.winningBid == Some(|d.bids|) && a'.status.Active?
              && a' == a.(status := a'.status, currentPrice := a'.currentPrice, winner := a'.winner,
                          winningBid := a'.winningBid)
              && d' == d.(auction := a', bids := d'.bids, outbox := d'.outbox)
              && d'.outbox == d.outbox + (if a.status.Scheduled? then [AuctionStarted] else [])
                              + [BidPlaced(Bid(|d.bids|, bidder, PriceCents(amount), key, now)), ProductUpdated]
  {
    hide PriceCents, IsPriceText, FormatCentsToMoney, ParseMoneyToCents;
  }

  /** No bid, no leader and no order is the seller's. */
  predicate NoOwnTrade(d: Desk) {
    && (forall b | b in d.bids :: b.bidder != d.seller)
    && d.auction.winner != Some(d.seller)
    && (forall o | o in d.orders :: o.buyer != d.seller)
  }

  lemma StepKeepsApart(d: Desk, at: Timed, windowMs: int)
    requires NoOwnTrade(d) && IsRequest(at.step)
    ensures NoOwnTrade(Apply(d, at, windowMs)) && Apply(d, at, windowMs).seller == d.seller
  {
    hide PriceCents, IsPriceText, FormatCentsToMoney, ParseMoneyToCents, ApplyPercent;
    if at.step.DoFinalize? && d.bids != [] {
      assert TopBid(d.bids) in d.bids;
    }
  }

  /** From its creation on, whatever happens, a seller never bids on, leads or buys its own auction. */
  lemma {:induction false} SellerNeverTrades(d: Desk, clock: int, trace: seq<Timed>, windowMs: int)
    requires NoOwnTrade(d) && IsTrace(clock, trace)
    ensures NoOwnTrade(Run(d, clock, trace, windowMs)) && Run(d, clock, trace, windowMs).seller == d.seller
    decreases |trace|
  {
    if trace != [] {
      StepKeepsApart(d, trace[0], windowMs);
      hide NoOwnTrade, Apply;
      SellerNeverTrades(Apply(d, trace[0], windowMs), trace[0].now, trace[1..], windowMs);
    }
  }

  // ---------------------------------------------------------------------
  // Creation and edits
  // ---------------------------------------------------------------------

  /** A window that ends after it starts and after now, and two positive amounts; the row says what was asked for. */
  lemma CreateDecides(
    now: int, startPrice: string, increment: string, startsAt: int, endsAt: int,
    claims: map<(nat, string), OrderRef>, stock: nat, seller: nat, rate: string)
    requires IsPriceText(startPrice) && IsPriceText(increment)
    ensures var created := Create(now, startPrice, increment, startsAt, endsAt, claims, stock, seller, rate);
            var start, raise := PriceCents(startPrice), PriceCents(increment);
            && (created.Ok? <==> startsAt < endsAt && now < endsAt && start > 0 && raise > 0)
            && (created.Ok? ==>
                  var d := created.value; var a := d.auction;
                  && a.startPrice == start == a.currentPrice && a.increment == raise
                  && a.startsAt == startsAt && a.endsAt == endsAt
                  && a.winner.None? && a.winningBid.None? && a.windowEndsAt.None? && a.finalizedAt.None?
                  && IsOpen(a) && (a.status.Active? <==> startsAt <= now)
                  && d.bids == [] && d.orders == [] && d.seller == seller && d.rate == rate && d.stock == stock
                  && d.claims == claims && d.outbox == [AuctionCreated, ProductUpdated] && NoOwnTrade(d))
            && (created.Err? ==>
                  created.error == if endsAt <= startsAt then EndNotAfterStart
                                   else if endsAt <= now then EndInPast else NotPositive)
  {
    hide PriceCents, IsPriceText;
  }

  /** Each column an edit names gets the edit's value, each other column keeps its own. */
  predicate EditHolds(a: Auction, a': Auction, e: Edit, now: int)
    requires IsEdit(e)
  {
    && a'.startPrice == (if e.startPrice.Some? then PriceCents(e.startPrice.value) else a.startPrice)
    && a'.currentPrice == (if e.startPrice.Some? then PriceCents(e.startPrice.value) else a.currentPrice)
    && a'.increment == (if e.increment.Some? then PriceCents(e.increment.value) else a.increment)
    && a'.startsAt == (if e.startsAt.Some? then e.startsAt.value else a.startsAt)
    && a'.endsAt == (if e.endsAt.Some? then e.endsAt.value else a.endsAt)
    && IsOpen(a') && (a'.status.Active? <==> a'.startsAt <= now)
    && a'.winner == a.winner && a'.winningBid == a.winningBid
    && a'.windowEndsAt == a.windowEndsAt && a'.finalizedAt == a.finalizedAt
  }

  /** Only an open auction without bids is edited, to a window that ends after it starts and to positive amounts. */
  lemma EditDecides(d: Desk, now: int, e: Edit)
    requires IsEdit(e)
    ensures var startsAt := if e.startsAt.Some? then e.startsAt.value else d.auction.startsAt;
            var endsAt := if e.endsAt.Some? then e.endsAt.value else d.auction.endsAt;
            EditOutcome(d, e)
            == if !IsOpen(d.auction) || d.bids != [] then Err(NotEditable)
               else if endsAt <= startsAt then Err(EndsBeforeStart)
               else if (e.startPrice.Some? && PriceCents(e.startPrice.value) <= 0)
                       || (e.increment.Some? && PriceCents(e.increment.value) <= 0) then Err(PriceNotPositive)
               else Ok(())
    ensures var d' := Update(d, now, e);
            if EditOutcome(d, e).Err? then d' == d
            else
              && EditHolds(d.auction, d'.auction, e, now)
              && d' == d.(auction := d'.auction, outbox := d.outbox + [AuctionUpdated, ProductUpdated])
  {
    hide PriceCents, IsPriceText;
  }

  /** A save made later does the same to the row that was read, over whatever the row has become. */
  lemma SaveWrites(d: Desk, read: Auction, now: int, e: Edit)
    requires IsEdit(e)
    ensures var d' := SaveEdit(d, read, now, e);
            EditHolds(read, d'.auction, e, now)
            && d' == d.(auction := d'.auction, outbox := d.outbox + [AuctionUpdated, ProductUpdated])
  {
    hide PriceCents, IsPriceText;
  }

  // ---------------------------------------------------------------------
  // Status moves
  // ---------------------------------------------------------------------

  /** The event that tells the world of a move, for every move there is. */
  function Announcement(a: Auction, to: Status, windowMs: int): Option<Event> {
    match to
    case Active => if a.status.Scheduled? then Some(AuctionStarted) else None
    case Cancelled => if IsOpen(a) then Some(AuctionCancelled) else None
    case Unsold => if IsOpen(a) then Some(AuctionUnsold) else None
    case AwaitingPayment =>
      if IsOpen(a) && a.winner.Some? then Some(AuctionWon(a.winner.value, a.currentPrice)) else None
    case Completed => if a.status.AwaitingPayment? then Some(AuctionPurchased(0)) else None
    case Expired => if a.status.AwaitingPayment? then Some(PurchaseWindowExpired(a.winner)) else None
    case _ => None
  }

  /** When an open auction may end, start or be called off, and when a won one is settled. */
  predicate MayMove(d: Desk, at: Timed, to: Status) {
    var a := d.auction;
    match to
    case Active =>
      (at.step.DoActivate? && a.status.Scheduled? && a.startsAt <= at.now < a.endsAt)
      || (at.step.DoBid? && IsOpen(a) && a.startsAt <= at.now < a.endsAt)
    case Cancelled => at.step == DoCancel(true) && IsOpen(a)
    case Unsold => at.step.DoFinalize? && IsOpen(a) && a.endsAt <= at.now && d.bids == []
    case AwaitingPayment => at.step.DoFinalize? && IsOpen(a) && a.endsAt <= at.now && d.bids != []
    case Expired =>
      at.step.DoExpire? && a.status.AwaitingPayment? && a.windowEndsAt.Some? && a.windowEndsAt.value <= at.now
    case Completed =>
      && at.step.DoCheckout? && a.status.AwaitingPayment? && a.winner == Some(at.step.buyer)
      && a.windowEndsAt.Some? && at.now <= a.windowEndsAt.value
    case _ => false
  }

  /**
   Every change of status, seller edits apart, is one of these moves at its time, and commits with its own event. An
   edit moves between scheduled and active only.
   */
  lemma StatusMoves(d: Desk, at: Timed, clock: int, windowMs: int, initialStock: nat)
    requires Inv(d, clock, windowMs, initialStock) && IsRequest(at.step)
    ensures var d' := Apply(d, at, windowMs);
            d'.auction.status != d.auction.status ==>
              if at.step.DoUpdate? then IsOpen(d.auction) && IsOpen(d'.auction)
              else
                var event := Announcement(d.auction, d'.auction.status, windowMs);
                && MayMove(d, at, d'.auction.status)
                && event.Some? && |d.outbox| < |d'.outbox| && event.value in d'.outbox[|d.outbox|..]
  {
    hide PriceCents, IsPriceText, FormatCentsToMoney, ParseMoneyToCents, ApplyPercent, FindBid;
    var d' := Apply(d, at, windowMs);
    if d'.auction.status != d.auction.status && !at.step.DoUpdate? {
      var more := d'.outbox[|d.outbox|..];
      match at.step
      case DoBid(_, _, _) => assert more[0] == AuctionStarted;
      case DoFinalize =>
        FinalizePicksLeader(d, at.now, windowMs, clock, initialStock);
        assert more[0] == AuctionUnsold || more[0].AuctionWon?;
      case DoCheckout(_, _) => assert more[3] == AuctionPurchased(0);
      case DoExpire => assert more[0] == PurchaseWindowExpired(d.auction.winner);
      case DoCancel(_) => assert more[0] == AuctionCancelled;
      case DoActivate => assert more[0] == AuctionStarted;
      case _ =>
    }
  }

  /** And whatever may move, does: these requests are not ignored when their time has come. */
  lemma DueMovesHappen(d: Desk, now: int, clock: int, windowMs: int, initialStock: nat)
    requires Inv(d, clock, windowMs, initialStock)
    ensures var a := d.auction;
            && (MayMove(d, Timed(now, DoActivate), Active) ==> Activate(d, now).auction.status.Active?)
            && (IsOpen(a) && a.endsAt <= now ==>
                  var a' := Finalize(d, now, windowMs).auction;
                  && a'.finalizedAt == Some(now) && a'.winner == a.winner
                  && if d.bids == [] then a'.status.Unsold?
                     else a'.status.AwaitingPayment? && a'.windowEndsAt == Some(now + windowMs))
            && (MayMove(d, Timed(now, DoExpire), Expired) ==> Expire(d, now).auction.status.Expired?)
            && (IsOpen(a) ==> Cancel(d, true).auction.status.Cancelled?)
  {
    FinalizePicksLeader(d, now, windowMs, clock, initialStock);
  }

  /** Ending a window is told in full: result, finalization and, for a winner, how long there is to pay. */
  lemma FinalizeAnnounces(d: Desk, now: int, clock: int, windowMs: int, initialStock: nat)
    requires Inv(d, clock, windowMs, initialStock) && IsOpen(d.auction) && d.auction.endsAt <= now
    ensures var d' := Finalize(d, now, windowMs); var a := d.auction;
            && |d.outbox| <= |d'.outbox|
            && multiset(d'.outbox[|d.outbox|..])
               == if a.winner.None? then multiset{AuctionUnsold, ProductUpdated, AuctionFinalized(Unsold)}
                  else multiset{AuctionWon(a.winner.value, a.currentPrice), ProductUpdated,
                                AuctionFinalized(AwaitingPayment), PurchaseWindowOpened(now + windowMs)}
  {
    FinalizePicksLeader(d, now, windowMs, clock, initialStock);
  }

  /** The sweep's three queries find exactly the auctions that their transactions then change. */
  lemma QueriesFindWhatIsDue(d: Desk, now: int, windowMs: int)
    ensures R.IsStartable(d, now) <==> Activate(d, now) != d
    ensures R.IsOverdue(d, now) <==> Finalize(d, now, windowMs) != d
    ensures R.IsLapsed(d, now) <==> Expire(d, now) != d
  {
    hide TopBid;
  }

  // ---------------------------------------------------------------------
  // The winner's purchase
  // ---------------------------------------------------------------------

  /** A known key replays; then winner, status, window, stock and rate decide, in this order. */
  lemma CheckoutDecides(d: Desk, now: int, buyer: nat, key: string)
    ensures var a := d.auction;
            CheckoutOutcome(d, now, buyer, key)
            == if (buyer, key) in d.claims then Ok(Replayed(d.claims[(buyer, key)]))
               else if a.winner != Some(buyer) then Err(NotWinner)
               else if !a.status.AwaitingPayment? then Err(NotAwaitingPayment)
               else if a.windowEndsAt.None? || a.windowEndsAt.value < now then Err(WindowExpired)
               else if d.stock == 0 then Err(OutOfStock)
               else if ParseMoneyToCents(d.rate).Err? then Err(BadRate(ParseMoneyToCents(d.rate).error))
               else Ok(Purchased(|d.orders|))
  {
    hide ParseMoneyToCents;
  }

  /** The sale: one unit, an order at the standing price that splits into commission and net, the key claimed for it. */
  lemma PurchaseWrites(d: Desk, now: int, buyer: nat, key: string)
    requires CheckoutOutcome(d, now, buyer, key) == Ok(Purchased(|d.orders|))
    ensures var d', price := Checkout(d, now, buyer, key), d.auction.currentPrice;
            && ApplyPercent(price, d.rate).Ok?
            && var commission := ApplyPercent(price, d.rate).value;
            && d'.orders == d.orders + [Order(buyer, key, price, commission, price - commission)]
            && d'.stock == d.stock - 1 && d'.auction == d.auction.(status := Completed)
            && d'.claims == d.claims[(buyer, key) := AuctionOrder(|d.orders|)]
            && d'.outbox == d.outbox + [OrderCreated(|d.orders|), SellerOrderCreated(|d.orders|), StockChanged,
                                        AuctionPurchased(|d.orders|)]
            && d' == d.(orders := d'.orders, stock := d'.stock, auction := d'.auction, claims := d'.claims,
                        outbox := d'.outbox)
  {
    hide ApplyPercent;
  }

  /** The finalizing query's first row: the highest amount, and the oldest bid of that amount. */
  lemma {:induction false} TopBidIsOldestHighest(bids: seq<Bid>)
    requires bids != []
    ensures var top := TopBid(bids);
            top in bids && forall b | b in bids :: b.amount < top.amount || (b.amount == top.amount && top.at <= b.at)
  {
    assert forall b | b in bids :: !Beats(b, TopBid(bids));
  }

  /** A repeated cancellation is accepted and idle; somebody else's is refused as unknown. */
  lemma CancelDecides(d: Desk, owned: bool)
    ensures CancelOutcome(d, owned)
            == if !owned then Err(NotFound)
               else if d.auction.status.Cancelled? then Ok(false)
               else if IsOpen(d.auction) then Ok(true)
               else Err(NotCancellable(d.auction.status))
  {}
}
