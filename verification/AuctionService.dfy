/** The auction transactions as they run: one object holding the auction row and the tables beside it. */
module AuctionTransactions {
  import opened Results
  import opened Money
  import A = Auctions

  /**
   `row` and the other fields are the committed database. A transaction loads the row under its lock,
   changes its own copy, and saves it back; a refusal returns before anything is saved.
   */
  class AuctionService {
    var row: A.Auction
    var bids: seq<A.Bid>
    var outbox: seq<A.Event>
    var claims: map<(nat, string), A.OrderRef>
    var orders: seq<A.Order>
    var stock: nat
    const seller: nat
    const rate: string
    const windowMs: int

    ghost function State(): A.Desk
      reads this
    {
      A.Desk(row, bids, outbox, claims, orders, stock, seller, rate)
    }

    constructor (d: A.Desk, windowMs: int)
      ensures State() == d && this.windowMs == windowMs
    {
      row, bids, outbox, claims, orders, stock := d.auction, d.bids, d.outbox, d.claims, d.orders, d.stock;
      seller, rate := d.seller, d.rate;
      this.windowMs := windowMs;
    }

    method ActivateAuction(now: int) returns (touched: bool)
      modifies this
      ensures State() == A.Activate(old(State()), now)
      ensures touched <==> State() != old(State())
    {
      var auction := row;
      if auction.status != A.Scheduled || now < auction.startsAt || now >= auction.endsAt {
        return false;
      }
      auction := auction.(status := A.Active);
      row := auction;
      outbox := outbox + [A.AuctionStarted, A.ProductUpdated];
      touched := true;
    }

    method PlaceBid(now: int, bidder: nat, key: string, amount: string) returns (outcome: Result<A.Bid, A.BidError>)
      requires IsPriceText(amount)
      modifies this
      ensures outcome == A.BidOutcome(old(State()), now, bidder, key, amount)
      ensures State() == A.PlaceBid(old(State()), now, bidder, key, amount)
    {
      hide ParseMoneyToCents, PriceCents, FormatCentsToMoney, IsPriceText;
      var auction := row;
      var replay := A.FindBid(bids, bidder, key);
      if replay.Some? {
        if FormatCentsToMoney(replay.value.amount) != amount {
          return Err(A.KeyReused);
        }
        return Ok(replay.value);
      }
      var activatedNow := auction.status == A.Scheduled && A.InWindow(auction, now);
      if activatedNow {
        auction := auction.(status := A.Active);
      }
      if auction.status != A.Active || now < auction.startsAt || now >= auction.endsAt {
        return Err(A.NotOpen);
      }
      if seller == bidder {
        return Err(A.OwnAuction);
      }
      var minimum := if auction.winner.Some? then auction.currentPrice + auction.increment else auction.startPrice;
      var cents := PriceCents(amount);
      if cents < minimum {
        return Err(A.TooLow(minimum));
      }
      var bid := A.Bid(|bids|, bidder, cents, key, now);
      bids := bids + [bid];
      auction := auction.(currentPrice := cents, winner := Some(bidder), winningBid := Some(bid.id));
      row := auction;
      if activatedNow {
        outbox := outbox + [A.AuctionStarted];
      }
      outbox := outbox + [A.BidPlaced(bid), A.ProductUpdated];
      outcome := Ok(bid);
    }

    method FinalizeAuction(now: int) returns (window: Option<int>)
      modifies this
      ensures State() == A.Finalize(old(State()), now, windowMs)
      ensures window == if State() != old(State()) && bids != [] then Some(now + windowMs) else None
    {
      var auction := row;
      if (auction.status != A.Active && auction.status != A.Scheduled) || now < auction.endsAt {
        return None;
      }
      if auction.status == A.Scheduled {
        auction := auction.(status := A.Active);
      }
      if bids == [] {
        auction := auction.(status := A.Unsold, finalizedAt := Some(now));
        row := auction;
        outbox := outbox + [A.AuctionUnsold, A.ProductUpdated, A.AuctionFinalized(auction.status)];
        return None;
      }
      var top := A.TopBid(bids);
      auction := auction.(winner := Some(top.bidder), currentPrice := top.amount, windowEndsAt := Some(now + windowMs),
                          winningBid := Some(top.id), finalizedAt := Some(now), status := A.AwaitingPayment);
      row := auction;
      outbox := outbox + [A.AuctionWon(top.bidder, top.amount), A.ProductUpdated,
                          A.AuctionFinalized(auction.status), A.PurchaseWindowOpened(now + windowMs)];
      window := auction.windowEndsAt;
    }

    method ExpirePurchaseWindow(now: int) returns (touched: bool)
      modifies this
      ensures State() == A.Expire(old(State()), now)
      ensures touched <==> State() != old(State())
    {
      var auction := row;
      if auction.status != A.AwaitingPayment || auction.windowEndsAt.None? || now < auction.windowEndsAt.value {
        return false;
      }
      auction := auction.(status := A.Expired);
      row := auction;
      outbox := outbox + [A.PurchaseWindowExpired(auction.winner), A.ProductUpdated];
      touched := true;
    }

    method Cancel(owned: bool) returns (outcome: Result<bool, A.CancelError>)
      modifies this
      ensures outcome == A.CancelOutcome(old(State()), owned)
      ensures State() == A.Cancel(old(State()), owned)
    {
      var auction := row;
      if !owned {
        return Err(A.NotFound);
      }
      if auction.status == A.Cancelled {
        return Ok(false);
      }
      if auction.status != A.Scheduled && auction.status != A.Active {
        return Err(A.NotCancellable(auction.status));
      }
      auction := auction.(status := A.Cancelled);
      row := auction;
      outbox := outbox + [A.AuctionCancelled, A.ProductUpdated];
      outcome := Ok(true);
    }

    method Update(now: int, edit: A.Edit) returns (outcome: Result<(), A.EditError>)
      requires A.IsEdit(edit)
      modifies this
      ensures outcome == A.EditOutcome(old(State()), edit)
      ensures State() == A.Update(old(State()), now, edit)
    {
      var read := ReadForEdit(edit);
      if read.Err? {
        return Err(read.error);
      }
      SaveEdited(read.value, now, edit);
      outcome := Ok(());
    }

    /** The unlocked first half of an edit: the row as it stands, if it may be edited as asked. */
    method ReadForEdit(edit: A.Edit) returns (read: Result<A.Auction, A.EditError>)
      requires A.IsEdit(edit)
      ensures read == if A.EditOutcome(State(), edit).Ok? then Ok(row) else Err(A.EditOutcome(State(), edit).error)
    {
      hide ParseMoneyToCents, PriceCents, IsPriceText;
      var auction := row;
      if bids != [] || (auction.status != A.Scheduled && auction.status != A.Active) {
        return Err(A.NotEditable);
      }
      if A.OrElse(edit.endsAt, auction.endsAt) <= A.OrElse(edit.startsAt, auction.startsAt) {
        return Err(A.EndsBeforeStart);
      }
      if (edit.startPrice.Some? && PriceCents(edit.startPrice.value) <= 0)
         || (edit.increment.Some? && PriceCents(edit.increment.value) <= 0) {
        return Err(A.PriceNotPositive);
      }
      read := Ok(auction);
    }

    /**
     The second half, in a transaction of its own: field by field
     onto the row read before, and a save of all of it.
     */
    method SaveEdited(read: A.Auction, now: int, edit: A.Edit)
      requires A.IsEdit(edit)
      modifies this
      ensures State() == A.SaveEdit(old(State()), read, now, edit)
    {
      hide ParseMoneyToCents, PriceCents, IsPriceText;
      var auction := read;
      if edit.startPrice.Some? {
        var cents := PriceCents(edit.startPrice.value);
        auction := auction.(startPrice := cents, currentPrice := cents);
      }
      if edit.increment.Some? {
        auction := auction.(increment := PriceCents(edit.increment.value));
      }
      var nextStartsAt := A.OrElse(edit.startsAt, auction.startsAt);
      auction := auction.(startsAt := nextStartsAt, endsAt := A.OrElse(edit.endsAt, auction.endsAt));
      auction := auction.(status := if nextStartsAt <= now then A.Active else A.Scheduled);
      row := auction;
      outbox := outbox + [A.AuctionUpdated, A.ProductUpdated];
    }

    /** The winner's purchase. A failed attempt rolls its claim insert back with everything else. */
    method Checkout(now: int, buyer: nat, key: string) returns (outcome: Result<A.Purchase, A.CheckoutError>)
      modifies this
      ensures outcome == A.CheckoutOutcome(old(State()), now, buyer, key)
      ensures State() == A.Checkout(old(State()), now, buyer, key)
    {
      hide ApplyPercent;
      if (buyer, key) in claims {
        return Ok(A.Replayed(claims[(buyer, key)]));
      }
      var auction := row;
      if auction.winner != Some(buyer) {
        return Err(A.NotWinner);
      }
      if auction.status != A.AwaitingPayment {
        return Err(A.NotAwaitingPayment);
      }
      if auction.windowEndsAt.None? || now > auction.windowEndsAt.value {
        return Err(A.WindowExpired);
      }
      if stock < 1 {
        return Err(A.OutOfStock);
      }
      var commission := ApplyPercent(auction.currentPrice, rate);
      if commission.Err? {
        return Err(A.BadRate(commission.error));
      }
      var index := |orders|;
      stock := stock - 1;
      orders := orders + [A.Order(
        buyer, key, auction.currentPrice, commission.value, auction.currentPrice - commission.value)];
      auction := auction.(status := A.Completed);
      row := auction;
      outbox := outbox
        + [A.OrderCreated(index), A.SellerOrderCreated(index), A.StockChanged, A.AuctionPurchased(index)];
      claims := claims[(buyer, key) := A.AuctionOrder(index)];
      outcome := Ok(A.Purchased(index));
    }
  }
}
