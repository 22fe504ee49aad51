/**
 One auction and everything its transactions touch: the auction row, its append-only bids, the
 outbox, the checkout claims and the product's stock. Every operation below runs under the auction
 row's lock, so each is one atomic step.
 */
module Auctions {
  import opened Results
  import opened Money

  datatype Status = Scheduled | Active | Ended | Unsold | Expired | AwaitingPayment | Completed | Cancelled

  /** `amount` is the numeric column's value; it reads back as canonical text. */
  datatype Bid = Bid(id: nat, bidder: nat, amount: int, key: string, at: int)

  datatype Auction = Auction(
    status: Status, startPrice: int, currentPrice: int, increment: int, startsAt: int, endsAt: int,
    winner: Option<nat>, winningBid: Option<nat>, windowEndsAt: Option<int>, finalizedAt: Option<int>)

  datatype Order = Order(buyer: nat, key: string, total: int, commission: int, net: int)

  datatype OrderRef = AuctionOrder(index: nat) | CartOrder(id: nat)

  datatype Event =
    | AuctionCreated | AuctionUpdated | AuctionStarted | AuctionCancelled | AuctionUnsold
    | AuctionWon(winner: nat, amount: int) | AuctionFinalized(status: Status)
    | PurchaseWindowOpened(until: int) | PurchaseWindowExpired(expiredWinner: Option<nat>)
    | BidPlaced(bid: Bid) | ProductUpdated
    | OrderCreated(index: nat) | SellerOrderCreated(index: nat) | StockChanged | AuctionPurchased(index: nat)

  datatype Desk = Desk(
    auction: Auction, bids: seq<Bid>, outbox: seq<Event>,
    claims: map<(nat, string), OrderRef>, orders: seq<Order>,
    stock: nat, seller: nat, rate: string)

  datatype BidError = KeyReused | NotOpen | OwnAuction | TooLow(minimum: int)
  datatype CancelError = NotFound | NotCancellable(status: Status)
  datatype EditError = NotEditable | EndsBeforeStart | PriceNotPositive
  datatype CheckoutError = NotWinner | NotAwaitingPayment | WindowExpired | OutOfStock | BadRate(reason: MoneyError)
  datatype Purchase = Purchased(index: nat) | Replayed(ref: OrderRef)

  /** A partial edit; an absent field keeps its value. */
  datatype Edit = Edit(
    startPrice: Option<string>, increment: Option<string>, startsAt: Option<int>, endsAt: Option<int>)

  // ---------------------------------------------------------------------
  // Queries
  // ---------------------------------------------------------------------

  predicate Beats(b: Bid, c: Bid) {
    b.amount > c.amount || (b.amount == c.amount && b.at < c.at)
  }

  /** ORDER BY amount DESC, createdAt ASC LIMIT 1. */
  function TopBid(bids: seq<Bid>): (top: Bid)
    requires bids != []
    ensures top in bids && forall b | b in bids :: !Beats(b, top)
  {
    var last := bids[|bids| - 1];
    if |bids| == 1 then last
    else
      var top := TopBid(bids[..|bids| - 1]);
      assert bids == bids[..|bids| - 1] + [last];
      if Beats(last, top) then last else top
  }

  function FindBid(bids: seq<Bid>, bidder: nat, key: string): (found: Option<Bid>)
    ensures found.None? ==> forall b | b in bids :: b.bidder != bidder || b.key != key
    ensures found.Some? ==> found.value in bids && found.value.bidder == bidder && found.value.key == key
  {
    if bids == [] then None
    else if bids[0].bidder == bidder && bids[0].key == key then Some(bids[0])
    else FindBid(bids[1..], bidder, key)
  }

  predicate InWindow(a: Auction, now: int) {
    a.startsAt <= now < a.endsAt
  }

  function MinimumBid(a: Auction): int {
    if a.winner.Some? then a.currentPrice + a.increment else a.startPrice
  }

  predicate IsEditable(d: Desk) {
    d.bids == [] && (d.auction.status.Scheduled? || d.auction.status.Active?)
  }

  // ---------------------------------------------------------------------
  // What each transaction does
  // ---------------------------------------------------------------------

  function Activate(d: Desk, now: int): Desk {
    if d.auction.status.Scheduled? && InWindow(d.auction, now) then
      d.(auction := d.auction.(status := Active), outbox := d.outbox + [AuctionStarted, ProductUpdated])
    else d
  }

  function BidOutcome(d: Desk, now: int, bidder: nat, key: string, amount: string): Result<Bid, BidError>
    requires IsPriceText(amount)
  {
    var cents := PriceCents(amount);
    var replay := FindBid(d.bids, bidder, key);
    if replay.Some? then
      if FormatCentsToMoney(replay.value.amount) != amount then Err(KeyReused) else Ok(replay.value)
    else if !(d.auction.status.Active? || d.auction.status.Scheduled?) || !InWindow(d.auction, now) then Err(NotOpen)
    else if d.seller == bidder then Err(OwnAuction)
    else if cents < MinimumBid(d.auction) then Err(TooLow(MinimumBid(d.auction)))
    else Ok(Bid(|d.bids|, bidder, cents, key, now))
  }

  function AcceptBid(d: Desk, bid: Bid): Desk {
    d.(auction := d.auction.(status := Active, currentPrice := bid.amount,
                             winner := Some(bid.bidder), winningBid := Some(bid.id)),
       bids := d.bids + [bid],
       outbox := d.outbox + (if d.auction.status.Scheduled? then [AuctionStarted] else [])
                 + [BidPlaced(bid), ProductUpdated])
  }

  function PlaceBid(d: Desk, now: int, bidder: nat, key: string, amount: string): Desk
    requires IsPriceText(amount)
  {
    var outcome := BidOutcome(d, now, bidder, key, amount);
    if outcome.Ok? && FindBid(d.bids, bidder, key).None? then AcceptBid(d, outcome.value) else d
  }

  function Finalize(d: Desk, now: int, windowMs: int): Desk {
    var a := d.auction;
    if !(a.status.Active? || a.status.Scheduled?) || now < a.endsAt then d
    else if d.bids == [] then
      d.(auction := a.(status := Unsold, finalizedAt := Some(now)),
         outbox := d.outbox + [AuctionUnsold, ProductUpdated, AuctionFinalized(Unsold)])
    else
      var top := TopBid(d.bids);
      d.(auction := a.(status := AwaitingPayment, winner := Some(top.bidder), currentPrice := top.amount,
                       windowEndsAt := Some(now + windowMs), winningBid := Some(top.id), finalizedAt := Some(now)),
         outbox := d.outbox + [AuctionWon(top.bidder, top.amount), ProductUpdated,
                               AuctionFinalized(AwaitingPayment), PurchaseWindowOpened(now + windowMs)])
  }

  function Expire(d: Desk, now: int): Desk {
    var a := d.auction;
    if !a.status.AwaitingPayment? || a.windowEndsAt.None? || now < a.windowEndsAt.value then d
    else d.(auction := a.(status := Expired), outbox := d.outbox + [PurchaseWindowExpired(a.winner), ProductUpdated])
  }

  function CancelOutcome(d: Desk, owned: bool): Result<bool, CancelError> {
    if !owned then Err(NotFound)
    else if d.auction.status.Cancelled? then Ok(false)
    else if d.auction.status.Scheduled? || d.auction.status.Active? then Ok(true)
    else Err(NotCancellable(d.auction.status))
  }

  function Cancel(d: Desk, owned: bool): Desk {
    if CancelOutcome(d, owned) == Ok(true) then
      d.(auction := d.auction.(status := Cancelled), outbox := d.outbox + [AuctionCancelled, ProductUpdated])
    else d
  }

  predicate IsEdit(e: Edit) {
    (e.startPrice.Some? ==> IsPriceText(e.startPrice.value)) && (e.increment.Some? ==> IsPriceText(e.increment.value))
  }

  function OrElse<T>(o: Option<T>, default: T): T {
    if o.Some? then o.value else default
  }

  function CentsOrElse(text: Option<string>, default: int): int
    requires text.Some? ==> IsPriceText(text.value)
  {
    if text.Some? then PriceCents(text.value) else default
  }

  function EditOutcome(d: Desk, e: Edit): Result<(), EditError>
    requires IsEdit(e)
  {
    if !IsEditable(d) then Err(NotEditable)
    else if OrElse(e.endsAt, d.auction.endsAt) <= OrElse(e.startsAt, d.auction.startsAt) then Err(EndsBeforeStart)
    else if CentsOrElse(e.startPrice, 1) <= 0 || CentsOrElse(e.increment, 1) <= 0 then Err(PriceNotPositive)
    else Ok(())
  }

  /** The whole row as an edit of the row that was read. */
  function EditRow(a: Auction, now: int, e: Edit): Auction
    requires IsEdit(e)
  {
    var startsAt := OrElse(e.startsAt, a.startsAt);
    a.(startPrice := CentsOrElse(e.startPrice, a.startPrice),
       currentPrice := CentsOrElse(e.startPrice, a.currentPrice),
       increment := CentsOrElse(e.increment, a.increment),
       startsAt := startsAt, endsAt := OrElse(e.endsAt, a.endsAt),
       status := if startsAt <= now then Active else Scheduled)
  }

  /** The save writes every column of the row that was read, whatever the row holds by then. */
  function SaveEdit(d: Desk, read: Auction, now: int, e: Edit): Desk
    requires IsEdit(e)
  {
    d.(auction := EditRow(read, now, e), outbox := d.outbox + [AuctionUpdated, ProductUpdated])
  }

  /** A seller's edit with nothing in between its read and its save. */
  function Update(d: Desk, now: int, e: Edit): Desk
    requires IsEdit(e)
  {
    if EditOutcome(d, e).Err? then d else SaveEdit(d, d.auction, now, e)
  }

  function CheckoutOutcome(d: Desk, now: int, buyer: nat, key: string): Result<Purchase, CheckoutError> {
    var a := d.auction;
    if (buyer, key) in d.claims then Ok(Replayed(d.claims[(buyer, key)]))
    else if a.winner != Some(buyer) then Err(NotWinner)
    else if !a.status.AwaitingPayment? then Err(NotAwaitingPayment)
    else if a.windowEndsAt.None? || now > a.windowEndsAt.value then Err(WindowExpired)
    else if d.stock < 1 then Err(OutOfStock)
    else
      var commission := ApplyPercent(a.currentPrice, d.rate);
      if commission.Err? then Err(BadRate(commission.error)) else Ok(Purchased(|d.orders|))
  }

  function Checkout(d: Desk, now: int, buyer: nat, key: string): Desk {
    var outcome := CheckoutOutcome(d, now, buyer, key);
    if outcome.Ok? && outcome.value.Purchased? then
      var price := d.auction.currentPrice;
      var commission := ApplyPercent(price, d.rate).value;
      var index := |d.orders|;
      d.(auction := d.auction.(status := Completed),
         stock := d.stock - 1,
         orders := d.orders + [Order(buyer, key, price, commission, price - commission)],
         claims := d.claims[(buyer, key) := AuctionOrder(index)],
         outbox := d.outbox + [OrderCreated(index), SellerOrderCreated(index), StockChanged, AuctionPurchased(index)])
    else d
  }

  datatype CreateError = EndNotAfterStart | EndInPast | NotPositive

  /** What a seller may open: a fresh row, active at once when its window has already begun. */
  function Create(
    now: int, startPrice: string, increment: string, startsAt: int, endsAt: int,
    claims: map<(nat, string), OrderRef>, stock: nat, seller: nat, rate: string): Result<Desk, CreateError>
    requires IsPriceText(startPrice) && IsPriceText(increment)
  {
    var start, step := PriceCents(startPrice), PriceCents(increment);
    if endsAt <= startsAt then Err(EndNotAfterStart)
    else if endsAt <= now then Err(EndInPast)
    else if start <= 0 || step <= 0 then Err(NotPositive)
    else
      var status := if startsAt <= now then Active else Scheduled;
      Ok(Desk(Auction(status, start, start, step, startsAt, endsAt, None, None, None, None),
              [], [AuctionCreated, ProductUpdated], claims, [], stock, seller, rate))
  }

  // ---------------------------------------------------------------------
  // Runs
  // ---------------------------------------------------------------------

  datatype Step =
    | DoActivate
    | DoBid(bidder: nat, bidKey: string, amount: string)
    | DoFinalize
    | DoExpire
    | DoCancel(owned: bool)
    | DoUpdate(edit: Edit)
    | DoCheckout(buyer: nat, key: string)
    | CartCheckout(customer: nat, cartKey: string, order: nat)

  /** A step and the clock reading it took under the lock. */
  datatype Timed = Timed(now: int, step: Step)

  predicate IsRequest(step: Step) {
    (step.DoBid? ==> IsPriceText(step.amount)) && (step.DoUpdate? ==> IsEdit(step.edit))
  }

  /** A cart checkout shares only the claim table with this auction; its own claim insert is atomic too. */
  function Apply(d: Desk, at: Timed, windowMs: int): Desk
    requires IsRequest(at.step)
  {
    match at.step
    case DoActivate => Activate(d, at.now)
    case DoBid(bidder, key, amount) => PlaceBid(d, at.now, bidder, key, amount)
    case DoFinalize => Finalize(d, at.now, windowMs)
    case DoExpire => Expire(d, at.now)
    case DoCancel(owned) => Cancel(d, owned)
    case DoUpdate(edit) => Update(d, at.now, edit)
    case DoCheckout(buyer, key) => Checkout(d, at.now, buyer, key)
    case CartCheckout(customer, key, order) =>
      if (customer, key) in d.claims then d else d.(claims := d.claims[(customer, key) := CartOrder(order)])
  }

  predicate IsTrace(clock: int, trace: seq<Timed>)
    decreases |trace|
  {
    trace == [] || (clock <= trace[0].now && IsRequest(trace[0].step) && IsTrace(trace[0].now, trace[1..]))
  }

  function Run(d: Desk, clock: int, trace: seq<Timed>, windowMs: int): Desk
    requires IsTrace(clock, trace)
    decreases |trace|
  {
    if trace == [] then d else Run(Apply(d, trace[0], windowMs), trace[0].now, trace[1..], windowMs)
  }

  function LastTime(clock: int, trace: seq<Timed>): int
    decreases |trace|
  {
    if trace == [] then clock else LastTime(trace[0].now, trace[1..])
  }

  // ---------------------------------------------------------------------
  // The invariant
  // ---------------------------------------------------------------------

  /** The first bid meets the start price; every later one raises its predecessor by the increment. */
  predicate Ladder(bids: seq<Bid>, startPrice: int, increment: int) {
    forall i | 0 <= i < |bids| :: bids[i].amount >= if i == 0 then startPrice else bids[i - 1].amount + increment
  }

  predicate InOrder(bids: seq<Bid>, a: Auction, clock: int) {
    && (forall i | 0 <= i < |bids| :: bids[i].id == i && InWindow(a, bids[i].at) && bids[i].at <= clock)
    && (forall i, j | 0 <= i < j < |bids| :: bids[i].bidder != bids[j].bidder || bids[i].key != bids[j].key)
  }

  /** The row always describes the last bid, or the start price when there is none. */
  predicate LeaderIsLast(a: Auction, bids: seq<Bid>) {
    if bids == [] then a.winner.None? && a.winningBid.None? && a.currentPrice == a.startPrice
    else
      var last := bids[|bids| - 1];
      a.winner == Some(last.bidder) && a.winningBid == Some(last.id) && a.currentPrice == last.amount
  }

  predicate IsFinalized(status: Status) {
    status.Unsold? || status.AwaitingPayment? || status.Expired? || status.Completed?
  }

  predicate IsTerminal(status: Status) {
    status.Unsold? || status.Expired? || status.Completed? || status.Cancelled?
  }

  predicate Lifecycle(d: Desk, clock: int, windowMs: int) {
    var a := d.auction;
    && !a.status.Ended?
    && (IsFinalized(a.status) <==> a.finalizedAt.Some?)
    && (IsFinalized(a.status) ==> a.endsAt <= a.finalizedAt.value <= clock)
    && (a.status.Unsold? ==> d.bids == [])
    && (IsFinalized(a.status) && !a.status.Unsold? ==>
          d.bids != [] && a.windowEndsAt == Some(a.finalizedAt.value + windowMs))
  }

  /** The single order, owned by the top bidder at the top bid, exists exactly when the auction is completed. */
  predicate OneOrder(d: Desk, initialStock: nat) {
    && d.stock + |d.orders| == initialStock
    && (d.auction.status.Completed? <==> d.orders != [])
    && (d.orders != [] ==>
          && |d.orders| == 1 && d.bids != []
          && d.orders[0].buyer == d.bids[|d.bids| - 1].bidder
          && d.orders[0].total == d.bids[|d.bids| - 1].amount
          && d.orders[0].commission + d.orders[0].net == d.orders[0].total
          && (d.orders[0].buyer, d.orders[0].key) in d.claims
          && d.claims[(d.orders[0].buyer, d.orders[0].key)] == AuctionOrder(0))
    && (forall c | c in d.claims && d.claims[c].AuctionOrder? ::
          d.orders != [] && c == (d.orders[0].buyer, d.orders[0].key))
  }

  predicate Inv(d: Desk, clock: int, windowMs: int, initialStock: nat) {
    && d.auction.startPrice > 0 && d.auction.increment > 0 && d.auction.startsAt < d.auction.endsAt
    && Ladder(d.bids, d.auction.startPrice, d.auction.increment)
    && InOrder(d.bids, d.auction, clock)
    && LeaderIsLast(d.auction, d.bids)
    && Lifecycle(d, clock, windowMs)
    && OneOrder(d, initialStock)
  }

  lemma {:induction false} LadderAscends(bids: seq<Bid>, startPrice: int, increment: int, i: nat, j: nat)
    requires Ladder(bids, startPrice, increment) && increment > 0 && i < j < |bids|
    ensures bids[i].amount < bids[j].amount
    decreases j
  {
    assert bids[j].amount >= bids[j - 1].amount + increment;
    if i < j - 1 {
      LadderAscends(bids, startPrice, increment, i, j - 1);
    }
  }

  /** Whatever row the finalizing query may return, it is the last bid. */
  lemma TopIsLast(bids: seq<Bid>, startPrice: int, increment: int, top: Bid)
    requires Ladder(bids, startPrice, increment) && increment > 0
    requires top in bids && forall b | b in bids :: !Beats(b, top)
    ensures top == bids[|bids| - 1]
  {
    var i :| 0 <= i < |bids| && bids[i] == top;
    assert !Beats(bids[|bids| - 1], top);
    if i < |bids| - 1 {
      LadderAscends(bids, startPrice, increment, i, |bids| - 1);
    }
  }

  predicate IsAcceptable(d: Desk, bid: Bid) {
    && bid.id == |d.bids| && InWindow(d.auction, bid.at) && bid.amount >= MinimumBid(d.auction)
    && (d.auction.status.Active? || d.auction.status.Scheduled?)
    && forall b | b in d.bids :: b.bidder != bid.bidder || b.key != bid.key
  }

  lemma AcceptKeepsInv(d: Desk, bid: Bid, clock: int, windowMs: int, initialStock: nat)
    requires Inv(d, clock, windowMs, initialStock) && clock <= bid.at && IsAcceptable(d, bid)
    ensures Inv(AcceptBid(d, bid), bid.at, windowMs, initialStock)
  {}

  lemma BidKeepsInv(
    d: Desk, now: int, bidder: nat, key: string, amount: string, clock: int, windowMs: int, initialStock: nat)
    requires Inv(d, clock, windowMs, initialStock) && clock <= now && IsPriceText(amount)
    ensures Inv(PlaceBid(d, now, bidder, key, amount), now, windowMs, initialStock)
  {
    hide PriceCents, IsPriceText, FormatCentsToMoney, ParseMoneyToCents;
    var outcome := BidOutcome(d, now, bidder, key, amount);
    if outcome.Ok? && FindBid(d.bids, bidder, key).None? {
      AcceptKeepsInv(d, outcome.value, clock, windowMs, initialStock);
    }
  }

  /** Finalizing picks the standing leader: the row's winner, winning bid and price do not move. */
  lemma FinalizePicksLeader(d: Desk, now: int, windowMs: int, clock: int, initialStock: nat)
    requires Inv(d, clock, windowMs, initialStock)
    ensures var a, a' := d.auction, Finalize(d, now, windowMs).auction;
            a'.winner == a.winner && a'.winningBid == a.winningBid && a'.currentPrice == a.currentPrice
    ensures d.bids != [] ==> forall top | top in d.bids && (forall b | b in d.bids :: !Beats(b, top)) ::
              top == TopBid(d.bids) == d.bids[|d.bids| - 1]
  {
    if d.bids != [] {
      forall top | top in d.bids && (forall b | b in d.bids :: !Beats(b, top))
        ensures top == d.bids[|d.bids| - 1]
      {
        TopIsLast(d.bids, d.auction.startPrice, d.auction.increment, top);
      }
    }
  }

  lemma FinalizeKeepsInv(d: Desk, now: int, clock: int, windowMs: int, initialStock: nat)
    requires Inv(d, clock, windowMs, initialStock) && clock <= now
    ensures Inv(Finalize(d, now, windowMs), now, windowMs, initialStock)
  {
    FinalizePicksLeader(d, now, windowMs, clock, initialStock);
  }

  lemma CheckoutKeepsInv(d: Desk, now: int, buyer: nat, key: string, clock: int, windowMs: int, initialStock: nat)
    requires Inv(d, clock, windowMs, initialStock) && clock <= now
    ensures Inv(Checkout(d, now, buyer, key), now, windowMs, initialStock)
  {}

  lemma UpdateKeepsInv(d: Desk, now: int, edit: Edit, clock: int, windowMs: int, initialStock: nat)
    requires Inv(d, clock, windowMs, initialStock) && clock <= now && IsEdit(edit)
    ensures Inv(Update(d, now, edit), now, windowMs, initialStock)
  {}

  lemma ActivateKeepsInv(d: Desk, now: int, clock: int, windowMs: int, initialStock: nat)
    requires Inv(d, clock, windowMs, initialStock) && clock <= now
    ensures Inv(Activate(d, now), now, windowMs, initialStock)
  {}

  lemma ExpireKeepsInv(d: Desk, now: int, clock: int, windowMs: int, initialStock: nat)
    requires Inv(d, clock, windowMs, initialStock) && clock <= now
    ensures Inv(Expire(d, now), now, windowMs, initialStock)
  {}

  lemma CancelKeepsInv(d: Desk, now: int, owned: bool, clock: int, windowMs: int, initialStock: nat)
    requires Inv(d, clock, windowMs, initialStock) && clock <= now
    ensures Inv(Cancel(d, owned), now, windowMs, initialStock)
  {}

  lemma CartClaimKeepsInv(d: Desk, at: Timed, clock: int, windowMs: int, initialStock: nat)
    requires Inv(d, clock, windowMs, initialStock) && clock <= at.now && at.step.CartCheckout?
    ensures Inv(Apply(d, at, windowMs), at.now, windowMs, initialStock)
  {}

  /** Every step keeps the invariant. */
  lemma StepKeepsInv(d: Desk, at: Timed, clock: int, windowMs: int, initialStock: nat)
    requires Inv(d, clock, windowMs, initialStock) && clock <= at.now && IsRequest(at.step)
    ensures Inv(Apply(d, at, windowMs), at.now, windowMs, initialStock)
  {
    match at.step
    case DoBid(bidder, key, amount) => BidKeepsInv(d, at.now, bidder, key, amount, clock, windowMs, initialStock);
    case DoFinalize => FinalizeKeepsInv(d, at.now, clock, windowMs, initialStock);
    case DoCheckout(buyer, key) => CheckoutKeepsInv(d, at.now, buyer, key, clock, windowMs, initialStock);
    case DoUpdate(edit) => UpdateKeepsInv(d, at.now, edit, clock, windowMs, initialStock);
    case DoActivate => ActivateKeepsInv(d, at.now, clock, windowMs, initialStock);
    case DoExpire => ExpireKeepsInv(d, at.now, clock, windowMs, initialStock);
    case DoCancel(owned) => CancelKeepsInv(d, at.now, owned, clock, windowMs, initialStock);
    case CartCheckout(_, _, _) => CartClaimKeepsInv(d, at, clock, windowMs, initialStock);
  }

  /** Every reachable state satisfies the invariant. */
  lemma {:induction false} RunKeepsInv(d: Desk, clock: int, trace: seq<Timed>, windowMs: int, initialStock: nat)
    requires Inv(d, clock, windowMs, initialStock) && IsTrace(clock, trace)
    ensures Inv(Run(d, clock, trace, windowMs), LastTime(clock, trace), windowMs, initialStock)
    decreases |trace|
  {
    if trace != [] {
      StepKeepsInv(d, trace[0], clock, windowMs, initialStock);
      RunKeepsInv(Apply(d, trace[0], windowMs), trace[0].now, trace[1..], windowMs, initialStock);
    }
  }

  /** A created auction starts every run inside the invariant, provided no claim refers to it yet. */
  lemma CreatedSatisfiesInv(
    now: int, startPrice: string, increment: string, startsAt: int, endsAt: int,
    claims: map<(nat, string), OrderRef>, stock: nat, seller: nat, rate: string, windowMs: int)
    requires IsPriceText(startPrice) && IsPriceText(increment)
    requires forall c | c in claims :: claims[c].CartOrder?
    ensures var created := Create(now, startPrice, increment, startsAt, endsAt, claims, stock, seller, rate);
            created.Ok? ==> Inv(created.value, now, windowMs, stock)
  {}

  // ---------------------------------------------------------------------
  // Terminal states, deadlines and retries
  // ---------------------------------------------------------------------

  /** Nothing a terminal auction's own requests do changes anything; only foreign claims are recorded. */
  lemma TerminalIsAbsorbing(d: Desk, at: Timed, windowMs: int)
    requires IsTerminal(d.auction.status) && IsRequest(at.step)
    ensures var d' := Apply(d, at, windowMs); d' == d.(claims := d'.claims)
    ensures !at.step.CartCheckout? ==> Apply(d, at, windowMs) == d
  {}

  /** Once finalized, an auction stays finalized and takes no further bid. */
  lemma {:induction false} NoBidAfterFinalization(d: Desk, clock: int, trace: seq<Timed>, windowMs: int)
    requires IsFinalized(d.auction.status) && IsTrace(clock, trace)
    ensures var d' := Run(d, clock, trace, windowMs);
            && IsFinalized(d'.auction.status) && d'.bids == d.bids && d'.auction.finalizedAt == d.auction.finalizedAt
            && (IsTerminal(d.auction.status) ==> d' == d.(claims := d'.claims))
    decreases |trace|
  {
    if trace != [] {
      FinalizedStep(d, trace[0], windowMs);
      NoBidAfterFinalization(Apply(d, trace[0], windowMs), trace[0].now, trace[1..], windowMs);
    }
  }

  lemma FinalizedStep(d: Desk, at: Timed, windowMs: int)
    requires IsFinalized(d.auction.status) && IsRequest(at.step)
    ensures var d' := Apply(d, at, windowMs);
            && IsFinalized(d'.auction.status) && d'.bids == d.bids && d'.auction.finalizedAt == d.auction.finalizedAt
            && (IsTerminal(d.auction.status) ==> d' == d.(claims := d'.claims) && d'.auction.status == d.auction.status)
            && (d.auction.status.Expired? ==> d'.auction.status.Expired?)
  {}

  /**
   At the deadline instant itself both the winner's checkout and the expiry are enabled. Whichever
   takes the lock first decides: the other then changes nothing.
   */
  lemma DeadlineInstant(d: Desk, now: int, buyer: nat, key: string)
    requires d.auction.status.AwaitingPayment? && d.auction.windowEndsAt == Some(now)
    requires d.auction.winner == Some(buyer) && (buyer, key) !in d.claims
    requires d.stock >= 1 && ParseMoneyToCents(d.rate).Ok?
    ensures var bought := Checkout(d, now, buyer, key);
            bought.auction.status.Completed? && |bought.orders| == |d.orders| + 1 && Expire(bought, now) == bought
    ensures var expired := Expire(d, now);
            && expired.auction.status.Expired? && expired.orders == d.orders
            && CheckoutOutcome(expired, now, buyer, key) == Err(NotAwaitingPayment)
            && Checkout(expired, now, buyer, key) == expired
  {}

  /**
   Retrying an accepted bid under its key changes nothing, whatever has happened since. It returns the
   original bid exactly when the text sent is the text the numeric column reads back, and is refused otherwise.
   */
  lemma BidRetry(d: Desk, clock: int, windowMs: int, initialStock: nat, i: nat, now: int, amount: string)
    requires Inv(d, clock, windowMs, initialStock) && i < |d.bids| && IsPriceText(amount)
    ensures var bid := d.bids[i];
            && PlaceBid(d, now, bid.bidder, bid.key, amount) == d
            && BidOutcome(d, now, bid.bidder, bid.key, amount)
                 == if amount == FormatCentsToMoney(bid.amount) then Ok(bid) else Err(KeyReused)
  {}

  /** The very text a bid was accepted under replays exactly when it was written canonically. */
  lemma SameTextRetry(d: Desk, clock: int, windowMs: int, initialStock: nat, i: nat, now: int, amount: string)
    requires Inv(d, clock, windowMs, initialStock) && i < |d.bids| && IsPriceText(amount)
    requires ParseMoneyToCents(amount) == Ok(d.bids[i].amount)
    ensures BidOutcome(d, now, d.bids[i].bidder, d.bids[i].key, amount).Ok? <==> IsCanonical(amount)
  {
    BidRetry(d, clock, windowMs, initialStock, i, now, amount);
    FormatUndoesParseIff(amount);
  }

  /** "50" is a legal bid text, is accepted, and is then refused as a retry of itself. */
  lemma PlainIntegerRetryFails(d: Desk, now: int, bidder: nat, key: string)
    requires d.auction.status.Active? && InWindow(d.auction, now) && bidder != d.seller
    requires FindBid(d.bids, bidder, key).None? && MinimumBid(d.auction) <= 5000
    ensures IsPriceText("50")
    ensures BidOutcome(d, now, bidder, key, "50").Ok?
    ensures BidOutcome(PlaceBid(d, now, bidder, key, "50"), now, bidder, key, "50") == Err(KeyReused)
  {
    FiftyParses();
    var d' := PlaceBid(d, now, bidder, key, "50");
    var bid := d'.bids[|d.bids|];
    FindAppended(d.bids, bid);
    FormatIsCanonical(5000);
  }

  lemma FiftyParses()
    ensures IsPriceText("50") && ParseMoneyToCents("50") == Ok(5000) && !IsCanonical("50")
  {
    var s := "50";
    BeforePointOfDigits(s);
    NoPointNoRest(s);
    ValueOfTwoDigits(s);
    assert TrimStart(s) == s && TrimEnd(s) == s;
    ZeroText("0", "00");
  }

  lemma {:induction false} FindAppended(bids: seq<Bid>, bid: Bid)
    requires FindBid(bids, bid.bidder, bid.key).None?
    ensures FindBid(bids + [bid], bid.bidder, bid.key) == Some(bid)
  {}

  /** A claim, once committed, answers every later checkout under the same key and nothing changes. */
  lemma {:induction false} ClaimedKeyReplays(
    d: Desk, clock: int, trace: seq<Timed>, windowMs: int, now: int, customer: nat, key: string)
    requires (customer, key) in d.claims && IsTrace(clock, trace)
    ensures var d' := Run(d, clock, trace, windowMs);
            && CheckoutOutcome(d', now, customer, key) == Ok(Replayed(d.claims[(customer, key)]))
            && Checkout(d', now, customer, key) == d'
    decreases |trace|
  {
    if trace != [] {
      ClaimedKeyReplays(Apply(d, trace[0], windowMs), trace[0].now, trace[1..], windowMs, now, customer, key);
    }
  }

  /** Bids and events are only ever appended. */
  lemma {:induction false} HistoryOnlyGrows(d: Desk, clock: int, trace: seq<Timed>, windowMs: int)
    requires IsTrace(clock, trace)
    ensures var d' := Run(d, clock, trace, windowMs);
            d.bids <= d'.bids && d.outbox <= d'.outbox && d.orders <= d'.orders
    decreases |trace|
  {
    if trace != [] {
      HistoryOnlyGrows(Apply(d, trace[0], windowMs), trace[0].now, trace[1..], windowMs);
    }
  }

  // ---------------------------------------------------------------------
  // Redelivery
  // ---------------------------------------------------------------------

  /**
   The run with every finalize after the first effective one,
   and every expire after the first effective one, deleted.
   */
  function EraseRedeliveries(
    d: Desk, trace: seq<Timed>, clock: int, windowMs: int, finalized: bool, expired: bool): seq<Timed>
    requires IsTrace(clock, trace)
    decreases |trace|
  {
    if trace == [] then []
    else
      var at := trace[0];
      var d' := Apply(d, at, windowMs);
      if (at.step.DoFinalize? && finalized) || (at.step.DoExpire? && expired) then
        EraseRedeliveries(d, trace[1..], at.now, windowMs, finalized, expired)
      else
        [at] + EraseRedeliveries(d', trace[1..], at.now, windowMs,
                                 finalized || (at.step.DoFinalize? && d' != d),
                                 expired || (at.step.DoExpire? && d' != d))
  }

  lemma {:induction false} ErasedIsTrace(
    d: Desk, trace: seq<Timed>, clock: int, clock0: int, windowMs: int, finalized: bool, expired: bool)
    requires IsTrace(clock, trace) && clock0 <= clock
    ensures IsTrace(clock0, EraseRedeliveries(d, trace, clock, windowMs, finalized, expired))
    decreases |trace|
  {
    if trace != [] {
      var at := trace[0];
      var d' := Apply(d, at, windowMs);
      if (at.step.DoFinalize? && finalized) || (at.step.DoExpire? && expired) {
        ErasedIsTrace(d, trace[1..], at.now, clock0, windowMs, finalized, expired);
      } else {
        var finalized' := finalized || (at.step.DoFinalize? && d' != d);
        var expired' := expired || (at.step.DoExpire? && d' != d);
        ErasedIsTrace(d', trace[1..], at.now, at.now, windowMs, finalized', expired');
        assert EraseRedeliveries(d, trace, clock, windowMs, finalized, expired)[1..]
            == EraseRedeliveries(d', trace[1..], at.now, windowMs, finalized', expired');
      }
    }
  }

  /** Deleting redeliveries, from the job or from the sweep, leaves the whole final state unchanged, outbox included. */
  lemma {:induction false} RedeliveryErasure(
    d: Desk, trace: seq<Timed>, clock: int, clock0: int, windowMs: int, finalized: bool, expired: bool)
    requires IsTrace(clock, trace) && clock0 <= clock
    requires (finalized ==> IsFinalized(d.auction.status)) && (expired ==> d.auction.status.Expired?)
    ensures var erased := EraseRedeliveries(d, trace, clock, windowMs, finalized, expired);
            IsTrace(clock0, erased) && Run(d, clock0, erased, windowMs) == Run(d, clock, trace, windowMs)
    decreases |trace|
  {
    ErasedIsTrace(d, trace, clock, clock0, windowMs, finalized, expired);
    if trace != [] {
      var at := trace[0];
      var d' := Apply(d, at, windowMs);
      if IsFinalized(d.auction.status) {
        FinalizedStep(d, at, windowMs);
      }
      if (at.step.DoFinalize? && finalized) || (at.step.DoExpire? && expired) {
        assert d' == d;
        RedeliveryErasure(d, trace[1..], at.now, clock0, windowMs, finalized, expired);
      } else {
        var finalized' := finalized || (at.step.DoFinalize? && d' != d);
        var expired' := expired || (at.step.DoExpire? && d' != d);
        RedeliveryErasure(d', trace[1..], at.now, at.now, windowMs, finalized', expired');
        assert EraseRedeliveries(d, trace, clock, windowMs, finalized, expired)[1..]
            == EraseRedeliveries(d', trace[1..], at.now, windowMs, finalized', expired');
      }
    }
  }

  // ---------------------------------------------------------------------
  // The search document
  // ---------------------------------------------------------------------

  /** What a product's search document copies of its auction and its stock. */
  function Searchable(d: Desk): (Status, int, nat) {
    (d.auction.status, d.auction.currentPrice, d.stock)
  }

  /** Every change a search document shows commits together with an event that has the document written again. */
  lemma StepAnnouncesProduct(d: Desk, at: Timed, windowMs: int)
    requires IsRequest(at.step)
    ensures var d' := Apply(d, at, windowMs);
            && d.outbox <= d'.outbox
            && (Searchable(d') != Searchable(d) ==>
                  var events := d'.outbox[|d.outbox|..]; ProductUpdated in events || StockChanged in events)
  {
    hide TopBid, ParseMoneyToCents, ApplyPercent, PriceCents, FindBid;
    var d' := Apply(d, at, windowMs);
    var events := d'.outbox[|d.outbox|..];
    if Searchable(d') != Searchable(d) {
      match at.step
      case DoCheckout(_, _) => assert events[2] == StockChanged;
      case DoActivate => assert events[1] == ProductUpdated;
      case DoBid(_, _, _) => assert events[|events| - 1] == ProductUpdated;
      case CartCheckout(_, _, _) =>
      case _ => assert events[1] == ProductUpdated;
    }
  }
}
