/** What overlapping checkouts add up to: a serial run, no deadlock, no oversale, one order per key. */
module CheckoutRuns {
  import opened Results
  import opened CartSplit
  import opened CheckoutLocks
  import B = OrderBooks
  import BooksLaws

  // ---------------------------------------------------------------------
  // Serial equivalence
  // ---------------------------------------------------------------------

  /** Whatever the interleaving, the committed rows are those of the committed attempts run one after another. */
  lemma InterleavingIsSerial(attempts: seq<Attempt>, table: Table, steps: seq<Step>)
    requires AreAttempts(attempts) && IsRun(attempts, Start(attempts, table), steps)
    ensures Inv(attempts, table, Run(attempts, Start(attempts, table), steps))
    ensures var s := Run(attempts, Start(attempts, table), steps);
            IsLog(attempts, s.log) && Serial(attempts, table, s.log) == Some(s.committed)
  {
    StartIsSound(attempts, table);
    RunKeeps(attempts, table, Start(attempts, table), steps);
  }

  function RowUnits(takes: seq<Take>, r: Row): nat {
    if takes == [] then 0 else (if takes[0].row == r then takes[0].quantity else 0) + RowUnits(takes[1..], r)
  }

  function Sold(attempts: seq<Attempt>, log: seq<nat>, r: Row): nat
    requires IsLog(attempts, log)
  {
    if log == [] then 0 else Sold(attempts, log[..|log| - 1], r) + RowUnits(TakesOf(attempts[log[|log| - 1]]), r)
  }

  lemma {:induction false} TakeRowsTakes(table: Table, takes: seq<Take>, r: Row)
    requires TakeRows(table, takes).Some?
    ensures TakeRows(table, takes).value.Keys == table.Keys
    ensures r in table ==> TakeRows(table, takes).value[r] + RowUnits(takes, r) == table[r]
    ensures r !in table ==> RowUnits(takes, r) == 0
    decreases |takes|
  {
    if takes != [] {
      TakeRowsTakes(table[takes[0].row := table[takes[0].row] - takes[0].quantity], takes[1..], r);
    }
  }

  lemma {:induction false} SerialSells(attempts: seq<Attempt>, initial: Table, log: seq<nat>, r: Row)
    requires IsLog(attempts, log) && Serial(attempts, initial, log).Some?
    ensures Serial(attempts, initial, log).value.Keys == initial.Keys
    ensures r in initial ==> Serial(attempts, initial, log).value[r] + Sold(attempts, log, r) == initial[r]
  {
    hide TakesOf, TakeRows;
    if log != [] {
      var n := |log| - 1;
      SerialSells(attempts, initial, log[..n], r);
      TakeRowsTakes(Serial(attempts, initial, log[..n]).value, TakesOf(attempts[log[n]]), r);
    }
  }

  /** Committed units and units sold add up to the initial ones in every reachable state, so nothing is oversold. */
  lemma NothingOversold(attempts: seq<Attempt>, table: Table, steps: seq<Step>, r: Row)
    requires AreAttempts(attempts) && IsRun(attempts, Start(attempts, table), steps) && r in table
    ensures var s := Run(attempts, Start(attempts, table), steps);
            IsLog(attempts, s.log) && r in s.committed && s.committed[r] + Sold(attempts, s.log, r) == table[r]
  {
    InterleavingIsSerial(attempts, table, steps);
    SerialSells(attempts, table, Run(attempts, Start(attempts, table), steps).log, r);
  }

  lemma {:induction false} SoldAtLeast(attempts: seq<Attempt>, log: seq<nat>, r: Row, i: nat, j: nat)
    requires IsLog(attempts, log) && i < j < |log|
    ensures Sold(attempts, log, r) >= RowUnits(TakesOf(attempts[log[i]]), r) + RowUnits(TakesOf(attempts[log[j]]), r)
  {
    hide TakesOf, RowUnits;
    var n := |log| - 1;
    var init := log[..n];
    if j < n {
      SoldAtLeast(attempts, init, r, i, j);
      assert init[i] == log[i] && init[j] == log[j];
    } else {
      SoldSome(attempts, init, r, i);
      assert init[i] == log[i];
    }
  }

  lemma {:induction false} SoldSome(attempts: seq<Attempt>, log: seq<nat>, r: Row, i: nat)
    requires IsLog(attempts, log) && i < |log|
    ensures Sold(attempts, log, r) >= RowUnits(TakesOf(attempts[log[i]]), r)
  {
    hide TakesOf, RowUnits;
    var n := |log| - 1;
    if i < n {
      SoldSome(attempts, log[..n], r, i);
    }
  }

  predicate Buys(a: Attempt, auction: nat) {
    a.goods.Won? && a.goods.auction == auction
  }

  /** An auction is bought at most once, however many purchase attempts overlap. */
  lemma OnePurchasePerAuction(attempts: seq<Attempt>, table: Table, steps: seq<Step>, auction: nat, i: nat, j: nat)
    requires AreAttempts(attempts) && IsRun(attempts, Start(attempts, table), steps)
    requires AuctionRow(auction) in table && table[AuctionRow(auction)] == 1
    requires var log := Run(attempts, Start(attempts, table), steps).log;
             i < |log| && j < |log| && log[i] < |attempts| && log[j] < |attempts|
             && Buys(attempts[log[i]], auction) && Buys(attempts[log[j]], auction)
    ensures i == j
  {
    var r, log := AuctionRow(auction), Run(attempts, Start(attempts, table), steps).log;
    NothingOversold(attempts, table, steps, r);
    assert RowUnits(TakesOf(attempts[log[i]]), r) >= 1 && RowUnits(TakesOf(attempts[log[j]]), r) >= 1;
    hide TakesOf, RowUnits, Sold;
    if i < j {
      SoldAtLeast(attempts, log, r, i, j);
    } else if j < i {
      SoldAtLeast(attempts, log, r, j, i);
    }
  }

  // ---------------------------------------------------------------------
  // The order books the commits write
  // ---------------------------------------------------------------------

  /** The product rows, as the books keep them. */
  function StockOf(table: Table): B.Stock {
    map r | r in table && r.ProductRow? :: r.id := table[r]
  }

  lemma StockOfUpdate(table: Table, r: Row, value: nat)
    ensures StockOf(table[r := value]) == if r.ProductRow? then StockOf(table)[r.id := value] else StockOf(table)
  {
    var updated := StockOf(table[r := value]);
    var expected := if r.ProductRow? then StockOf(table)[r.id := value] else StockOf(table);
    assert forall p: nat :: p in updated <==> ProductRow(p) in table[r := value];
    assert forall p: nat :: p in expected <==> ProductRow(p) in table[r := value];
  }

  lemma StockOfRow(table: Table, p: nat)
    ensures p in StockOf(table) <==> ProductRow(p) in table
    ensures p in StockOf(table) ==> StockOf(table)[p] == table[ProductRow(p)]
  {}

  /** One whole attempt against the books, with nobody else around: a checkout or a purchase. */
  function Record(b: B.Books, a: Attempt): B.Books {
    match a.goods
    case Cart(lines) => B.Checkout(b, a.customer, a.key, lines, a.now)
    case Won(_, lot) => B.Purchase(b, a.customer, a.key, lot, a.now)
  }

  function Outcome(b: B.Books, a: Attempt): Result<B.CheckoutReply, B.CheckoutError> {
    match a.goods
    case Cart(lines) => B.CheckoutOutcome(b, a.customer, a.key, lines)
    case Won(_, lot) => B.PurchaseOutcome(b, a.customer, a.key, lot)
  }

  function Books(attempts: seq<Attempt>, b: B.Books, log: seq<nat>): B.Books
    requires IsLog(attempts, log)
  {
    if log == [] then b else Record(Books(attempts, b, log[..|log| - 1]), attempts[log[|log| - 1]])
  }

  lemma {:induction false} LineTakesMatch(stock: B.Stock, table: Table, lines: seq<Line>)
    requires stock == StockOf(table) && TakeRows(table, LineTakes(lines)).Some?
    ensures B.TakeAll(stock, lines).Some?
    ensures B.TakeAll(stock, lines).value == StockOf(TakeRows(table, LineTakes(lines)).value)
    decreases |lines|
  {
    if lines != [] {
      var l := lines[0];
      var take := LineTakes(lines)[0];
      assert LineTakes(lines)[1..] == LineTakes(lines[1..]);
      StockOfRow(table, l.product);
      StockOfUpdate(table, take.row, table[take.row] - take.quantity);
      LineTakesMatch(stock[l.product := stock[l.product] - l.quantity],
                     table[take.row := table[take.row] - take.quantity], lines[1..]);
    }
  }

  lemma TakesMatch(stock: B.Stock, table: Table, a: Attempt)
    requires stock == StockOf(table) && TakeRows(table, TakesOf(a)).Some?
    ensures B.TakeAll(stock, LinesOf(a)).Some?
    ensures B.TakeAll(stock, LinesOf(a)).value == StockOf(TakeRows(table, TakesOf(a)).value)
  {
    hide LineTakes, LinesOf, B.TakeAll;
    if a.goods.Won? {
      var r := AuctionRow(a.goods.auction);
      assert TakesOf(a)[1..] == LineTakes(LinesOf(a));
      StockOfUpdate(table, r, table[r] - 1);
      LineTakesMatch(stock, table[r := table[r] - 1], LinesOf(a));
    } else {
      assert TakesOf(a) == LineTakes(LinesOf(a));
      LineTakesMatch(stock, table, LinesOf(a));
    }
  }

  predicate IsLogged(attempts: seq<Attempt>, log: seq<nat>, k: (nat, string))
    requires IsLog(attempts, log)
  {
    exists i :: 0 <= i < |log| && KeyOf(attempts[log[i]]) == k
  }

  /** The books' claims are the log's, each with its own order. */
  predicate ClaimsRecorded(attempts: seq<Attempt>, b: B.Books, b': B.Books, log: seq<nat>)
    requires IsLog(attempts, log)
  {
    && |b'.orders| == |b.orders| + |log|
    && (forall k | k in b'.claims :: k in b.claims || IsLogged(attempts, log, k))
    && (forall i | 0 <= i < |log| ::
          KeyOf(attempts[log[i]]) in b'.claims && b'.claims[KeyOf(attempts[log[i]])] == |b.orders| + i)
  }

  predicate KeysDiffer(attempts: seq<Attempt>, log: seq<nat>)
    requires IsLog(attempts, log)
  {
    forall i, j | 0 <= i < j < |log| :: KeyOf(attempts[log[i]]) != KeyOf(attempts[log[j]])
  }

  predicate NoneRefused(attempts: seq<Attempt>, log: seq<nat>)
    requires IsLog(attempts, log)
  {
    forall i | 0 <= i < |log| :: !Refused(attempts[log[i]])
  }

  /** What a commit log is like: different keys, and no cart that could not be bought as read. */
  predicate IsOrderly(attempts: seq<Attempt>, log: seq<nat>)
    requires IsLog(attempts, log)
  {
    KeysDiffer(attempts, log) && NoneRefused(attempts, log)
  }

  lemma OrderlyUpTo(attempts: seq<Attempt>, log: seq<nat>, i: nat)
    requires IsLog(attempts, log) && IsOrderly(attempts, log) && i <= |log|
    ensures IsLog(attempts, log[..i]) && IsOrderly(attempts, log[..i])
    ensures i < |log| ==> !IsLogged(attempts, log[..i], KeyOf(attempts[log[i]])) && !Refused(attempts[log[i]])
  {
    hide KeyOf, Refused;
    assert forall j | 0 <= j < i :: log[..i][j] == log[j];
  }

  lemma LogIsOrderly(attempts: seq<Attempt>, initial: Table, s: System)
    requires Inv(attempts, initial, s)
    ensures IsOrderly(attempts, s.log)
  {
    hide LocksAgree, IsSerial, KeyOf, Refused;
    assert forall i | 0 <= i < |s.log| :: s.log[i] in s.log;
  }

  /** An attempt whose key is free, whose rows suffice and whose cart is in order is placed. */
  lemma RecordPlaces(b: B.Books, a: Attempt)
    requires !Refused(a) && KeyOf(a) !in b.claims && B.TakeAll(b.stock, LinesOf(a)).Some?
    ensures Outcome(b, a) == Ok(B.Placed(|b.orders|))
    ensures var b' := Record(b, a);
            && b'.stock == B.TakeAll(b.stock, LinesOf(a)).value && |b'.orders| == |b.orders| + 1
            && b'.claims == b.claims[KeyOf(a) := |b.orders|]
  {
    hide Split, TotalCents, B.StockEvents, B.AddSellerOrders, BooksLaws.SumBy, B.TakeAll, B.FirstRefused;
    var lines := LinesOf(a);
    var taken := b.(stock := B.TakeAll(b.stock, lines).value,
                    orders := b.orders + [B.Order(a.customer, a.key, TotalCents(lines))]);
    BooksLaws.AddingTakesUnits(taken, |b.orders|, Split(lines), a.now, 0);
  }

  /** After all the others, the last attempt of a log is placed by one atomic checkout or purchase, guard and all. */
  predicate PlacesLast(attempts: seq<Attempt>, b: B.Books, log: seq<nat>)
    requires IsLog(attempts, log) && log != []
  {
    var n := |log| - 1;
    var before := Books(attempts, b, log[..n]);
    Outcome(before, attempts[log[n]]) == Ok(B.Placed(|before.orders|)) && |before.orders| == |b.orders| + n
  }

  lemma ClaimsGrowWithLog(attempts: seq<Attempt>, b: B.Books, b1: B.Books, b2: B.Books, log: seq<nat>)
    requires IsLog(attempts, log) && log != [] && IsOrderly(attempts, log)
    requires ClaimsRecorded(attempts, b, b1, log[..|log| - 1])
    requires |b2.orders| == |b1.orders| + 1 && b2.claims == b1.claims[KeyOf(attempts[log[|log| - 1]]) := |b1.orders|]
    ensures ClaimsRecorded(attempts, b, b2, log)
  {}

  lemma KeyNotClaimed(attempts: seq<Attempt>, b: B.Books, b': B.Books, log: seq<nat>, k: (nat, string))
    requires IsLog(attempts, log) && ClaimsRecorded(attempts, b, b', log)
    requires k !in b.claims && !IsLogged(attempts, log, k)
    ensures k !in b'.claims && |b'.orders| == |b.orders| + |log|
  {}

  lemma LastIsReady(attempts: seq<Attempt>, initial: Table, b: B.Books, before: B.Books, log: seq<nat>)
    requires IsLog(attempts, log) && log != [] && Serial(attempts, initial, log).Some?
    requires IsOrderly(attempts, log) && b.claims == map[]
    requires ClaimsRecorded(attempts, b, before, log[..|log| - 1])
    requires Serial(attempts, initial, log[..|log| - 1]).Some?
    requires before.stock == StockOf(Serial(attempts, initial, log[..|log| - 1]).value)
    ensures var a := attempts[log[|log| - 1]];
            && !Refused(a) && KeyOf(a) !in before.claims && |before.orders| == |b.orders| + |log| - 1
            && B.TakeAll(before.stock, LinesOf(a)).Some?
            && B.TakeAll(before.stock, LinesOf(a)).value == StockOf(Serial(attempts, initial, log).value)
  {
    var n := |log| - 1;
    var init, a := log[..n], attempts[log[n]];
    assert Serial(attempts, initial, log) == TakeRows(Serial(attempts, initial, init).value, TakesOf(a));
    hide TakesOf, TakeRows, B.TakeAll, StockOf, KeyOf, LinesOf, Refused, ClaimsRecorded, Serial;
    OrderlyUpTo(attempts, log, n);
    hide IsOrderly, IsLogged;
    TakesMatch(before.stock, Serial(attempts, initial, init).value, a);
    KeyNotClaimed(attempts, b, before, init, KeyOf(a));
  }

  lemma LastIsPlaced(attempts: seq<Attempt>, initial: Table, b: B.Books, before: B.Books, log: seq<nat>)
    requires IsLog(attempts, log) && log != [] && Serial(attempts, initial, log).Some?
    requires IsOrderly(attempts, log) && b.claims == map[]
    requires ClaimsRecorded(attempts, b, before, log[..|log| - 1])
    requires Serial(attempts, initial, log[..|log| - 1]).Some?
    requires before.stock == StockOf(Serial(attempts, initial, log[..|log| - 1]).value)
    ensures var a := attempts[log[|log| - 1]];
            && Outcome(before, a) == Ok(B.Placed(|before.orders|)) && |before.orders| == |b.orders| + |log| - 1
            && Record(before, a).stock == StockOf(Serial(attempts, initial, log).value)
  {
    var a := attempts[log[|log| - 1]];
    hide *;
    LastIsReady(attempts, initial, b, before, log);
    RecordPlaces(before, a);
  }

  lemma LastIsClaimed(attempts: seq<Attempt>, initial: Table, b: B.Books, before: B.Books, log: seq<nat>)
    requires IsLog(attempts, log) && log != [] && Serial(attempts, initial, log).Some?
    requires IsOrderly(attempts, log) && b.claims == map[]
    requires ClaimsRecorded(attempts, b, before, log[..|log| - 1])
    requires Serial(attempts, initial, log[..|log| - 1]).Some?
    requires before.stock == StockOf(Serial(attempts, initial, log[..|log| - 1]).value)
    ensures ClaimsRecorded(attempts, b, Record(before, attempts[log[|log| - 1]]), log)
  {
    var a := attempts[log[|log| - 1]];
    hide *;
    LastIsReady(attempts, initial, b, before, log);
    RecordPlaces(before, a);
    ClaimsGrowWithLog(attempts, b, before, Record(before, a), log);
  }

  /** Recorded one after another in commit order, every attempt is placed and leaves the stock its rows hold. */
  lemma {:induction false} BooksFollowLog(attempts: seq<Attempt>, initial: Table, b: B.Books, log: seq<nat>)
    requires IsLog(attempts, log) && Serial(attempts, initial, log).Some? && b.stock == StockOf(initial)
    requires IsOrderly(attempts, log) && b.claims == map[]
    ensures Books(attempts, b, log).stock == StockOf(Serial(attempts, initial, log).value)
    ensures ClaimsRecorded(attempts, b, Books(attempts, b, log), log)
    ensures log != [] ==> PlacesLast(attempts, b, log)
  {
    hide TakesOf, TakeRows, Record, Outcome, StockOf, Refused, IsOrderly;
    if log != [] {
      hide ClaimsRecorded;
      var n := |log| - 1;
      OrderlyUpTo(attempts, log, n);
      SerialPrefix(attempts, initial, log, n);
      BooksFollowLog(attempts, initial, b, log[..n]);
      LastIsPlaced(attempts, initial, b, Books(attempts, b, log[..n]), log);
      LastIsClaimed(attempts, initial, b, Books(attempts, b, log[..n]), log);
    }
  }

  /**
   The atomic checkout and purchase of the order books are what overlapping attempts implement: at its place in the
   log every committed attempt is placed, guard and all, and the books they add up to hold the stock of the rows.
   */
  lemma CommitsAreCheckouts(attempts: seq<Attempt>, table: Table, steps: seq<Step>, b: B.Books, i: nat)
    requires AreAttempts(attempts) && IsRun(attempts, Start(attempts, table), steps)
    requires b.stock == StockOf(table) && b.claims == map[]
    requires i < |Run(attempts, Start(attempts, table), steps).log|
    ensures var s := Run(attempts, Start(attempts, table), steps);
            && IsLog(attempts, s.log) && Books(attempts, b, s.log).stock == StockOf(s.committed)
            && IsLog(attempts, s.log[..i + 1]) && PlacesLast(attempts, b, s.log[..i + 1])
  {
    InterleavingIsSerial(attempts, table, steps);
    var s := Run(attempts, Start(attempts, table), steps);
    LogIsOrderly(attempts, table, s);
    hide Run, Inv, IsOrderly, StockOf, PlacesLast, Serial;
    BooksFollowLog(attempts, table, b, s.log);
    OrderlyUpTo(attempts, s.log, i + 1);
    SerialPrefix(attempts, table, s.log, i + 1);
    BooksFollowLog(attempts, table, b, s.log[..i + 1]);
  }

  lemma {:induction false} SerialPrefix(attempts: seq<Attempt>, initial: Table, log: seq<nat>, i: nat)
    requires IsLog(attempts, log) && Serial(attempts, initial, log).Some? && i <= |log|
    ensures IsLog(attempts, log[..i]) && Serial(attempts, initial, log[..i]).Some?
  {
    if i == |log| {
      assert log[..i] == log;
    } else {
      var init := log[..|log| - 1];
      SerialPrefix(attempts, initial, init, i);
      assert init[..i] == log[..i];
    }
  }

  // ---------------------------------------------------------------------
  // Idempotency
  // ---------------------------------------------------------------------

  /** Per customer and key at most one attempt commits, and a replay names that one. */
  lemma OneOrderPerKey(attempts: seq<Attempt>, table: Table, steps: seq<Step>, t: nat, u: nat)
    requires AreAttempts(attempts) && IsRun(attempts, Start(attempts, table), steps)
    requires t < |attempts| && u < |attempts| && KeyOf(attempts[t]) == KeyOf(attempts[u])
    ensures var phases := Run(attempts, Start(attempts, table), steps).phases;
            && |phases| == |attempts|
            && (phases[t].Committed? && phases[u].Committed? ==> t == u)
            && (phases[t].Replayed? && phases[u].Committed? ==> phases[t].original == u)
            && (phases[t].Replayed? ==> phases[t].original < |attempts| && phases[phases[t].original].Committed?
                                        && KeyOf(attempts[phases[t].original]) == KeyOf(attempts[t]))
  {
    InterleavingIsSerial(attempts, table, steps);
    hide LocksAgree, LogAgrees, IsSerial, KeyOf;
  }

  /** A rolled-back attempt leaves its key free: the next attempt with that key runs instead of replaying or waiting. */
  lemma AbortFreesKey(attempts: seq<Attempt>, initial: Table, s: System, t: nat, u: nat)
    requires Inv(attempts, initial, s) && IsRunning(s, t)
    requires u < |attempts| && s.phases[u].Waiting? && KeyOf(attempts[u]) == KeyOf(attempts[t])
    ensures Blocked(attempts, s, u)
    ensures var s' := Abort(attempts, s, t);
            !Blocked(attempts, s', u) && Act(attempts, s', u).phases[u] == Running(0)
  {}

  // ---------------------------------------------------------------------
  // Progress
  // ---------------------------------------------------------------------

  /** The locked rows at or after a row in lock order. */
  function From(s: System, r: Row): set<Row> {
    set x | x in s.versions && (x == r || Before(r, x))
  }

  function Awaited(attempts: seq<Attempt>, s: System, t: nat): Row
    requires t < |attempts| && IsRunning(s, t) && Blocked(attempts, s, t)
  {
    TakesOf(attempts[t])[s.phases[t].at].row
  }

  /** Waiting chains climb the lock order, so following them ends at an attempt that can act. */
  lemma {:induction false} ChainEnds(attempts: seq<Attempt>, s: System, t: nat) returns (u: nat)
    requires LocksAgree(attempts, s) && AreAttempts(attempts)
    requires t < |attempts| && IsRunning(s, t) && Blocked(attempts, s, t)
    ensures u < |attempts| && IsRunning(s, u) && !Blocked(attempts, s, u)
    decreases From(s, Awaited(attempts, s, t))
  {
    var r := Awaited(attempts, s, t);
    u := s.versions[r].owner;
    OwnerWaitsHigher(attempts, s, r);
    if Blocked(attempts, s, u) {
      var r' := Awaited(attempts, s, u);
      assert r in From(s, r) && r !in From(s, r');
      u := ChainEnds(attempts, s, u);
    }
  }

  lemma OwnerWaitsHigher(attempts: seq<Attempt>, s: System, r: Row)
    requires LocksAgree(attempts, s) && AreAttempts(attempts) && r in s.versions
    ensures var u := s.versions[r].owner;
            && u < |attempts| && IsRunning(s, u)
            && (Blocked(attempts, s, u) ==> Before(r, Awaited(attempts, s, u)))
  {
    hide TakesOf;
    var u := s.versions[r].owner;
    var takes, at := TakesOf(attempts[u]), s.phases[u].at;
    assert IsRunning(s, u) && HoldsItsRows(attempts[u], s, u);
    assert HoldsRow(takes, at, r);
    assert attempts[u] in attempts;
    TakesAscend(attempts[u]);
  }

  /** No deadlock: while any attempt is unfinished, some attempt can act. */
  lemma NoDeadlock(attempts: seq<Attempt>, table: Table, steps: seq<Step>, t: nat) returns (u: nat)
    requires AreAttempts(attempts) && IsRun(attempts, Start(attempts, table), steps)
    requires IsUnfinished(Run(attempts, Start(attempts, table), steps), t)
    ensures Enabled(attempts, Run(attempts, Start(attempts, table), steps), DoAct(u))
  {
    InterleavingIsSerial(attempts, table, steps);
    var s := Run(attempts, Start(attempts, table), steps);
    u := t;
    if Blocked(attempts, s, u) && s.phases[u].Waiting? {
      u := s.claims[KeyOf(attempts[u])];
    }
    if Blocked(attempts, s, u) {
      u := ChainEnds(attempts, s, u);
    }
  }

  function Work(a: Attempt, phase: Phase): int {
    match phase
    case Waiting => |TakesOf(a)| + 2
    case Running(at) => |TakesOf(a)| + 1 - at
    case _ => 0
  }

  function WorkLeft(attempts: seq<Attempt>, phases: seq<Phase>): int
    requires |phases| == |attempts|
  {
    if phases == [] then 0 else Work(attempts[0], phases[0]) + WorkLeft(attempts[1..], phases[1..])
  }

  lemma {:induction false} WorkAfter(attempts: seq<Attempt>, phases: seq<Phase>, t: nat, phase: Phase)
    requires |phases| == |attempts| && t < |phases|
    ensures WorkLeft(attempts, phases[t := phase])
         == WorkLeft(attempts, phases) - Work(attempts[t], phases[t]) + Work(attempts[t], phase)
    decreases t
  {
    hide Work;
    if t == 0 {
      assert phases[t := phase][1..] == phases[1..];
    } else {
      WorkAfter(attempts[1..], phases[1..], t - 1, phase);
      assert phases[t := phase][1..] == phases[1..][t - 1 := phase];
    }
  }

  lemma {:induction false} WorkIsNatural(attempts: seq<Attempt>, phases: seq<Phase>)
    requires |phases| == |attempts|
    requires forall t: nat | t < |phases| && phases[t].Running? :: phases[t].at <= |TakesOf(attempts[t])|
    ensures WorkLeft(attempts, phases) >= 0
  {
    hide TakesOf;
    if phases != [] {
      WorkIsNatural(attempts[1..], phases[1..]);
    }
  }

  /** Every step, a failure included, uses up some of the work that is left. */
  lemma StepUsesWork(attempts: seq<Attempt>, initial: Table, s: System, step: Step)
    requires Inv(attempts, initial, s) && AreAttempts(attempts) && Enabled(attempts, s, step)
    ensures WorkLeft(attempts, Apply(attempts, s, step).phases) < WorkLeft(attempts, s.phases)
  {
    hide TakesOf, WorkLeft, Refused;
    var t := step.t;
    assert s.phases[t].Running? ==> IsRunning(s, t) && HoldsItsRows(attempts[t], s, t);
    WorkAfter(attempts, s.phases, t, Apply(attempts, s, step).phases[t]);
  }

  /** A run is never longer than the work its attempts bring; with no deadlock, every attempt therefore finishes. */
  lemma {:induction false} RunsEnd(attempts: seq<Attempt>, initial: Table, s: System, steps: seq<Step>)
    requires Inv(attempts, initial, s) && AreAttempts(attempts) && IsRun(attempts, s, steps)
    ensures |Run(attempts, s, steps).phases| == |attempts|
    ensures |steps| <= WorkLeft(attempts, s.phases) - WorkLeft(attempts, Run(attempts, s, steps).phases)
    ensures WorkLeft(attempts, Run(attempts, s, steps).phases) >= 0
    decreases |steps|
  {
    if steps == [] {
      assert forall t: nat | t < |s.phases| && s.phases[t].Running? ::
        IsRunning(s, t) && HoldsItsRows(attempts[t], s, t);
      WorkIsNatural(attempts, s.phases);
    } else {
      hide Inv, WorkLeft, Apply;
      StepKeeps(attempts, initial, s, steps[0]);
      StepUsesWork(attempts, initial, s, steps[0]);
      RunsEnd(attempts, initial, Apply(attempts, s, steps[0]), steps[1..]);
    }
  }

  predicate CanContinue(attempts: seq<Attempt>, s: System) {
    exists t: nat :: t < |attempts| && (Enabled(attempts, s, DoAct(t)) || Enabled(attempts, s, DoFail(t)))
  }

  /**
   Every attempt finishes: a run that cannot be extended has left none unfinished, and no run can be extended more
   often than the work its attempts bring.
   */
  lemma EveryAttemptFinishes(attempts: seq<Attempt>, table: Table, steps: seq<Step>)
    requires AreAttempts(attempts) && IsRun(attempts, Start(attempts, table), steps)
    ensures |steps| <= WorkLeft(attempts, Start(attempts, table).phases)
    ensures var s := Run(attempts, Start(attempts, table), steps);
            CanContinue(attempts, s) <==> exists t: nat :: IsUnfinished(s, t)
  {
    var start := Start(attempts, table);
    var s := Run(attempts, start, steps);
    StartIsSound(attempts, table);
    RunsEnd(attempts, table, start, steps);
    hide Run, Start, Inv, WorkLeft;
    if t: nat :| IsUnfinished(s, t) {
      var u := NoDeadlock(attempts, table, steps, t);
      assert u < |attempts| && Enabled(attempts, s, DoAct(u));
    }
    assert forall t: nat | Enabled(attempts, s, DoAct(t)) || Enabled(attempts, s, DoFail(t)) :: IsUnfinished(s, t);
  }

  // ---------------------------------------------------------------------
  // Why the cart is read in product order
  // ---------------------------------------------------------------------

  function OneOf(product: nat): Line {
    Line(product, 0, 0, Some(100), true, true, 1)
  }

  function BuyPair(customer: nat, first: nat, second: nat): Attempt {
    Attempt(customer, "key", Cart([OneOf(first), OneOf(second)]), 0)
  }

  lemma PairTakes(customer: nat, first: nat, second: nat)
    ensures TakesOf(BuyPair(customer, first, second)) == [Take(ProductRow(first), 1), Take(ProductRow(second), 1)]
    ensures !Refused(BuyPair(customer, first, second))
  {
    var lines := LinesOf(BuyPair(customer, first, second));
    LineTakesAre(lines);
    assert B.FirstRefused(lines, 2).None? && B.FirstRefused(lines, 1).None?;
  }

  /** Two carts that take the same two rows in opposite orders stop each other for good. */
  lemma OppositeOrdersDeadlock(table: Table)
    requires ProductRow(1) in table && ProductRow(2) in table && table[ProductRow(1)] >= 1 && table[ProductRow(2)] >= 1
    ensures var attempts := [BuyPair(7, 1, 2), BuyPair(8, 2, 1)];
            var steps := [DoAct(0), DoAct(1), DoAct(0), DoAct(1)];
            && IsRun(attempts, Start(attempts, table), steps)
            && var s := Run(attempts, Start(attempts, table), steps);
               IsRunning(s, 0) && IsRunning(s, 1) && Blocked(attempts, s, 0) && Blocked(attempts, s, 1)
  {
    PairTakes(7, 1, 2);
    PairTakes(8, 2, 1);
    var a, b := BuyPair(7, 1, 2), BuyPair(8, 2, 1);
    assert KeyOf(a) == (7, "key") && KeyOf(b) == (8, "key");
    hide TakesOf, Refused, KeyOf, BuyPair, OneOf;
    var attempts := [a, b];
    var s0 := Start(attempts, table);
    var s1 := Apply(attempts, s0, DoAct(0));
    var s2 := Apply(attempts, s1, DoAct(1));
    var s3 := Apply(attempts, s2, DoAct(0));
    var s4 := Apply(attempts, s3, DoAct(1));
    assert s4.phases == [Running(1), Running(1)];
    RunOfFour(attempts, s0, [DoAct(0), DoAct(1), DoAct(0), DoAct(1)]);
  }

  lemma RunOfFour(attempts: seq<Attempt>, s: System, steps: seq<Step>)
    requires |steps| == 4 && Enabled(attempts, s, steps[0])
    requires var s1 := Apply(attempts, s, steps[0]);
             Enabled(attempts, s1, steps[1])
             && var s2 := Apply(attempts, s1, steps[1]);
                Enabled(attempts, s2, steps[2]) && Enabled(attempts, Apply(attempts, s2, steps[2]), steps[3])
    ensures IsRun(attempts, s, steps)
    ensures Run(attempts, s, steps)
         == Apply(
              attempts, Apply(attempts, Apply(attempts, Apply(attempts, s, steps[0]), steps[1]), steps[2]), steps[3])
  {
    hide Apply, Enabled;
    var s1 := Apply(attempts, s, steps[0]);
    var s2 := Apply(attempts, s1, steps[1]);
    var s3 := Apply(attempts, s2, steps[2]);
    var rest, last := steps[1..][1..], [steps[3]];
    assert rest[0] == steps[2] && rest[1..] == last && last[1..] == [];
    assert IsRun(attempts, s3, last) && Run(attempts, s3, last) == Apply(attempts, s3, steps[3]);
    assert IsRun(attempts, s2, rest) && Run(attempts, s2, rest) == Run(attempts, s3, last);
    assert IsRun(attempts, s1, steps[1..]) && Run(attempts, s1, steps[1..]) == Run(attempts, s2, rest);
  }
}
