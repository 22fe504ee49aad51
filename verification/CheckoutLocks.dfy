/**
 Checkouts that overlap. An attempt inserts its idempotency claim, then updates rows one by one under guards, each
 update locking its row until the transaction ends, then commits or rolls back. A winner's purchase goes through
 the same claims and rows; its auction row comes first, and holds one unit while payment is awaited.
 */
module CheckoutLocks {
  import opened Results
  import opened CartSplit
  import B = OrderBooks

  // ---------------------------------------------------------------------
  // Rows, attempts and the tables they share
  // ---------------------------------------------------------------------

  datatype Row = AuctionRow(id: nat) | ProductRow(id: nat)

  /** The order in which every checkout takes its locks. */
  predicate Before(a: Row, b: Row) {
    if a.AuctionRow? == b.AuctionRow? then a.id < b.id else a.AuctionRow?
  }

  type Table = map<Row, nat>

  datatype Take = Take(row: Row, quantity: nat)

  /** A cart's rows as read, or the one lot of an auction won. */
  datatype Goods = Cart(lines: seq<Line>) | Won(auction: nat, lot: B.Lot)

  datatype Attempt = Attempt(customer: nat, key: string, goods: Goods, now: int)

  function LinesOf(a: Attempt): seq<Line> {
    match a.goods
    case Cart(lines) => lines
    case Won(_, lot) => [B.LotLine(lot)]
  }

  function KeyOf(a: Attempt): (nat, string) {
    (a.customer, a.key)
  }

  function LineTakes(lines: seq<Line>): seq<Take> {
    if lines == [] then [] else [Take(ProductRow(lines[0].product), lines[0].quantity)] + LineTakes(lines[1..])
  }

  /** The guarded updates of an attempt, in the order it issues them. */
  function TakesOf(a: Attempt): seq<Take> {
    (if a.goods.Won? then [Take(AuctionRow(a.goods.auction), 1)] else []) + LineTakes(LinesOf(a))
  }

  /** Cart rows are read in product order, and a cart has one row per product. */
  predicate IsAttempt(a: Attempt) {
    forall i, j | 0 <= i < j < |LinesOf(a)| :: LinesOf(a)[i].product < LinesOf(a)[j].product
  }

  /** A cart that cannot be bought as read. */
  predicate Refused(a: Attempt) {
    a.goods.Cart? && (a.goods.lines == [] || B.FirstRefused(a.goods.lines, 0).Some?)
  }

  /** `at` counts the updates already made. */
  datatype Phase = Waiting | Running(at: nat) | Committed | Aborted | Replayed(original: nat)

  /** An uncommitted version of a row: who wrote it, and what. */
  datatype Version = Version(owner: nat, value: nat)

  /** `claims` holds committed and uncommitted claim rows; `log` the attempts in commit order. */
  datatype System = System(
    committed: Table, versions: map<Row, Version>, claims: map<(nat, string), nat>, phases: seq<Phase>, log: seq<nat>)

  // ---------------------------------------------------------------------
  // Steps
  // ---------------------------------------------------------------------

  predicate IsRunning(s: System, t: nat) {
    t < |s.phases| && s.phases[t].Running?
  }

  predicate IsUnfinished(s: System, t: nat) {
    t < |s.phases| && (s.phases[t].Waiting? || s.phases[t].Running?)
  }

  predicate Blocked(attempts: seq<Attempt>, s: System, t: nat)
    requires t < |attempts|
  {
    && t < |s.phases|
    && match s.phases[t]
       case Waiting => KeyOf(attempts[t]) in s.claims && IsRunning(s, s.claims[KeyOf(attempts[t])])
       case Running(at) =>
         && !Refused(attempts[t]) && at < |TakesOf(attempts[t])|
         && TakesOf(attempts[t])[at].row in s.versions
       case _ => true
  }

  function SetPhase(s: System, t: nat, phase: Phase): System
    requires t < |s.phases|
  {
    s.(phases := s.phases[t := phase])
  }

  /** Everything an attempt wrote disappears, its claim included. */
  function Abort(attempts: seq<Attempt>, s: System, t: nat): System
    requires t < |attempts| && t < |s.phases|
  {
    SetPhase(s, t, Aborted).(versions := map r | r in s.versions && s.versions[r].owner != t :: s.versions[r],
                             claims := s.claims - {KeyOf(attempts[t])})
  }

  function Commit(s: System, t: nat): System
    requires t < |s.phases|
  {
    SetPhase(s, t, Committed).(
      committed := map r | r in s.committed ::
        if r in s.versions && s.versions[r].owner == t then s.versions[r].value else s.committed[r],
      versions := map r | r in s.versions && s.versions[r].owner != t :: s.versions[r],
      log := s.log + [t])
  }

  predicate GuardHolds(s: System, take: Take) {
    take.row in s.committed && s.committed[take.row] >= take.quantity
  }

  function Update(s: System, t: nat, at: nat, take: Take): System
    requires t < |s.phases| && GuardHolds(s, take)
  {
    SetPhase(s, t, Running(at + 1)).(
      versions := s.versions[take.row := Version(t, s.committed[take.row] - take.quantity)])
  }

  /** What an attempt that is not blocked does next. */
  function Act(attempts: seq<Attempt>, s: System, t: nat): System
    requires t < |attempts| && |attempts| == |s.phases|
    requires IsUnfinished(s, t) && !Blocked(attempts, s, t)
  {
    var a := attempts[t];
    match s.phases[t]
    case Waiting =>
      if KeyOf(a) in s.claims then SetPhase(s, t, Replayed(s.claims[KeyOf(a)]))
      else SetPhase(s, t, Running(0)).(claims := s.claims[KeyOf(a) := t])
    case Running(at) =>
      if Refused(a) then Abort(attempts, s, t)
      else if at < |TakesOf(a)| then
        if GuardHolds(s, TakesOf(a)[at]) then Update(s, t, at, TakesOf(a)[at]) else Abort(attempts, s, t)
      else Commit(s, t)
  }

  /**
   An attempt acts, or a running one fails for a reason of its
   own: a lost connection, a wrong winner, a late payment.
   */
  datatype Step = DoAct(t: nat) | DoFail(t: nat)

  predicate Enabled(attempts: seq<Attempt>, s: System, step: Step) {
    && |attempts| == |s.phases| && step.t < |attempts|
    && match step
       case DoAct(t) => IsUnfinished(s, t) && !Blocked(attempts, s, t)
       case DoFail(t) => IsRunning(s, t)
  }

  function Apply(attempts: seq<Attempt>, s: System, step: Step): (s': System)
    requires Enabled(attempts, s, step)
    ensures |s'.phases| == |s.phases|
  {
    match step
    case DoAct(t) => Act(attempts, s, t)
    case DoFail(t) => Abort(attempts, s, t)
  }

  predicate IsRun(attempts: seq<Attempt>, s: System, steps: seq<Step>)
    decreases |steps|
  {
    steps == [] || (Enabled(attempts, s, steps[0]) && IsRun(attempts, Apply(attempts, s, steps[0]), steps[1..]))
  }

  function Run(attempts: seq<Attempt>, s: System, steps: seq<Step>): System
    requires IsRun(attempts, s, steps)
    decreases |steps|
  {
    if steps == [] then s else Run(attempts, Apply(attempts, s, steps[0]), steps[1..])
  }

  function Start(attempts: seq<Attempt>, table: Table): System {
    System(table, map[], map[], seq(|attempts|, i => Waiting), [])
  }

  // ---------------------------------------------------------------------
  // The serial reference
  // ---------------------------------------------------------------------

  /** All of one attempt's updates with nobody in between; None as soon as a guard fails. */
  function TakeRows(table: Table, takes: seq<Take>): Option<Table> {
    if takes == [] then Some(table)
    else
      var take := takes[0];
      if take.row in table && table[take.row] >= take.quantity then
        TakeRows(table[take.row := table[take.row] - take.quantity], takes[1..])
      else None
  }

  predicate IsLog(attempts: seq<Attempt>, log: seq<nat>) {
    forall i | 0 <= i < |log| :: log[i] < |attempts|
  }

  /** One whole attempt after another. */
  function Serial(attempts: seq<Attempt>, initial: Table, log: seq<nat>): Option<Table>
    requires IsLog(attempts, log)
  {
    if log == [] then Some(initial)
    else
      var n := |log| - 1;
      match Serial(attempts, initial, log[..n])
      case None => None
      case Some(table) => TakeRows(table, TakesOf(attempts[log[n]]))
  }

  // ---------------------------------------------------------------------
  // What every interleaving keeps
  // ---------------------------------------------------------------------

  predicate Ascend(takes: seq<Take>) {
    forall i, j | 0 <= i < j < |takes| :: Before(takes[i].row, takes[j].row)
  }

  lemma {:induction false} LineTakesAre(lines: seq<Line>)
    ensures |LineTakes(lines)| == |lines|
    ensures forall i | 0 <= i < |lines| :: LineTakes(lines)[i] == Take(ProductRow(lines[i].product), lines[i].quantity)
  {
    if lines != [] {
      LineTakesAre(lines[1..]);
    }
  }

  lemma TakesAscend(a: Attempt)
    requires IsAttempt(a)
    ensures Ascend(TakesOf(a))
  {
    LineTakesAre(LinesOf(a));
  }

  predicate AreAttempts(attempts: seq<Attempt>) {
    forall a | a in attempts :: IsAttempt(a)
  }

  predicate HoldsRow(takes: seq<Take>, at: nat, r: Row) {
    exists i :: 0 <= i < at && i < |takes| && takes[i].row == r
  }

  /**
   A running attempt holds exactly the rows it has updated,
   each one lower than the committed value by what it took.
   */
  predicate HoldsItsRows(a: Attempt, s: System, t: nat)
    requires IsRunning(s, t)
  {
    var takes, at := TakesOf(a), s.phases[t].at;
    && at <= |takes|
    && (forall i | 0 <= i < at ::
          && GuardHolds(s, takes[i]) && takes[i].row in s.versions
          && s.versions[takes[i].row] == Version(t, s.committed[takes[i].row] - takes[i].quantity))
    && (forall r | r in s.versions && s.versions[r].owner == t :: HoldsRow(takes, at, r))
  }

  ghost predicate LocksAgree(attempts: seq<Attempt>, s: System) {
    && |s.phases| == |attempts|
    && (forall t: nat | IsRunning(s, t) :: HoldsItsRows(attempts[t], s, t))
    && (forall r | r in s.versions :: IsRunning(s, s.versions[r].owner))
  }

  /** Claims and their holders determine each other. */
  ghost predicate ClaimsAgree(attempts: seq<Attempt>, s: System) {
    && |s.phases| == |attempts|
    && (forall k | k in s.claims ::
          var t := s.claims[k];
          t < |attempts| && KeyOf(attempts[t]) == k && (s.phases[t].Running? || s.phases[t].Committed?))
    && (forall t: nat | t < |attempts| && (s.phases[t].Running? || s.phases[t].Committed?) ::
          KeyOf(attempts[t]) in s.claims && s.claims[KeyOf(attempts[t])] == t)
    && (forall t: nat | t < |attempts| && s.phases[t].Replayed? ::
          KeyOf(attempts[t]) in s.claims && s.claims[KeyOf(attempts[t])] == s.phases[t].original
          && s.phases[t].original < |attempts| && s.phases[s.phases[t].original].Committed?)
  }

  /** The log lists the committed attempts, once each, and none of them was to be refused. */
  ghost predicate LogAgrees(attempts: seq<Attempt>, s: System) {
    && |s.phases| == |attempts|
    && (forall t | t in s.log :: t < |attempts| && s.phases[t].Committed? && !Refused(attempts[t]))
    && (forall i, j | 0 <= i < j < |s.log| :: s.log[i] != s.log[j])
    && (forall t: nat | t < |attempts| && s.phases[t].Committed? :: t in s.log)
  }

  predicate IsSerial(attempts: seq<Attempt>, initial: Table, s: System) {
    IsLog(attempts, s.log) && Serial(attempts, initial, s.log) == Some(s.committed)
  }

  ghost predicate Inv(attempts: seq<Attempt>, initial: Table, s: System) {
    LocksAgree(attempts, s) && ClaimsAgree(attempts, s) && LogAgrees(attempts, s) && IsSerial(attempts, initial, s)
  }

  lemma StartIsSound(attempts: seq<Attempt>, table: Table)
    ensures Inv(attempts, table, Start(attempts, table))
  {}

  lemma NoCommitKeepsLog(attempts: seq<Attempt>, s: System, s': System)
    requires LogAgrees(attempts, s)
    requires s'.log == s.log && |s'.phases| == |s.phases|
    requires forall u: nat | u < |s.phases| :: s'.phases[u].Committed? <==> s.phases[u].Committed?
    ensures LogAgrees(attempts, s')
  {}

  // Claiming

  lemma ClaimingKeeps(attempts: seq<Attempt>, initial: Table, s: System, t: nat)
    requires Inv(attempts, initial, s)
    requires t < |attempts| && s.phases[t].Waiting? && !Blocked(attempts, s, t)
    ensures Inv(attempts, initial, Act(attempts, s, t))
  {
    var s' := Act(attempts, s, t);
    assert IsSerial(attempts, initial, s');
    hide IsSerial, Refused;
    NoCommitKeepsLog(attempts, s, s');
    ClaimingKeepsLocks(attempts, s, t);
    ClaimingKeepsClaims(attempts, s, t);
    hide LocksAgree, ClaimsAgree, LogAgrees;
  }

  lemma ClaimingKeepsLocks(attempts: seq<Attempt>, s: System, t: nat)
    requires LocksAgree(attempts, s)
    requires t < |attempts| && s.phases[t].Waiting? && !Blocked(attempts, s, t)
    ensures LocksAgree(attempts, Act(attempts, s, t))
  {
    hide Refused, TakesOf;
    var s' := Act(attempts, s, t);
    forall u: nat | IsRunning(s', u)
      ensures HoldsItsRows(attempts[u], s', u)
    {
      assert u == t || HoldsItsRows(attempts[u], s, u);
      if u == t {
        assert forall r | r in s.versions :: s.versions[r].owner != t;
      }
    }
  }

  lemma ClaimingKeepsClaims(attempts: seq<Attempt>, s: System, t: nat)
    requires LocksAgree(attempts, s) && ClaimsAgree(attempts, s)
    requires t < |attempts| && s.phases[t].Waiting? && !Blocked(attempts, s, t)
    ensures ClaimsAgree(attempts, Act(attempts, s, t))
  {
    hide Refused, TakesOf, LocksAgree;
  }

  // Updating one row

  predicate CanUpdate(attempts: seq<Attempt>, s: System, t: nat) {
    && t < |attempts| && IsRunning(s, t) && !Refused(attempts[t])
    && s.phases[t].at < |TakesOf(attempts[t])| && !Blocked(attempts, s, t)
    && GuardHolds(s, TakesOf(attempts[t])[s.phases[t].at])
  }

  function Updated(attempts: seq<Attempt>, s: System, t: nat): System
    requires CanUpdate(attempts, s, t)
  {
    Update(s, t, s.phases[t].at, TakesOf(attempts[t])[s.phases[t].at])
  }

  lemma UpdatingKeeps(attempts: seq<Attempt>, initial: Table, s: System, t: nat)
    requires Inv(attempts, initial, s) && CanUpdate(attempts, s, t)
    ensures Inv(attempts, initial, Updated(attempts, s, t))
  {
    var s' := Updated(attempts, s, t);
    assert IsSerial(attempts, initial, s');
    hide IsSerial, Refused, TakesOf;
    NoCommitKeepsLog(attempts, s, s');
    UpdatingKeepsLocks(attempts, s, t);
    UpdatingKeepsClaims(attempts, s, t);
    hide LocksAgree, ClaimsAgree, LogAgrees;
  }

  lemma UpdatingKeepsClaims(attempts: seq<Attempt>, s: System, t: nat)
    requires ClaimsAgree(attempts, s) && CanUpdate(attempts, s, t)
    ensures ClaimsAgree(attempts, Updated(attempts, s, t))
  {}

  lemma UpdatingKeepsLocks(attempts: seq<Attempt>, s: System, t: nat)
    requires LocksAgree(attempts, s) && CanUpdate(attempts, s, t)
    ensures LocksAgree(attempts, Updated(attempts, s, t))
  {
    hide Refused, TakesOf;
    var takes, at := TakesOf(attempts[t]), s.phases[t].at;
    var s' := Updated(attempts, s, t);
    assert HoldsItsRows(attempts[t], s, t);
    UpdaterHoldsOneMore(attempts[t], s, t);
    forall u: nat | IsRunning(s', u)
      ensures HoldsItsRows(attempts[u], s', u)
    {
      if u != t {
        assert HoldsItsRows(attempts[u], s, u);
      }
    }
  }

  lemma UpdaterHoldsOneMore(a: Attempt, s: System, t: nat)
    requires IsRunning(s, t) && HoldsItsRows(a, s, t)
    requires s.phases[t].at < |TakesOf(a)| && TakesOf(a)[s.phases[t].at].row !in s.versions
    requires GuardHolds(s, TakesOf(a)[s.phases[t].at])
    ensures HoldsItsRows(a, Update(s, t, s.phases[t].at, TakesOf(a)[s.phases[t].at]), t)
  {}

  // Rolling back

  lemma AbortingKeeps(attempts: seq<Attempt>, initial: Table, s: System, t: nat)
    requires Inv(attempts, initial, s)
    requires IsRunning(s, t)
    ensures Inv(attempts, initial, Abort(attempts, s, t))
  {
    var s' := Abort(attempts, s, t);
    assert IsSerial(attempts, initial, s');
    hide IsSerial, Refused, TakesOf;
    NoCommitKeepsLog(attempts, s, s');
    OthersKeepLocks(attempts, s, s', t);
    AbortingKeepsClaims(attempts, s, t);
    hide LocksAgree, ClaimsAgree, LogAgrees;
  }

  /** One attempt ends and drops its versions; committed values change only in rows it held. */
  lemma OthersKeepLocks(attempts: seq<Attempt>, s: System, s': System, t: nat)
    requires LocksAgree(attempts, s) && IsRunning(s, t) && |s'.phases| == |s.phases|
             && s'.committed.Keys == s.committed.Keys
    requires forall u: nat | u < |s.phases| && u != t :: s'.phases[u] == s.phases[u]
    requires !s'.phases[t].Running?
    requires s'.versions == map r | r in s.versions && s.versions[r].owner != t :: s.versions[r]
    requires forall r | r in s.versions && s.versions[r].owner != t && r in s.committed ::
               s'.committed[r] == s.committed[r]
    ensures LocksAgree(attempts, s')
  {}

  lemma AbortingKeepsClaims(attempts: seq<Attempt>, s: System, t: nat)
    requires LocksAgree(attempts, s) && ClaimsAgree(attempts, s) && IsRunning(s, t)
    ensures ClaimsAgree(attempts, Abort(attempts, s, t))
  {
    assert KeyOf(attempts[t]) in s.claims && s.claims[KeyOf(attempts[t])] == t;
    hide Refused, TakesOf, LocksAgree;
  }

  // Committing

  /** Rows all different and each with enough: the serial updates go through and lower exactly those rows. */
  lemma {:induction false} TakeRowsLowers(table: Table, takes: seq<Take>, lowered: Table)
    requires Ascend(takes) && lowered.Keys == table.Keys
    requires forall i | 0 <= i < |takes| ::
               takes[i].row in table && table[takes[i].row] >= takes[i].quantity
               && lowered[takes[i].row] == table[takes[i].row] - takes[i].quantity
    requires forall r | r in table && !HoldsRow(takes, |takes|, r) :: lowered[r] == table[r]
    ensures TakeRows(table, takes) == Some(lowered)
    decreases |takes|
  {
    if takes == [] {
      assert forall r | r in table :: !HoldsRow(takes, |takes|, r);
      assert lowered == table;
    } else {
      var take, rest := takes[0], takes[1..];
      var table1 := table[take.row := table[take.row] - take.quantity];
      assert forall i | 0 <= i < |rest| :: rest[i] == takes[i + 1];
      forall r | r in table1 && !HoldsRow(rest, |rest|, r)
        ensures lowered[r] == table1[r]
      {
        if r != take.row {
          forall i | 0 <= i < |takes|
            ensures takes[i].row != r
          {
            assert i > 0 ==> takes[i] == rest[i - 1];
          }
        }
      }
      TakeRowsLowers(table1, rest, lowered);
    }
  }

  lemma CommitIsSerial(attempts: seq<Attempt>, initial: Table, s: System, t: nat)
    requires LocksAgree(attempts, s) && IsSerial(attempts, initial, s) && AreAttempts(attempts)
    requires IsRunning(s, t) && s.phases[t].at == |TakesOf(attempts[t])|
    ensures IsSerial(attempts, initial, Commit(s, t))
  {
    hide TakesOf, TakeRows;
    var takes := TakesOf(attempts[t]);
    var s' := Commit(s, t);
    assert HoldsItsRows(attempts[t], s, t);
    assert attempts[t] in attempts;
    TakesAscend(attempts[t]);
    forall r | r in s.committed && !HoldsRow(takes, |takes|, r)
      ensures s'.committed[r] == s.committed[r]
    {
      assert !(r in s.versions && s.versions[r].owner == t);
    }
    TakeRowsLowers(s.committed, takes, s'.committed);
    assert s'.log[..|s.log|] == s.log;
  }

  lemma CommittingKeeps(attempts: seq<Attempt>, initial: Table, s: System, t: nat)
    requires Inv(attempts, initial, s) && AreAttempts(attempts)
    requires IsRunning(s, t) && !Refused(attempts[t]) && s.phases[t].at == |TakesOf(attempts[t])|
    ensures Inv(attempts, initial, Commit(s, t))
  {
    hide Refused, Serial, TakesOf;
    var s' := Commit(s, t);
    CommitIsSerial(attempts, initial, s, t);
    OthersKeepLocks(attempts, s, s', t);
    CommittingKeepsClaims(attempts, s, t);
    CommittingKeepsLog(attempts, s, t);
    hide LocksAgree, ClaimsAgree, LogAgrees, IsSerial;
  }

  lemma CommittingKeepsClaims(attempts: seq<Attempt>, s: System, t: nat)
    requires LocksAgree(attempts, s) && ClaimsAgree(attempts, s) && IsRunning(s, t)
    ensures ClaimsAgree(attempts, Commit(s, t))
  {}

  lemma CommittingKeepsLog(attempts: seq<Attempt>, s: System, t: nat)
    requires LocksAgree(attempts, s) && LogAgrees(attempts, s) && IsRunning(s, t) && !Refused(attempts[t])
    ensures LogAgrees(attempts, Commit(s, t))
  {}

  lemma StepKeeps(attempts: seq<Attempt>, initial: Table, s: System, step: Step)
    requires Inv(attempts, initial, s) && AreAttempts(attempts) && Enabled(attempts, s, step)
    ensures Inv(attempts, initial, Apply(attempts, s, step))
  {
    var t := step.t;
    assert s.phases[t].Running? ==> HoldsItsRows(attempts[t], s, t) by {
      assert s.phases[t].Running? ==> IsRunning(s, t);
    }
    hide Inv, Refused, TakesOf, Commit, Abort, Update;
    if step.DoFail? {
      AbortingKeeps(attempts, initial, s, t);
    } else if s.phases[t].Waiting? {
      ClaimingKeeps(attempts, initial, s, t);
    } else {
      var at, takes := s.phases[t].at, TakesOf(attempts[t]);
      if Refused(attempts[t]) || (at < |takes| && !GuardHolds(s, takes[at])) {
        AbortingKeeps(attempts, initial, s, t);
      } else if at < |takes| {
        UpdatingKeeps(attempts, initial, s, t);
      } else {
        CommittingKeeps(attempts, initial, s, t);
      }
    }
  }

  lemma {:induction false} RunKeeps(attempts: seq<Attempt>, initial: Table, s: System, steps: seq<Step>)
    requires Inv(attempts, initial, s) && AreAttempts(attempts) && IsRun(attempts, s, steps)
    ensures Inv(attempts, initial, Run(attempts, s, steps))
    decreases |steps|
  {
    if steps != [] {
      hide Inv, Apply;
      StepKeeps(attempts, initial, s, steps[0]);
      RunKeeps(attempts, initial, Apply(attempts, s, steps[0]), steps[1..]);
    }
  }
}
