/**
 A seller's edit as it really runs: the row and the bid count are read without a lock, and the row that was read is
 saved later, in a transaction of its own, over whatever the auction has become. The row's version column does not
 stop it: a plain save counts the version up and compares it with nothing.
 */
module SellerEdits {
  import opened Results
  import opened Money
  import opened Auctions

  /** An edit that has read its row and not saved it yet. */
  datatype Draft = Draft(row: Auction, edit: Edit)

  datatype Session = Session(desk: Desk, drafts: seq<Draft>)

  datatype EditStep = DoAct(at: Timed) | DoRead(edit: Edit, readAt: int) | DoSave(draft: nat, savedAt: int)

  function TimeOf(step: EditStep): int {
    match step
    case DoAct(at) => at.now
    case DoRead(_, now) => now
    case DoSave(_, now) => now
  }

  /** Seller edits come in two halves; every other step is the auction's own. */
  predicate IsEditStep(step: EditStep) {
    match step
    case DoAct(at) => IsRequest(at.step) && !at.step.DoUpdate?
    case DoRead(edit, _) => IsEdit(edit)
    case DoSave(_, _) => true
  }

  predicate DraftsAreEdits(s: Session) {
    forall draft | draft in s.drafts :: IsEdit(draft.edit)
  }

  function Next(s: Session, step: EditStep, windowMs: int): (s': Session)
    requires IsEditStep(step) && DraftsAreEdits(s)
    ensures DraftsAreEdits(s')
  {
    match step
    case DoAct(at) => s.(desk := Apply(s.desk, at, windowMs))
    case DoRead(edit, _) =>
      if EditOutcome(s.desk, edit).Ok? then s.(drafts := s.drafts + [Draft(s.desk.auction, edit)]) else s
    case DoSave(i, now) =>
      if i < |s.drafts| then s.(desk := SaveEdit(s.desk, s.drafts[i].row, now, s.drafts[i].edit)) else s
  }

  predicate IsEditTrace(clock: int, steps: seq<EditStep>)
    decreases |steps|
  {
    steps == [] || (clock <= TimeOf(steps[0]) && IsEditStep(steps[0]) && IsEditTrace(TimeOf(steps[0]), steps[1..]))
  }

  function RunEdits(s: Session, clock: int, steps: seq<EditStep>, windowMs: int): Session
    requires IsEditTrace(clock, steps) && DraftsAreEdits(s)
    decreases |steps|
  {
    if steps == [] then s else RunEdits(Next(s, steps[0], windowMs), TimeOf(steps[0]), steps[1..], windowMs)
  }

  function EndTime(clock: int, steps: seq<EditStep>): int
    decreases |steps|
  {
    if steps == [] then clock else EndTime(TimeOf(steps[0]), steps[1..])
  }

  // ---------------------------------------------------------------------
  // When a save does no harm
  // ---------------------------------------------------------------------

  /** A row read while it could be edited, and an edit it admits. */
  predicate DraftFits(draft: Draft) {
    var a, e := draft.row, draft.edit;
    && IsEdit(e)
    && a.startPrice > 0 && a.increment > 0 && a.winner.None? && a.winningBid.None? && a.currentPrice == a.startPrice
    && a.finalizedAt.None? && (a.status.Scheduled? || a.status.Active?)
    && OrElse(e.startsAt, a.startsAt) < OrElse(e.endsAt, a.endsAt)
    && CentsOrElse(e.startPrice, 1) > 0 && CentsOrElse(e.increment, 1) > 0
  }

  lemma ReadDraftFits(d: Desk, e: Edit, clock: int, windowMs: int, initialStock: nat)
    requires Inv(d, clock, windowMs, initialStock) && IsEdit(e) && EditOutcome(d, e).Ok?
    ensures DraftFits(Draft(d.auction, e))
  {
    hide PriceCents, IsPriceText;
  }

  /**
   A save keeps the auction sound, and what has ended ended, exactly when the auction can still be edited as it runs:
   no bid has landed since the read, and it has been neither finalized nor cancelled.
   */
  lemma SaveIsSoundIff(d: Desk, draft: Draft, clock: int, now: int, windowMs: int, initialStock: nat)
    requires Inv(d, clock, windowMs, initialStock) && clock <= now && DraftFits(draft)
    ensures var d' := SaveEdit(d, draft.row, now, draft.edit);
            (&& Inv(d', now, windowMs, initialStock)
             && (IsTerminal(d.auction.status) ==> d'.auction.status == d.auction.status))
            <==> IsEditable(d)
  {
    hide PriceCents, IsPriceText;
  }

  // ---------------------------------------------------------------------
  // Over whole runs
  // ---------------------------------------------------------------------

  /** Every save finds its auction still editable. */
  predicate SavesInTime(s: Session, clock: int, steps: seq<EditStep>, windowMs: int)
    requires IsEditTrace(clock, steps) && DraftsAreEdits(s)
    decreases |steps|
  {
    || steps == []
    || (&& (steps[0].DoSave? && steps[0].draft < |s.drafts| ==> IsEditable(s.desk))
        && SavesInTime(Next(s, steps[0], windowMs), TimeOf(steps[0]), steps[1..], windowMs))
  }

  predicate SessionSound(s: Session, clock: int, windowMs: int, initialStock: nat) {
    Inv(s.desk, clock, windowMs, initialStock) && forall draft | draft in s.drafts :: DraftFits(draft)
  }

  lemma NextKeepsSound(s: Session, step: EditStep, clock: int, windowMs: int, initialStock: nat)
    requires SessionSound(s, clock, windowMs, initialStock) && IsEditStep(step) && clock <= TimeOf(step)
    requires step.DoSave? && step.draft < |s.drafts| ==> IsEditable(s.desk)
    ensures DraftsAreEdits(s) && SessionSound(Next(s, step, windowMs), TimeOf(step), windowMs, initialStock)
  {
    match step
    case DoAct(at) =>
      StepKeepsInv(s.desk, at, clock, windowMs, initialStock);
    case DoRead(edit, now) =>
      if EditOutcome(s.desk, edit).Ok? {
        ReadDraftFits(s.desk, edit, clock, windowMs, initialStock);
      }
      LaterIsSound(s.desk, clock, now, windowMs, initialStock);
    case DoSave(i, now) =>
      LaterIsSound(s.desk, clock, now, windowMs, initialStock);
      if i < |s.drafts| {
        assert s.drafts[i] in s.drafts;
        SaveIsSoundIff(s.desk, s.drafts[i], clock, now, windowMs, initialStock);
      }
  }

  lemma LaterIsSound(d: Desk, clock: int, now: int, windowMs: int, initialStock: nat)
    requires Inv(d, clock, windowMs, initialStock) && clock <= now
    ensures Inv(d, now, windowMs, initialStock)
  {}

  /** With edits in two halves, every run whose saves come in time keeps the auction's invariant. */
  lemma {:induction false} RunEditsKeepsInv(
    s: Session, clock: int, steps: seq<EditStep>, windowMs: int, initialStock: nat)
    requires SessionSound(s, clock, windowMs, initialStock) && IsEditTrace(clock, steps) && DraftsAreEdits(s)
    requires SavesInTime(s, clock, steps, windowMs)
    ensures SessionSound(RunEdits(s, clock, steps, windowMs), EndTime(clock, steps), windowMs, initialStock)
    decreases |steps|
  {
    if steps != [] {
      hide SessionSound, Next, IsEditStep;
      NextKeepsSound(s, steps[0], clock, windowMs, initialStock);
      RunEditsKeepsInv(Next(s, steps[0], windowMs), TimeOf(steps[0]), steps[1..], windowMs, initialStock);
    }
  }

  // ---------------------------------------------------------------------
  // The run in which a bid is lost
  // ---------------------------------------------------------------------

  const OPEN_LOT := Desk(
    Auction(Active, 100, 100, 10, 0, 1000, None, None, None, None), [], [], map[], [], 1, 1, "10.00")

  /** The seller opens the form, a bid of "50" lands, the seller saves a later end. */
  const LATE_SAVE: seq<EditStep> :=
    [DoRead(Edit(None, None, None, Some(2000)), 10), DoAct(Timed(20, DoBid(2, "key", "50"))), DoSave(0, 30)]

  /** The late save takes the leader away: a bid stands, the auction has no winner and its start price again. */
  lemma LateSaveLosesLeader()
    ensures Inv(OPEN_LOT, 0, 60, 1) && IsEditTrace(0, LATE_SAVE)
    ensures var d := RunEdits(Session(OPEN_LOT, []), 0, LATE_SAVE, 60).desk;
            && |d.bids| == 1 && d.bids[0].amount == 5000 && d.auction.winner.None? && d.auction.currentPrice == 100
            && !Inv(d, 30, 60, 1)
  {
    FiftyParses();
    hide IsPriceText, ParseMoneyToCents, PriceCents;
    var e := Edit(None, None, None, Some(2000));
    var s0, steps := Session(OPEN_LOT, []), LATE_SAVE;
    var s1 := Session(OPEN_LOT, [Draft(OPEN_LOT.auction, e)]);
    assert Next(s0, steps[0], 60) == s1;
    var bid := Bid(0, 2, 5000, "key", 20);
    assert BidOutcome(OPEN_LOT, 20, 2, "key", "50") == Ok(bid);
    var s2 := s1.(desk := AcceptBid(OPEN_LOT, bid));
    assert Next(s1, steps[1], 60) == s2;
    var s3 := Next(s2, steps[2], 60);
    assert s3.desk.auction == EditRow(OPEN_LOT.auction, 30, e) && s3.desk.bids == [bid];
    hide Next, SaveEdit, AcceptBid, BidOutcome;
    var rest, last := steps[1..], steps[1..][1..];
    assert last == [steps[2]] && last[1..] == [] && rest[0] == steps[1];
    assert IsEditTrace(20, last) && IsEditTrace(10, rest);
    assert RunEdits(s2, 20, last, 60) == s3 && RunEdits(s1, 10, rest, 60) == s3;
  }
}
