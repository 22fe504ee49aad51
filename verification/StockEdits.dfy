/**
 A seller's product edit and the stock count. The edit reads the whole product row, and its later save writes the row
 back as it was read, the stock count included, whatever has been sold or returned in between.
 */
module StockEdits {
  import opened Results
  import opened CartSplit
  import opened OrderBooks
  import opened BooksLaws
  import Conservation

  /** An edit of other columns that has read its row and not saved it yet. */
  datatype Draft = Draft(product: nat, stock: nat)

  datatype Session = Session(books: Books, drafts: seq<Draft>)

  datatype EditStep = DoBooks(step: Step) | DoRead(product: nat) | DoSave(draft: nat)

  function SaveStock(b: Books, d: Draft): Books {
    if d.product in b.stock then b.(stock := b.stock[d.product := d.stock]) else b
  }

  function Next(s: Session, policy: Policy, step: EditStep): Session {
    match step
    case DoBooks(st) => s.(books := Apply(s.books, policy, st))
    case DoRead(p) => if p in s.books.stock then s.(drafts := s.drafts + [Draft(p, s.books.stock[p])]) else s
    case DoSave(i) => if i < |s.drafts| then s.(books := SaveStock(s.books, s.drafts[i])) else s
  }

  function RunEdits(s: Session, policy: Policy, steps: seq<EditStep>): Session
    decreases |steps|
  {
    if steps == [] then s else RunEdits(Next(s, policy, steps[0]), policy, steps[1..])
  }

  /** What one save adds to a product's stock that nobody has returned, or takes away that nobody has bought. */
  function Invented(s: Session, step: EditStep, product: nat): int {
    if step.DoSave? && step.draft < |s.drafts| && s.drafts[step.draft].product == product && product in s.books.stock
    then s.drafts[step.draft].stock - s.books.stock[product] else 0
  }

  function AllInvented(s: Session, policy: Policy, steps: seq<EditStep>, product: nat): int
    decreases |steps|
  {
    if steps == [] then 0
    else Invented(s, steps[0], product) + AllInvented(Next(s, policy, steps[0]), policy, steps[1..], product)
  }

  /** A save keeps the stock law exactly when it finds the stock it read. */
  lemma SaveBalancesIff(b: Books, initial: map<nat, int>, d: Draft)
    requires StockBalances(b, initial) && d.product in b.stock
    ensures StockBalances(SaveStock(b, d), initial) <==> b.stock[d.product] == d.stock
  {
    hide SumBy;
    assert d.product in initial;
  }

  function Shifted(initial: map<nat, int>, product: nat, change: int): map<nat, int> {
    if product in initial then initial[product := initial[product] + change] else initial
  }

  /** The opening stock that the books balance against after a step. */
  lemma NextBalances(s: Session, policy: Policy, initial: map<nat, int>, step: EditStep, product: nat)
    returns (shifted: map<nat, int>)
    requires StockBalances(s.books, initial)
    ensures StockBalances(Next(s, policy, step).books, shifted) && shifted.Keys == initial.Keys
    ensures product in initial ==> shifted[product] == initial[product] + Invented(s, step, product)
  {
    hide SumBy;
    shifted := initial;
    match step
    case DoBooks(st) => StepBalances(s.books, policy, initial, st);
    case DoRead(_) =>
    case DoSave(i) =>
      if i < |s.drafts| && s.drafts[i].product in s.books.stock {
        var d := s.drafts[i];
        shifted := Shifted(initial, d.product, d.stock - s.books.stock[d.product]);
      }
  }

  /** The exact stock law with such edits: it is off by what the saves have invented, and by nothing else. */
  lemma {:induction false} RunInvents(
    s: Session, policy: Policy, initial: map<nat, int>, steps: seq<EditStep>, product: nat)
    requires StockBalances(s.books, initial) && product in initial
    ensures var b := RunEdits(s, policy, steps).books;
            && product in b.stock
            && b.stock[product] + SumBy(AbsentOf(product), b.sellerOrders)
               == initial[product] + AllInvented(s, policy, steps, product)
    decreases |steps|
  {
    if steps != [] {
      hide SumBy, Next;
      var shifted := NextBalances(s, policy, initial, steps[0], product);
      RunInvents(Next(s, policy, steps[0]), policy, shifted, steps[1..], product);
    }
  }

  /** Every save finds the stock it read. */
  predicate SavesFindStock(s: Session, policy: Policy, steps: seq<EditStep>)
    decreases |steps|
  {
    || steps == []
    || (&& (steps[0].DoSave? && steps[0].draft < |s.drafts| ==>
              var d := s.drafts[steps[0].draft]; d.product in s.books.stock ==> s.books.stock[d.product] == d.stock)
        && SavesFindStock(Next(s, policy, steps[0]), policy, steps[1..]))
  }

  lemma {:induction false} TimelySavesInventNothing(
    s: Session, policy: Policy, initial: map<nat, int>, steps: seq<EditStep>)
    requires StockBalances(s.books, initial) && SavesFindStock(s, policy, steps)
    ensures StockBalances(RunEdits(s, policy, steps).books, initial)
    decreases |steps|
  {
    if steps != [] {
      match steps[0] {
        case DoBooks(st) => StepBalances(s.books, policy, initial, st);
        case DoRead(_) =>
        case DoSave(i) =>
          if i < |s.drafts| && s.drafts[i].product in s.books.stock {
            SaveBalancesIff(s.books, initial, s.drafts[i]);
          }
      }
      assert StockBalances(Next(s, policy, steps[0]).books, initial);
      hide StockBalances, Next;
      TimelySavesInventNothing(Next(s, policy, steps[0]), policy, initial, steps[1..]);
    }
  }

  // ---------------------------------------------------------------------
  // The run that sells one unit twice
  // ---------------------------------------------------------------------

  const LATE_SAVE: seq<EditStep> := [DoRead(0), DoBooks(Conservation.ONE_SALE), DoSave(0)]

  /** The seller opens the product, its only unit is sold, the edit is saved: another customer may buy it again. */
  lemma LateSaveOversells(policy: Policy)
    ensures var b := RunEdits(Session(Conservation.ONE_STOCKED, []), policy, LATE_SAVE).books;
            && b.sellerOrders == [Conservation.SOLD] && b.stock == map[0 := 1] == Conservation.ONE_STOCKED.stock
            && !StockBalances(b, Conservation.ONE_STOCKED.stock)
            && CheckoutOutcome(b, 1, "again", [Conservation.ONE_LINE]) == Ok(Placed(|b.orders|))
  {
    var b0, sale := Conservation.ONE_STOCKED, Conservation.ONE_SALE;
    var b1 := Apply(b0, policy, sale);
    OneUnitSold(policy);
    var s0, s1 := Session(b0, []), Session(b0, [Draft(0, 1)]);
    var s2 := Session(b1, [Draft(0, 1)]);
    var s3 := Session(b1.(stock := map[0 := 1]), [Draft(0, 1)]);
    hide Apply, SumBy, CheckoutOutcome, StockBalances;
    assert b1.stock[0 := 1] == map[0 := 1];
    assert Next(s0, policy, LATE_SAVE[0]) == s1 && Next(s1, policy, LATE_SAVE[1]) == s2;
    assert Next(s2, policy, LATE_SAVE[2]) == s3;
    var rest, last := LATE_SAVE[1..], LATE_SAVE[1..][1..];
    assert last == [LATE_SAVE[2]] && last[1..] == [] && rest[0] == LATE_SAVE[1];
    assert RunEdits(s2, policy, last) == s3 && RunEdits(s1, policy, rest) == s3;
    SaveBalancesIff(b1, b0.stock, Draft(0, 1));
    SellsAgain(s3.books);
  }

  lemma OneUnitSold(policy: Policy)
    ensures var b := Apply(Conservation.ONE_STOCKED, policy, Conservation.ONE_SALE);
            && b.sellerOrders == [Conservation.SOLD] && b.stock == map[0 := 0]
            && (1, "again") !in b.claims && StockBalances(b, Conservation.ONE_STOCKED.stock)
  {
    var b0, sale, line := Conservation.ONE_STOCKED, Conservation.ONE_SALE, Conservation.ONE_LINE;
    Conservation.OneSale(policy);
    StepBalances(b0, policy, b0.stock, sale);
    var b := Apply(b0, policy, sale);
    hide TakeAll, AddSellerOrders, Split, TotalCents, FirstRefused, StockEvents;
    assert (1, "again") !in b.claims;
    var rows := [Conservation.SOLD];
    assert rows[..0] == [] && SumBy(AbsentOf(0), rows) == 1;
  }

  lemma SellsAgain(b: Books)
    requires b.stock == map[0 := 1] && (1, "again") !in b.claims
    ensures CheckoutOutcome(b, 1, "again", [Conservation.ONE_LINE]) == Ok(Placed(|b.orders|))
  {
    Conservation.OneLineTaken(b.stock, Conservation.ONE_LINE);
    hide TakeAll, FirstRefused;
  }
}
