/**
 A seller's product edit as it really runs: the row is read first and saved later, in a transaction of its own. The
 save writes the row that was read, as edited; a row that is gone by then is inserted again under its old id.
 */
module ProductEdits {
  import opened Results
  import opened SearchIndexes
  import P = OutboxPipelines

  /** A partial edit; an absent field keeps its value. */
  datatype Edit = Edit(category: Option<nat>, published: Option<bool>, content: Option<nat>)

  function Merged(row: Product, e: Edit): Product {
    Product(if e.category.Some? then e.category.value else row.category,
            if e.published.Some? then e.published.value else row.published,
            if e.content.Some? then e.content.value else row.content)
  }

  /** What is checked before the transaction. */
  predicate MayEdit(c: Catalog, p: nat, e: Edit) {
    p in c.products && (e.category.Some? ==> e.category.value in c.categories)
  }

  /** The save with its event; a category that is gone by then fails the foreign key and rolls both back. */
  function SaveProduct(c: Catalog, p: nat, row: Product): Catalog {
    if row.category !in c.categories then c
    else Announce(c, P.Product, Touched(p)).(products := c.products[p := row], last := c.last[p := |c.subjects|])
  }

  // ---------------------------------------------------------------------
  // Runs with edits in two halves
  // ---------------------------------------------------------------------

  datatype Draft = Draft(product: nat, row: Product)

  datatype Session = Session(catalog: Catalog, drafts: seq<Draft>)

  datatype EditStep = DoCatalog(step: Step) | DoRead(product: nat, edit: Edit) | DoSave(draft: nat)

  function Next(s: Session, step: EditStep): Session {
    match step
    case DoCatalog(st) => s.(catalog := Apply(s.catalog, st))
    case DoRead(p, e) =>
      if MayEdit(s.catalog, p, e) then s.(drafts := s.drafts + [Draft(p, Merged(s.catalog.products[p], e))]) else s
    case DoSave(i) =>
      if i < |s.drafts| then s.(catalog := SaveProduct(s.catalog, s.drafts[i].product, s.drafts[i].row)) else s
  }

  function RunEdits(s: Session, steps: seq<EditStep>): Session
    decreases |steps|
  {
    if steps == [] then s else RunEdits(Next(s, steps[0]), steps[1..])
  }

  predicate EditsTakeTurns(s: Session, steps: seq<EditStep>)
    decreases |steps|
  {
    || steps == []
    || (&& !(steps[0].DoCatalog? && steps[0].step.DoLoad? && IsHeld(s.catalog, steps[0].step.loaded))
        && EditsTakeTurns(Next(s, steps[0]), steps[1..]))
  }

  predicate EditsHearNotices(s: Session, steps: seq<EditStep>)
    decreases |steps|
  {
    || steps == []
    || (&& !(steps[0].DoCatalog? && LosesNotice(s.catalog, steps[0].step))
        && EditsHearNotices(Next(s, steps[0]), steps[1..]))
  }

  /** Every save still finds the row it read. */
  predicate SavesFindRows(s: Session, steps: seq<EditStep>)
    decreases |steps|
  {
    || steps == []
    || (&& (steps[0].DoSave? && steps[0].draft < |s.drafts| ==> s.drafts[steps[0].draft].product in s.catalog.products)
        && SavesFindRows(Next(s, steps[0]), steps[1..]))
  }

  /** What the same run does with each edit made whole at its save. */
  function AtomicSteps(s: Session, steps: seq<EditStep>): seq<Step>
    decreases |steps|
  {
    if steps == [] then []
    else
      var rest := AtomicSteps(Next(s, steps[0]), steps[1..]);
      match steps[0]
      case DoCatalog(st) => [st] + rest
      case DoRead(_, _) => rest
      case DoSave(i) => if i < |s.drafts| then [DoUpdate(s.drafts[i].product, s.drafts[i].row)] + rest else rest
  }

  /** While saves find their rows, reading early makes no difference to the catalog: the run is one of whole edits. */
  lemma {:induction false} EditsAreUpdates(s: Session, steps: seq<EditStep>)
    requires SavesFindRows(s, steps)
    ensures RunEdits(s, steps).catalog == Run(s.catalog, AtomicSteps(s, steps))
    ensures EditsTakeTurns(s, steps) ==> PassesTakeTurns(s.catalog, AtomicSteps(s, steps))
    ensures EditsHearNotices(s, steps) ==> HearsEveryNotice(s.catalog, AtomicSteps(s, steps))
    decreases |steps|
  {
    if steps != [] {
      var s', rest := Next(s, steps[0]), AtomicSteps(Next(s, steps[0]), steps[1..]);
      EditsAreUpdates(s', steps[1..]);
      var atomic := AtomicSteps(s, steps);
      if atomic != rest {
        assert atomic[1..] == rest && Apply(s.catalog, atomic[0]) == s'.catalog;
      }
    }
  }

  /**
   So the index keeps its promise under such edits: a stale document has its event on its way, or its notice lost;
   with every notice heard, on its way.
   */
  lemma EditedStaleIsOutstanding(steps: seq<EditStep>, p: nat) returns (e: nat)
    requires SavesFindRows(Session(EMPTY, []), steps) && EditsTakeTurns(Session(EMPTY, []), steps)
    ensures var c := RunEdits(Session(EMPTY, []), steps).catalog;
            || IsFresh(c, p)
            || (Concerns(c, e, p) && e < |c.pipeline.outbox|
                && (IsOutstanding(c.pipeline, e) || NoticeWasLost(c.pipeline, e)))
    ensures EditsHearNotices(Session(EMPTY, []), steps) ==>
              var c := RunEdits(Session(EMPTY, []), steps).catalog;
              IsFresh(c, p) || (Concerns(c, e, p) && e < |c.pipeline.outbox| && IsOutstanding(c.pipeline, e))
  {
    EditsAreUpdates(Session(EMPTY, []), steps);
    e := StaleIsOutstanding(AtomicSteps(Session(EMPTY, []), steps), p);
  }

  /** Where a save and a whole edit come apart: the row is gone, and its category is not. */
  lemma SaveIsUpdateIff(c: Catalog, p: nat, row: Product)
    ensures SaveProduct(c, p, row) == UpdateProduct(c, p, row) <==> p in c.products || row.category !in c.categories
  {
    assert |SaveProduct(c, p, row).subjects| == |c.subjects| + 1 || row.category !in c.categories;
  }

  // ---------------------------------------------------------------------
  // The run in which an edit brings a product back
  // ---------------------------------------------------------------------

  function Catalogued(steps: seq<Step>): seq<EditStep> {
    if steps == [] then [] else [DoCatalog(steps[0])] + Catalogued(steps[1..])
  }

  lemma {:induction false} CataloguedRuns(s: Session, steps: seq<Step>)
    ensures RunEdits(s, Catalogued(steps)) == s.(catalog := Run(s.catalog, steps))
    ensures PassesTakeTurns(s.catalog, steps) ==> EditsTakeTurns(s, Catalogued(steps))
    decreases |steps|
  {
    if steps != [] {
      hide Apply, IsHeld;
      CataloguedRuns(s.(catalog := Apply(s.catalog, steps[0])), steps[1..]);
      assert Catalogued(steps)[1..] == Catalogued(steps[1..]);
    }
  }

  lemma {:induction false} EditsRunOn(s: Session, steps: seq<EditStep>, more: seq<EditStep>)
    ensures RunEdits(s, steps + more) == RunEdits(RunEdits(s, steps), more)
    ensures EditsTakeTurns(s, steps) && EditsTakeTurns(RunEdits(s, steps), more) ==> EditsTakeTurns(s, steps + more)
    decreases |steps|
  {
    hide Next, IsHeld;
    if steps == [] {
      assert steps + more == more;
    } else {
      assert (steps + more)[1..] == steps[1..] + more;
      EditsRunOn(Next(s, steps[0]), steps[1..], more);
    }
  }

  /** One whole pass over an event about one product, by a worker of its own. */
  function Pass(e: nat, w: nat, p: nat): seq<Step> {
    [DoPipeline(P.DoAdd(e, P.SearchSync)), DoStart((P.SearchSync, P.Original(e))), DoLoad(w, p), DoStore(w),
     DoFinish(w)]
  }

  function Passed(c: Catalog, e: nat, p: nat): Catalog
    requires e < |c.subjects|
  {
    PutDocument(c, p, Loads(c, e, p)).(
      pipeline := P.Process(P.Add(c.pipeline, e, P.SearchSync), P.SearchSync, e),
      workers := c.workers + [Worker(e, {}, None)])
  }

  predicate NothingHeld(c: Catalog) {
    forall w | w in c.workers :: w.held.None?
  }

  /** The pass under way, its worker in a given state. */
  function Working(c: Catalog, e: nat, worker: Worker): Catalog {
    c.(pipeline := P.Add(c.pipeline, e, P.SearchSync), workers := c.workers + [worker])
  }

  predicate CanPass(c: Catalog, e: nat, p: nat) {
    && e < |c.subjects| && Todo(c, e) == {p} && NothingHeld(c)
    && P.IsRouted(c.pipeline, P.SearchSync, e) && (P.SearchSync, P.Original(e)) !in c.pipeline.jobs
  }

  lemma PassStarts(c: Catalog, e: nat, p: nat)
    requires CanPass(c, e, p)
    ensures var handed := Apply(c, DoPipeline(P.DoAdd(e, P.SearchSync)));
            Apply(handed, DoStart((P.SearchSync, P.Original(e)))) == Working(c, e, Worker(e, {p}, None))
  {
    assert Todo(Apply(c, DoPipeline(P.DoAdd(e, P.SearchSync))), e) == {p};
  }

  lemma NotYetHeld(c: Catalog, e: nat, p: nat)
    requires CanPass(c, e, p)
    ensures !IsHeld(Working(c, e, Worker(e, {p}, None)), p)
  {
    hide P.Add, Todo;
  }

  lemma PassReads(c: Catalog, e: nat, p: nat)
    requires e < |c.subjects|
    ensures var working, loaded := Working(c, e, Worker(e, {p}, None)), Some(Loaded(p, Loads(c, e, p)));
            Apply(working, DoLoad(|c.workers|, p)) == Working(c, e, Worker(e, {p}, loaded))
  {
    hide P.Add;
    var working := Working(c, e, Worker(e, {p}, None));
    assert working.workers[|c.workers|] == Worker(e, {p}, None);
    assert Loads(working, e, p) == Loads(c, e, p);
  }

  lemma PassWrites(c: Catalog, e: nat, p: nat, doc: Option<Document>)
    ensures Apply(Working(c, e, Worker(e, {p}, Some(Loaded(p, doc)))), DoStore(|c.workers|))
         == PutDocument(Working(c, e, Worker(e, {}, None)), p, doc)
  {
    hide P.Add;
    var working := Working(c, e, Worker(e, {p}, Some(Loaded(p, doc))));
    assert working.workers[|c.workers|] == Worker(e, {p}, Some(Loaded(p, doc)));
    assert {p} - {p} == {};
  }

  lemma PassEnds(c: Catalog, e: nat, p: nat)
    requires CanPass(c, e, p)
    ensures Apply(PutDocument(Working(c, e, Worker(e, {}, None)), p, Loads(c, e, p)), DoFinish(|c.workers|))
         == Passed(c, e, p)
    ensures NothingHeld(Passed(c, e, p))
  {
    hide P.Add, P.Process, Loads;
  }

  lemma PassRuns(c: Catalog, e: nat, p: nat)
    requires CanPass(c, e, p)
    ensures Run(c, Pass(e, |c.workers|, p)) == Passed(c, e, p)
    ensures PassesTakeTurns(c, Pass(e, |c.workers|, p))
  {
    var steps := Pass(e, |c.workers|, p);
    var c1, c2 := Apply(c, steps[0]), Working(c, e, Worker(e, {p}, None));
    var doc := Loads(c, e, p);
    var c3 := Working(c, e, Worker(e, {p}, Some(Loaded(p, doc))));
    var c4 := PutDocument(Working(c, e, Worker(e, {}, None)), p, doc);
    PassStarts(c, e, p);
    NotYetHeld(c, e, p);
    PassReads(c, e, p);
    PassWrites(c, e, p, doc);
    PassEnds(c, e, p);
    hide CanPass, Apply, Passed, Working, PutDocument, Loads, IsHeld, Run, PassesTakeTurns;
    assert steps[0..] == steps && steps[5..] == [];
    RunFrom(c, steps, 0);
    RunFrom(c1, steps, 1);
    RunFrom(c2, steps, 2);
    RunFrom(c3, steps, 3);
    RunFrom(c4, steps, 4);
    RunNothing(Passed(c, e, p));
    TurnsFrom(c, steps, 0);
    TurnsFrom(c1, steps, 1);
    TurnsFrom(c2, steps, 2);
    TurnsFrom(c3, steps, 3);
    TurnsFrom(c4, steps, 4);
    NothingTakesTurns(Passed(c, e, p));
  }

  lemma TurnsFrom(c: Catalog, steps: seq<Step>, i: nat)
    requires i < |steps|
    ensures PassesTakeTurns(c, steps[i..])
        <==> !(steps[i].DoLoad? && IsHeld(c, steps[i].loaded)) && PassesTakeTurns(Apply(c, steps[i]), steps[i + 1..])
  {}

  lemma NothingTakesTurns(c: Catalog)
    ensures PassesTakeTurns(c, [])
  {}

  const REPRICED := Edit(None, None, Some(20))

  /** The seller opens a product, it is deleted, and the edit is saved. */
  const BACK: seq<EditStep> := [DoRead(7, REPRICED), DoCatalog(DoDelete(7)), DoSave(0)]

  /** The event of the save is processed before that of the deletion, each in a pass of its own. */
  function Passes(): seq<Step> {
    Pass(0, 0, 7) + (Pass(2, 1, 7) + Pass(1, 2, 7))
  }

  function LateSave(): seq<EditStep> {
    Catalogued(NEW_LAMP) + (BACK + Catalogued(Passes()))
  }

  function BackAgain(): Catalog {
    Catalog(P.EMPTY.(outbox := [P.Row(P.Product, false, 0), P.Row(P.Product, false, 0), P.Row(P.Product, false, 0)]),
            [Touched(7), Removed(7), Touched(7)], map[7 := NEW], map[1 := "Lamps"], map[], [], {7}, map[7 := 2])
  }

  lemma BackRuns()
    ensures RunEdits(Session(Created(), []), BACK) == Session(BackAgain(), [Draft(7, NEW)])
    ensures EditsTakeTurns(Session(Created(), []), BACK)
  {
    var s0 := Session(Created(), []);
    var s1 := Session(Created(), [Draft(7, NEW)]);
    assert Next(s0, BACK[0]) == s1;
    var s2 := s1.(catalog := DeleteProduct(Created(), 7));
    assert Next(s1, BACK[1]) == s2;
    assert s2.catalog.products == map[];
    var s3 := Session(BackAgain(), [Draft(7, NEW)]);
    assert SaveProduct(s2.catalog, 7, NEW) == BackAgain();
    assert Next(s2, BACK[2]) == s3;
    hide Next;
    var rest, last := BACK[1..], BACK[1..][1..];
    assert last == [BACK[2]] && last[1..] == [] && rest[0] == BACK[1];
    assert RunEdits(s2, last) == s3 && EditsTakeTurns(s2, last);
    assert RunEdits(s1, rest) == s3 && EditsTakeTurns(s1, rest);
  }

  /** A pass touches no row and no event, and leaves its own mark and job. */
  lemma PassLeaves(c: Catalog, e: nat, p: nat)
    requires CanPass(c, e, p)
    ensures var c' := Passed(c, e, p);
            && c'.products == c.products && c'.subjects == c.subjects && c'.categories == c.categories
            && c'.pipeline.outbox == c.pipeline.outbox && |c'.workers| == |c.workers| + 1 && NothingHeld(c')
            && c'.pipeline.processed == c.pipeline.processed + {(P.SearchSync, e)}
            && c'.pipeline.jobs.Keys == c.pipeline.jobs.Keys + {(P.SearchSync, P.Original(e))}
            && (c.subjects[e].Removed? ==> p !in c'.index)
  {
    hide Projection;
  }

  function First(): Catalog {
    Passed(BackAgain(), 0, 7)
  }

  function Second(): Catalog {
    Passed(First(), 2, 7)
  }

  function Third(): Catalog {
    Passed(Second(), 1, 7)
  }

  lemma FirstLeaves()
    ensures CanPass(BackAgain(), 0, 7) && CanPass(First(), 2, 7)
    ensures var c := First();
            && c.products == map[7 := NEW] && c.subjects == BackAgain().subjects && |c.workers| == 1
            && c.pipeline.outbox == BackAgain().pipeline.outbox && c.pipeline.processed == {(P.SearchSync, 0)}
            && c.pipeline.jobs.Keys == {(P.SearchSync, P.Original(0))} && NothingHeld(c)
  {
    PassLeaves(BackAgain(), 0, 7);
    hide Passed;
  }

  lemma SecondLeaves()
    ensures CanPass(Second(), 1, 7)
    ensures var c := Second();
            && c.products == map[7 := NEW] && c.subjects == BackAgain().subjects && |c.workers| == 2
            && c.pipeline.outbox == BackAgain().pipeline.outbox
            && c.pipeline.processed == {(P.SearchSync, 0), (P.SearchSync, 2)}
  {
    FirstLeaves();
    PassLeaves(First(), 2, 7);
    hide Passed, First;
  }

  lemma ThirdLeaves()
    ensures var c := Third();
            && c.products == map[7 := NEW] && 7 !in c.index && |c.pipeline.outbox| == 3
            && forall e | 0 <= e < 3 :: (P.SearchSync, e) in c.pipeline.processed
  {
    SecondLeaves();
    PassLeaves(Second(), 1, 7);
    hide Passed, Second;
  }

  lemma RunsThrough(c: Catalog, first: seq<Step>, second: seq<Step>, third: seq<Step>)
    requires var c1 := Run(c, first);
             && PassesTakeTurns(c, first) && PassesTakeTurns(c1, second) && PassesTakeTurns(Run(c1, second), third)
    ensures Run(c, first + (second + third)) == Run(Run(Run(c, first), second), third)
    ensures PassesTakeTurns(c, first + (second + third))
  {
    hide *;
    var c1 := Run(c, first);
    RunOn(c, first, second + third);
    RunOn(c1, second, third);
    TurnsOn(c1, second, third);
    TurnsOn(c, first, second + third);
  }

  lemma PassesRun()
    ensures Run(BackAgain(), Passes()) == Third()
    ensures PassesTakeTurns(BackAgain(), Passes())
  {
    FirstLeaves();
    SecondLeaves();
    PassRuns(BackAgain(), 0, 7);
    PassRuns(First(), 2, 7);
    PassRuns(Second(), 1, 7);
    assert |BackAgain().workers| == 0;
    hide Passed, CanPass, Run, PassesTakeTurns, Pass, BackAgain;
    RunsThrough(BackAgain(), Pass(0, 0, 7), Pass(2, 1, 7), Pass(1, 2, 7));
  }

  /** Losing a document with every event processed takes a late save. */
  lemma OnlyLateSavesLoseProcessed(steps: seq<EditStep>, p: nat)
    requires EditsTakeTurns(Session(EMPTY, []), steps)
    requires var c := RunEdits(Session(EMPTY, []), steps).catalog;
             (forall e | 0 <= e < |c.pipeline.outbox| :: (P.SearchSync, e) in c.pipeline.processed) && !IsFresh(c, p)
    ensures !SavesFindRows(Session(EMPTY, []), steps)
  {
    if SavesFindRows(Session(EMPTY, []), steps) {
      var e := EditedStaleIsOutstanding(steps, p);
      hide RunEdits, SavesFindRows, EditsTakeTurns, IsFresh;
    }
  }

  lemma LateSaveRuns()
    ensures RunEdits(Session(EMPTY, []), LateSave()).catalog == Run(BackAgain(), Passes())
    ensures EditsTakeTurns(Session(EMPTY, []), LateSave())
  {
    var s0, s1, back := Session(EMPTY, []), Session(Created(), []), Session(BackAgain(), [Draft(7, NEW)]);
    NewLampRuns();
    CataloguedRuns(s0, NEW_LAMP);
    BackRuns();
    CataloguedRuns(back, Passes());
    PassesRun();
    hide *;
    EditsRunOn(s1, BACK, Catalogued(Passes()));
    EditsRunOn(s0, Catalogued(NEW_LAMP), BACK + Catalogued(Passes()));
    LateSaveIs();
  }

  lemma LateSaveIs()
    ensures LateSave() == Catalogued(NEW_LAMP) + (BACK + Catalogued(Passes()))
  {}

  /**
   An edit saved after its product's deletion brings the product back, and the deletion's own event can then take the
   document away for good: passes take turns, every event is processed, and the published product is not indexed.
   */
  lemma LateSaveLosesDocument()
    ensures EditsTakeTurns(Session(EMPTY, []), LateSave()) && !SavesFindRows(Session(EMPTY, []), LateSave())
    ensures var c := RunEdits(Session(EMPTY, []), LateSave()).catalog;
            && (forall e | 0 <= e < |c.pipeline.outbox| :: (P.SearchSync, e) in c.pipeline.processed)
            && 7 in c.products && c.products[7].published && 7 !in c.index && !IsFresh(c, 7)
  {
    LateSaveRuns();
    PassesRun();
    ThirdLeaves();
    hide Run, RunEdits, PassesTakeTurns, EditsTakeTurns, SavesFindRows, LateSave, Passes, BackAgain, Third;
    OnlyLateSavesLoseProcessed(LateSave(), 7);
  }
}
