/** What product and category writes leave in the rows, column by column, and what a pass then shows of them. */
module CatalogSteps {
  import opened Results
  import opened SearchIndexes
  import opened ProductEdits
  import P = OutboxPipelines

  // ---------------------------------------------------------------------
  // Edits
  // ---------------------------------------------------------------------

  /** A whole edit as its two halves. */
  function Edited(c: Catalog, p: nat, e: Edit): Catalog {
    RunEdits(Session(c, []), [DoRead(p, e), DoSave(0)]).catalog
  }

  /** Each column an edit names gets the edit's value and each other column keeps its own. */
  predicate EditHolds(row: Product, row': Product, e: Edit) {
    && (e.category.Some? ==> row'.category == e.category.value) && (e.category.None? ==> row'.category == row.category)
    && (e.published.Some? ==> row'.published == e.published.value)
    && (e.published.None? ==> row'.published == row.published)
    && (e.content.Some? ==> row'.content == e.content.value) && (e.content.None? ==> row'.content == row.content)
  }

  lemma EditRuns(c: Catalog, p: nat, e: Edit)
    ensures Edited(c, p, e) == if p in c.products && (e.category.Some? ==> e.category.value in c.categories)
                               then SaveProduct(c, p, Merged(c.products[p], e)) else c
  {
    hide SaveProduct, Merged;
    var s0, steps := Session(c, []), [DoRead(p, e), DoSave(0)];
    assert steps[1..] == [DoSave(0)] && steps[1..][1..] == [];
    var s1 := Next(s0, steps[0]);
    assert RunEdits(s1, [DoSave(0)]) == Next(s1, DoSave(0));
  }

  /** An edit of a known product to a known category writes that row and its event, any other writes nothing. */
  lemma EditWrites(c: Catalog, p: nat, e: Edit)
    requires RowsAgree(c)
    ensures var c' := Edited(c, p, e);
            if p !in c.products || (e.category.Some? && e.category.value !in c.categories) then c' == c
            else
              && c'.products.Keys == c.products.Keys && EditHolds(c.products[p], c'.products[p], e)
              && (forall q | q in c.products && q != p :: c'.products[q] == c.products[q])
              && c'.products[p].category in c.categories && c'.categories == c.categories
              && c'.index == c.index && c'.workers == c.workers && c'.used == c.used
              && c'.subjects == c.subjects + [Touched(p)] && c'.pipeline == P.Commit(c.pipeline, P.Product)
  {
    EditRuns(c, p, e);
    hide Edited;
  }

  /** A product is created under a new id and in a known category, exactly as asked, and announced. */
  lemma CreateWrites(c: Catalog, p: nat, row: Product)
    ensures var c' := CreateProduct(c, p, row);
            if p in c.used || row.category !in c.categories then c' == c
            else
              && c'.products == c.products[p := row] && c'.used == c.used + {p}
              && c'.subjects == c.subjects + [Touched(p)] && c'.pipeline == P.Commit(c.pipeline, P.Product)
              && c'.categories == c.categories && c'.index == c.index && c'.workers == c.workers
  {}

  /** A deletion takes the row away and leaves its id used for good. */
  lemma DeleteWrites(c: Catalog, p: nat)
    ensures var c' := DeleteProduct(c, p);
            if p !in c.products then c' == c
            else
              && c'.products.Keys == c.products.Keys - {p}
              && (forall q | q in c'.products :: c'.products[q] == c.products[q])
              && c'.used == c.used && c'.subjects == c.subjects + [Removed(p)]
              && c'.pipeline == P.Commit(c.pipeline, P.Product)
              && c'.categories == c.categories && c'.index == c.index && c'.workers == c.workers
  {}

  /** A renamed category has its new name and one event; no product row changes. */
  lemma RenameWrites(c: Catalog, id: nat, name: string)
    ensures var c' := RenameCategory(c, id, name);
            if id !in c.categories then c' == c
            else
              && c'.categories == c.categories[id := name] && c'.products == c.products
              && c'.subjects == c.subjects + [Renamed(id)] && c'.pipeline == P.Commit(c.pipeline, P.Category)
              && c'.index == c.index && c'.workers == c.workers && c'.used == c.used
  {}

  /** A category goes exactly when it exists and no product is in it. */
  lemma RemoveWrites(c: Catalog, id: nat)
    ensures var c' := DeleteCategory(c, id);
            if id !in c.categories || exists p :: p in c.products && c.products[p].category == id then c' == c
            else
              && c'.categories == c.categories - {id} && c'.products == c.products
              && c'.subjects == c.subjects + [Dropped(id)] && c'.pipeline == P.Commit(c.pipeline, P.Category)
              && c'.index == c.index && c'.workers == c.workers && c'.used == c.used
  {
    if p :| p in c.products && c.products[p].category == id {
      assert p in InCategory(c, id);
    }
  }

  // ---------------------------------------------------------------------
  // What a pass shows
  // ---------------------------------------------------------------------

  /** A published row's document has the row's category by id and by name and the row's content; others have none. */
  lemma PassShows(c: Catalog, e: nat, p: nat)
    requires CanPass(c, e, p) && RowsAgree(c) && EventsAgree(c)
    ensures var c' := Run(c, Pass(e, |c.workers|, p));
            && (P.SearchSync, e) in c'.pipeline.processed
            && (p in c'.index <==> p in c.products && c.products[p].published)
            && (p in c'.index ==>
                  var row, doc := c.products[p], c'.index[p];
                  && row.category in c.categories && doc.category == row.category && doc.content == row.content
                  && doc.categoryName == c.categories[row.category])
            && (forall q | q != p :: Indexed(c', q) == Indexed(c, q))
  {
    PassRuns(c, e, p);
    hide Run, Pass, NothingHeld, P.Add;
  }

  /** A pass starts on a live job of this consumer and on nothing else, with the products its event is about. */
  lemma PassStartsIff(c: Catalog, k: P.JobKey)
    ensures var c' := StartWork(c, k);
            if k in c.pipeline.jobs && c.pipeline.jobs[k].state.Live? && k.0 == P.SearchSync
               && c.pipeline.jobs[k].event < |c.subjects| then
              var e := c.pipeline.jobs[k].event;
              && |c'.workers| == |c.workers| + 1 && c'.workers[..|c.workers|] == c.workers
              && c' == c.(workers := c'.workers)
              && var worker := c'.workers[|c.workers|];
              && worker.event == e && worker.held.None?
              && forall p: nat :: p in worker.todo <==>
                   match c.subjects[e]
                   case Touched(x) => x == p
                   case Removed(x) => x == p
                   case Renamed(id) => p in c.products && c.products[p].category == id
                   case _ => false
            else c' == c
  {}

  /** A pass that dies forgets what it has read, and still has to go through the same products. */
  lemma DeathForgets(c: Catalog, w: nat)
    requires w < |c.workers|
    ensures var c' := DropLoaded(c, w);
            && |c'.workers| == |c.workers| && c'.workers[w] == Worker(c.workers[w].event, c.workers[w].todo, None)
            && (forall v | 0 <= v < |c.workers| && v != w :: c'.workers[v] == c.workers[v])
            && c' == c.(workers := c'.workers)
  {}

  /** After an edit that unpublishes it, and a pass over that edit's event, a product has no document. */
  lemma UnpublishedIsNotIndexed(c: Catalog, p: nat, e: Edit)
    requires RowsAgree(c) && EventsAgree(c) && NothingHeld(c) && p in c.products && e.published == Some(false)
    requires e.category.Some? ==> e.category.value in c.categories
    requires (P.SearchSync, P.Original(|c.subjects|)) !in c.pipeline.jobs
    ensures var c' := Edited(c, p, e);
            p in c'.products && !c'.products[p].published && p !in Run(c', Pass(|c.subjects|, |c.workers|, p)).index
  {
    EditWrites(c, p, e);
    var c' := Edited(c, p, e);
    UpdateKeepsAgreement(c, c', p);
    hide Edited, Run, Pass, RowsAgree, EventsAgree;
    PassShows(c', |c.subjects|, p);
  }

  lemma UpdateKeepsAgreement(c: Catalog, c': Catalog, p: nat)
    requires RowsAgree(c) && EventsAgree(c) && p in c.products && p in c'.products
    requires c'.products.Keys == c.products.Keys && c'.products[p].category in c.categories
    requires forall q | q in c.products && q != p :: c'.products[q] == c.products[q]
    requires c'.categories == c.categories && c'.used == c.used
    requires c'.subjects == c.subjects + [Touched(p)] && c'.pipeline == P.Commit(c.pipeline, P.Product)
    ensures RowsAgree(c') && EventsAgree(c')
  {}
}
