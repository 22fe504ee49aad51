/**
 The catalog, its search index and the consumer between them. A write commits with its event; the index follows
 through workers that read the current rows, in any order, repeatedly, and possibly dying halfway.
 */
module SearchIndexes {
  import opened Results
  import P = OutboxPipelines

  // ---------------------------------------------------------------------
  // Rows, documents and workers
  // ---------------------------------------------------------------------

  /** `content` stands for every column a document copies: name, price, stock, rating, auction state. */
  datatype Product = Product(category: nat, published: bool, content: nat)

  datatype Document = Document(category: nat, categoryName: string, content: nat)

  /** What an event is about, as its type and aggregate id say. */
  datatype Subject =
    | Touched(product: nat) | Removed(product: nat) | Renamed(category: nat) | Dropped(category: nat) | Other

  /** A row a pass has read and not yet written to the index. */
  datatype Loaded = Loaded(product: nat, document: Option<Document>)

  /**
   One pass of the consumer over an event: the products it
   still has to synchronize, one of them perhaps half done.
   */
  datatype Worker = Worker(event: nat, todo: set<nat>, held: Option<Loaded>)

  /** `used` are all product ids ever given out; `last` remembers the last event whose write concerned a product. */
  datatype Catalog = Catalog(
    pipeline: P.Pipeline, subjects: seq<Subject>, products: map<nat, Product>, categories: map<nat, string>,
    index: map<nat, Document>, workers: seq<Worker>, used: set<nat>, last: map<nat, nat>)

  // ---------------------------------------------------------------------
  // Writers
  // ---------------------------------------------------------------------

  function Announce(c: Catalog, aggregate: P.Aggregate, subject: Subject): Catalog {
    c.(pipeline := P.Commit(c.pipeline, aggregate), subjects := c.subjects + [subject])
  }

  /** Product rows come and go under ids that are never given out twice; a row's category must exist. */
  function CreateProduct(c: Catalog, p: nat, row: Product): Catalog {
    if p in c.used || row.category !in c.categories then c
    else Announce(c, P.Product, Touched(p)).(
      products := c.products[p := row], used := c.used + {p}, last := c.last[p := |c.subjects|])
  }

  /** A seller's edit, a sale, a restock, a review or an auction's transition: any of them rewrites the row. */
  function UpdateProduct(c: Catalog, p: nat, row: Product): Catalog {
    if p !in c.products || row.category !in c.categories then c
    else Announce(c, P.Product, Touched(p)).(products := c.products[p := row], last := c.last[p := |c.subjects|])
  }

  function DeleteProduct(c: Catalog, p: nat): Catalog {
    if p !in c.products then c
    else Announce(c, P.Product, Removed(p)).(products := c.products - {p}, last := c.last[p := |c.subjects|])
  }

  function CreateCategory(c: Catalog, id: nat, name: string): Catalog {
    if id in c.categories then c else c.(categories := c.categories[id := name])
  }

  function InCategory(c: Catalog, id: nat): set<nat> {
    set p | p in c.products && c.products[p].category == id
  }

  function RenameCategory(c: Catalog, id: nat, name: string): Catalog {
    if id !in c.categories then c
    else Announce(c, P.Category, Renamed(id)).(
      categories := c.categories[id := name],
      last := map p | p in c.last.Keys + InCategory(c, id) ::
                if p in InCategory(c, id) then |c.subjects| else c.last[p])
  }

  /** Refused while any product references the category. */
  function DeleteCategory(c: Catalog, id: nat): Catalog {
    if id !in c.categories || InCategory(c, id) != {} then c
    else Announce(c, P.Category, Dropped(id)).(categories := c.categories - {id})
  }

  // ---------------------------------------------------------------------
  // The consumer
  // ---------------------------------------------------------------------

  /** loadSearchDocument: the current row as a document; nothing for a row unpublished or gone. */
  function Projection(c: Catalog, p: nat): Option<Document> {
    if p in c.products && c.products[p].published then
      var row := c.products[p];
      Some(Document(row.category, if row.category in c.categories then c.categories[row.category] else "", row.content))
    else None
  }

  function Indexed(c: Catalog, p: nat): Option<Document> {
    if p in c.index then Some(c.index[p]) else None
  }

  function PutDocument(c: Catalog, p: nat, doc: Option<Document>): Catalog {
    c.(index := if doc.Some? then c.index[p := doc.value] else c.index - {p})
  }

  /** The products an event's dispatch goes through, read when the dispatch starts. */
  function Todo(c: Catalog, e: nat): set<nat>
    requires e < |c.subjects|
  {
    match c.subjects[e]
    case Touched(p) => {p}
    case Removed(p) => {p}
    case Renamed(id) => InCategory(c, id)
    case _ => {}
  }

  /** A worker takes a live job up; whether the event is processed by now makes no difference to what it does. */
  function StartWork(c: Catalog, k: P.JobKey): Catalog {
    if P.IsLive(c.pipeline, k) && k.0 == P.SearchSync && c.pipeline.jobs[k].event < |c.subjects| then
      var e := c.pipeline.jobs[k].event;
      c.(workers := c.workers + [Worker(e, Todo(c, e), None)])
    else c
  }

  /** What a pass writes for a product: the row it reads now, or nothing for a removal, which does not read. */
  function Loads(c: Catalog, e: nat, p: nat): Option<Document>
    requires e < |c.subjects|
  {
    if c.subjects[e].Removed? then None else Projection(c, p)
  }

  function LoadProduct(c: Catalog, w: nat, p: nat): Catalog {
    if w < |c.workers| && p in c.workers[w].todo && c.workers[w].held.None? && c.workers[w].event < |c.subjects| then
      var worker := c.workers[w];
      c.(workers := c.workers[w := worker.(held := Some(Loaded(p, Loads(c, worker.event, p))))])
    else c
  }

  function StoreProduct(c: Catalog, w: nat): Catalog {
    if w < |c.workers| && c.workers[w].held.Some? then
      var worker := c.workers[w];
      var l := worker.held.value;
      PutDocument(c, l.product, l.document).(
        workers := c.workers[w := worker.(todo := worker.todo - {l.product}, held := None)])
    else c
  }

  /** The worker dies, or its write fails: what it had read is gone. */
  function DropLoaded(c: Catalog, w: nat): Catalog {
    if w < |c.workers| then c.(workers := c.workers[w := c.workers[w].(held := None)]) else c
  }

  /** Only a pass that got through all its products inserts the processed row. */
  function FinishWork(c: Catalog, w: nat): Catalog {
    if w < |c.workers| && c.workers[w].todo == {}
    then c.(pipeline := P.Process(c.pipeline, P.SearchSync, c.workers[w].event))
    else c
  }

  // ---------------------------------------------------------------------
  // Runs
  // ---------------------------------------------------------------------

  datatype Step =
    | DoCreate(product: nat, row: Product) | DoUpdate(product: nat, row: Product) | DoDelete(product: nat)
    | DoCreateCategory(category: nat, name: string) | DoRename(category: nat, name: string) | DoDrop(category: nat)
    | DoElsewhere(aggregate: P.Aggregate)
    | DoStart(job: P.JobKey) | DoLoad(worker: nat, loaded: nat)
    | DoStore(worker: nat) | DoDie(worker: nat) | DoFinish(worker: nat)
    | DoPipeline(step: P.Step)

  /** Steps of publisher, queues and listeners; commits and this consumer's marks come only from the steps above. */
  predicate IsPlumbing(step: P.Step) {
    !step.DoCommit? && !(step.DoProcess? && step.queue == P.SearchSync)
  }

  function Apply(c: Catalog, step: Step): Catalog {
    match step
    case DoCreate(p, row) => CreateProduct(c, p, row)
    case DoUpdate(p, row) => UpdateProduct(c, p, row)
    case DoDelete(p) => DeleteProduct(c, p)
    case DoCreateCategory(id, name) => CreateCategory(c, id, name)
    case DoRename(id, name) => RenameCategory(c, id, name)
    case DoDrop(id) => DeleteCategory(c, id)
    case DoElsewhere(aggregate) =>
      if aggregate.Product? || aggregate.Category? then c else Announce(c, aggregate, Other)
    case DoStart(k) => StartWork(c, k)
    case DoLoad(w, p) => LoadProduct(c, w, p)
    case DoStore(w) => StoreProduct(c, w)
    case DoDie(w) => DropLoaded(c, w)
    case DoFinish(w) => FinishWork(c, w)
    case DoPipeline(s) => if IsPlumbing(s) then c.(pipeline := P.Apply(c.pipeline, s)) else c
  }

  function Run(c: Catalog, steps: seq<Step>): Catalog
    decreases |steps|
  {
    if steps == [] then c else Run(Apply(c, steps[0]), steps[1..])
  }

  predicate IsHeld(c: Catalog, p: nat) {
    exists i :: 0 <= i < |c.workers| && c.workers[i].held.Some? && c.workers[i].held.value.product == p
  }

  /** No pass reads a product that another has read and not yet written; one worker at a time is enough for that. */
  predicate PassesTakeTurns(c: Catalog, steps: seq<Step>)
    decreases |steps|
  {
    steps == []
    || (!(steps[0].DoLoad? && IsHeld(c, steps[0].loaded)) && PassesTakeTurns(Apply(c, steps[0]), steps[1..]))
  }

  const EMPTY := Catalog(P.EMPTY, [], map[], map[], map[], [], {}, map[])

  // ---------------------------------------------------------------------
  // What every run keeps
  // ---------------------------------------------------------------------

  predicate IsFresh(c: Catalog, p: nat) {
    Indexed(c, p) == Projection(c, p)
  }

  /** Every row has a category, every id is used, and removed ids stay removed. */
  predicate RowsAgree(c: Catalog) {
    && (forall p | p in c.products :: p in c.used && c.products[p].category in c.categories)
    && (forall e | 0 <= e < |c.subjects| && c.subjects[e].Removed? ::
          c.subjects[e].product in c.used && c.subjects[e].product !in c.products)
  }

  function AggregateOf(subject: Subject): Option<P.Aggregate> {
    if subject.Touched? || subject.Removed? then Some(P.Product)
    else if subject.Renamed? || subject.Dropped? then Some(P.Category)
    else None
  }

  predicate EventsAgree(c: Catalog) {
    && |c.subjects| == |c.pipeline.outbox|
    && (forall e | 0 <= e < |c.subjects| && AggregateOf(c.subjects[e]).Some? ::
          c.pipeline.outbox[e].aggregate == AggregateOf(c.subjects[e]).value)
    && (forall x | x in c.pipeline.processed :: x.1 < |c.subjects|)
  }

  /** Whether an event's write is about this product's current row. */
  predicate Concerns(c: Catalog, e: nat, p: nat) {
    && e < |c.subjects|
    && match c.subjects[e]
       case Touched(x) => x == p
       case Removed(x) => x == p && p !in c.products
       case Renamed(id) => p in c.products && c.products[p].category == id
       case _ => false
  }

  predicate LastConcerns(c: Catalog) {
    forall p | p in c.last :: Concerns(c, c.last[p], p)
  }

  predicate IsProcessed(c: Catalog, e: nat) {
    (P.SearchSync, e) in c.pipeline.processed
  }

  /** A document that differs from its row has its last event still unprocessed. */
  ghost predicate StaleIsUnprocessed(c: Catalog) {
    forall p: nat :: !IsFresh(c, p) ==> p in c.last && !IsProcessed(c, c.last[p])
  }

  /** The document is the row's, and so is whatever passes have read of it and not yet written. */
  predicate IsSettled(c: Catalog, p: nat) {
    && IsFresh(c, p)
    && forall w | w in c.workers && w.held.Some? && w.held.value.product == p ::
         w.held.value.document == Projection(c, p)
  }

  /** What a pass has read is current, unless a later event about that product is still unprocessed. */
  predicate HolderAgrees(c: Catalog, w: Worker) {
    w.held.Some? ==>
      var l := w.held.value;
      && l.product in w.todo
      && (l.document == Projection(c, l.product)
          || (l.product in c.last && c.last[l.product] != w.event && !IsProcessed(c, c.last[l.product])))
  }

  /** A pass leaves behind it nothing unsettled that its own event was the last to concern. */
  predicate WorkerAgrees(c: Catalog, w: Worker) {
    && w.event < |c.subjects|
    && (c.subjects[w.event].Removed? ==> w.todo <= {c.subjects[w.event].product})
    && (forall p | p in c.last && c.last[p] == w.event :: p in w.todo || IsSettled(c, p))
    && HolderAgrees(c, w)
  }

  predicate OneHolder(c: Catalog) {
    forall i, j | 0 <= i < j < |c.workers| && c.workers[i].held.Some? && c.workers[j].held.Some? ::
      c.workers[i].held.value.product != c.workers[j].held.value.product
  }

  predicate WorkersAgree(c: Catalog) {
    (forall w | w in c.workers :: WorkerAgrees(c, w)) && OneHolder(c)
  }

  ghost predicate Inv(c: Catalog) {
    && P.Inv(c.pipeline) && RowsAgree(c) && EventsAgree(c) && LastConcerns(c)
    && StaleIsUnprocessed(c) && WorkersAgree(c)
  }

  // Writes

  /** A write to one product: only its row changed, and its new last event concerns the row it left. */
  predicate WritesProduct(c: Catalog, c': Catalog, p: nat) {
    && |c'.subjects| == |c.subjects| + 1 && c'.subjects[..|c.subjects|] == c.subjects
    && c'.pipeline.processed == c.pipeline.processed
    && c'.workers == c.workers && c'.index == c.index && c'.categories == c.categories
    && c'.last == c.last[p := |c.subjects|]
    && c'.products - {p} == c.products - {p}
    && Concerns(c', |c.subjects|, p)
  }

  lemma OtherProductStays(c: Catalog, c': Catalog, p: nat, q: nat)
    requires WritesProduct(c, c', p) && q != p
    ensures IsFresh(c', q) == IsFresh(c, q) && Projection(c', q) == Projection(c, q)
    ensures forall e | 0 <= e < |c.subjects| && Concerns(c, e, q) :: Concerns(c', e, q)
  {
    var these, those := c.products - {p}, c'.products - {p};
    assert q in c.products <==> q in these;
    assert q in c'.products <==> q in those;
    assert q in these ==> c.products[q] == these[q] && c'.products[q] == those[q];
    assert forall e | 0 <= e < |c.subjects| :: c'.subjects[..|c.subjects|][e] == c'.subjects[e];
  }

  lemma ProductWriteKeeps(c: Catalog, c': Catalog, p: nat)
    requires EventsAgree(c) && LastConcerns(c) && StaleIsUnprocessed(c) && WorkersAgree(c) && WritesProduct(c, c', p)
    ensures LastConcerns(c') && StaleIsUnprocessed(c') && WorkersAgree(c')
  {
    hide IsFresh, Concerns;
    forall q: nat
      ensures q in c'.last ==> Concerns(c', c'.last[q], q)
      ensures !IsFresh(c', q) ==> q in c'.last && !IsProcessed(c', c'.last[q])
    {
      if q != p {
        OtherProductStays(c, c', p, q);
        assert q in c.last ==> Concerns(c, c.last[q], q);
        ConcernsKnown(c, q);
      }
    }
    forall w | w in c'.workers
      ensures WorkerAgrees(c', w)
    {
      assert WorkerAgrees(c, w);
      assert c'.subjects[..|c.subjects|][w.event] == c'.subjects[w.event];
      forall q | q in c'.last && c'.last[q] == w.event
        ensures q in w.todo || IsSettled(c', q)
      {
        OtherProductStays(c, c', p, q);
      }
      if w.held.Some? && w.held.value.product != p {
        OtherProductStays(c, c', p, w.held.value.product);
      }
    }
  }

  lemma ConcernsKnown(c: Catalog, p: nat)
    requires LastConcerns(c)
    ensures p in c.last ==> c.last[p] < |c.subjects|
  {}

  lemma CommitKeeps(s: P.Pipeline, aggregate: P.Aggregate)
    requires P.Inv(s)
    ensures P.Inv(P.Commit(s, aggregate))
  {}

  lemma CreateKeeps(c: Catalog, p: nat, row: Product)
    requires Inv(c)
    ensures Inv(CreateProduct(c, p, row))
  {
    var c' := CreateProduct(c, p, row);
    hide P.Inv;
    CommitKeeps(c.pipeline, P.Product);
    if c' != c {
      assert c'.products - {p} == c.products - {p};
      ProductWriteKeeps(c, c', p);
      hide LastConcerns, StaleIsUnprocessed, WorkersAgree;
    }
  }

  lemma UpdateKeeps(c: Catalog, p: nat, row: Product)
    requires Inv(c)
    ensures Inv(UpdateProduct(c, p, row))
  {
    var c' := UpdateProduct(c, p, row);
    hide P.Inv;
    CommitKeeps(c.pipeline, P.Product);
    if c' != c {
      assert c'.products - {p} == c.products - {p};
      ProductWriteKeeps(c, c', p);
      hide LastConcerns, StaleIsUnprocessed, WorkersAgree;
    }
  }

  lemma DeleteKeeps(c: Catalog, p: nat)
    requires Inv(c)
    ensures Inv(DeleteProduct(c, p))
  {
    var c' := DeleteProduct(c, p);
    hide P.Inv;
    CommitKeeps(c.pipeline, P.Product);
    if c' != c {
      assert c'.products - {p} == c.products - {p};
      ProductWriteKeeps(c, c', p);
      hide LastConcerns, StaleIsUnprocessed, WorkersAgree;
    }
  }

  /** A category write: every product in the category gets this event as its last. */
  lemma RenamedProduct(c: Catalog, id: nat, name: string, p: nat)
    requires id in c.categories
    ensures var c' := RenameCategory(c, id, name);
            && (p in InCategory(c, id) ==> p in c'.last && c'.last[p] == |c.subjects|)
            && (p !in InCategory(c, id) ==>
                  (p in c'.last <==> p in c.last) && (p in c.last ==> c'.last[p] == c.last[p]))
            && (p !in InCategory(c, id) ==> IsFresh(c', p) == IsFresh(c, p) && Projection(c', p) == Projection(c, p))
            && (forall e | 0 <= e < |c.subjects| && Concerns(c, e, p) :: Concerns(c', e, p))
            && (p in InCategory(c, id) ==> Concerns(c', |c.subjects|, p))
  {}

  lemma RenameKeepsIndex(c: Catalog, id: nat, name: string)
    requires id in c.categories
    requires EventsAgree(c) && LastConcerns(c) && StaleIsUnprocessed(c) && WorkersAgree(c)
    ensures var c' := RenameCategory(c, id, name); LastConcerns(c') && StaleIsUnprocessed(c') && WorkersAgree(c')
  {
    var c' := RenameCategory(c, id, name);
    assert c'.workers == c.workers && c'.pipeline.processed == c.pipeline.processed;
    assert c'.subjects == c.subjects + [Renamed(id)];
    hide IsFresh, Concerns, RenameCategory, InCategory;
    forall q: nat
      ensures q in c'.last ==> Concerns(c', c'.last[q], q)
      ensures !IsFresh(c', q) ==> q in c'.last && !IsProcessed(c', c'.last[q])
    {
      RenamedProduct(c, id, name, q);
      assert q in c.last ==> Concerns(c, c.last[q], q);
      ConcernsKnown(c, q);
    }
    forall w | w in c'.workers
      ensures WorkerAgrees(c', w)
    {
      assert WorkerAgrees(c, w);
      forall q | q in c'.last && c'.last[q] == w.event
        ensures q in w.todo || IsSettled(c', q)
      {
        RenamedProduct(c, id, name, q);
      }
      if w.held.Some? {
        RenamedProduct(c, id, name, w.held.value.product);
      }
    }
  }

  lemma RenameKeeps(c: Catalog, id: nat, name: string)
    requires Inv(c)
    ensures Inv(RenameCategory(c, id, name))
  {
    hide P.Inv;
    CommitKeeps(c.pipeline, P.Category);
    if id in c.categories {
      RenameKeepsIndex(c, id, name);
      hide LastConcerns, StaleIsUnprocessed, WorkersAgree;
    }
  }

  /** Steps that leave rows, documents and last events as they are, and process nothing more here. */
  predicate SameProducts(c: Catalog, c': Catalog) {
    && c'.products == c.products && c'.index == c.index && c'.last == c.last && c'.workers == c.workers
    && |c.subjects| <= |c'.subjects| && c'.subjects[..|c.subjects|] == c.subjects
    && (forall x | x in c'.pipeline.processed && x.0 == P.SearchSync :: x in c.pipeline.processed)
    && (forall p | p in c.products && c.products[p].category in c.categories ::
          c.products[p].category in c'.categories
          && c'.categories[c.products[p].category] == c.categories[c.products[p].category])
  }

  lemma SameProductsKeeps(c: Catalog, c': Catalog)
    requires RowsAgree(c) && LastConcerns(c) && StaleIsUnprocessed(c) && WorkersAgree(c) && SameProducts(c, c')
    ensures LastConcerns(c') && StaleIsUnprocessed(c') && WorkersAgree(c')
  {
    assert forall e | 0 <= e < |c.subjects| :: c'.subjects[e] == c'.subjects[..|c.subjects|][e];
    assert forall p: nat :: IsFresh(c', p) == IsFresh(c, p) && Projection(c', p) == Projection(c, p);
    hide IsFresh, Projection;
    forall p | p in c'.last
      ensures Concerns(c', c'.last[p], p)
    {
      assert Concerns(c, c.last[p], p);
    }
    forall w | w in c'.workers
      ensures WorkerAgrees(c', w)
    {
      assert WorkerAgrees(c, w);
    }
  }

  lemma DropKeeps(c: Catalog, id: nat)
    requires Inv(c)
    ensures Inv(DeleteCategory(c, id))
  {
    var c' := DeleteCategory(c, id);
    hide P.Inv;
    CommitKeeps(c.pipeline, P.Category);
    if c' != c {
      forall p | p in c.products
        ensures c.products[p].category != id
      {
        assert p !in InCategory(c, id);
      }
      SameProductsKeeps(c, c');
      hide LastConcerns, StaleIsUnprocessed, WorkersAgree;
    }
  }

  lemma ElsewhereKeeps(c: Catalog, aggregate: P.Aggregate)
    requires Inv(c) && !aggregate.Product? && !aggregate.Category?
    ensures Inv(Announce(c, aggregate, Other))
  {
    hide P.Inv;
    CommitKeeps(c.pipeline, aggregate);
    SameProductsKeeps(c, Announce(c, aggregate, Other));
    hide LastConcerns, StaleIsUnprocessed, WorkersAgree;
  }

  lemma CreateCategoryKeeps(c: Catalog, id: nat, name: string)
    requires Inv(c)
    ensures Inv(CreateCategory(c, id, name))
  {
    hide P.Inv;
    if id !in c.categories {
      SameProductsKeeps(c, CreateCategory(c, id, name));
      hide LastConcerns, StaleIsUnprocessed, WorkersAgree;
    }
  }

  lemma PlumbingLeaves(s: P.Pipeline, step: P.Step)
    requires IsPlumbing(step)
    ensures var s' := P.Apply(s, step);
            && |s'.outbox| == |s.outbox|
            && (forall e | 0 <= e < |s.outbox| :: s'.outbox[e].aggregate == s.outbox[e].aggregate)
            && (forall x | x in s'.processed :: x in s.processed || (x.0 != P.SearchSync && x.1 < |s.outbox|))
  {}

  lemma PlumbingKeeps(c: Catalog, step: P.Step)
    requires Inv(c) && IsPlumbing(step)
    ensures Inv(c.(pipeline := P.Apply(c.pipeline, step)))
  {
    var c' := c.(pipeline := P.Apply(c.pipeline, step));
    hide P.Inv, P.Apply;
    P.StepKeepsInv(c.pipeline, step);
    PlumbingLeaves(c.pipeline, step);
    SameProductsKeeps(c, c');
    hide LastConcerns, StaleIsUnprocessed, WorkersAgree;
  }

  // The consumer

  lemma StartKeeps(c: Catalog, k: P.JobKey)
    requires Inv(c)
    ensures Inv(StartWork(c, k))
  {
    hide P.Inv;
    var c' := StartWork(c, k);
    if c' != c {
      var w := c'.workers[|c.workers|];
      forall p | p in c.last && c.last[p] == w.event
        ensures p in w.todo
      {
        assert Concerns(c, c.last[p], p);
      }
      SameRowsSameFreshness(c, c');
      hide IsFresh, Projection, Todo;
      forall x | x in c'.workers
        ensures WorkerAgrees(c', x)
      {
        assert x == w || WorkerAgrees(c, x);
      }
    }
  }

  lemma SameRowsSameFreshness(c: Catalog, c': Catalog)
    requires c'.products == c.products && c'.categories == c.categories && c'.index == c.index
    ensures forall p: nat :: IsFresh(c', p) == IsFresh(c, p) && Projection(c', p) == Projection(c, p)
  {}

  lemma LoadKeeps(c: Catalog, w: nat, p: nat)
    requires Inv(c) && !IsHeld(c, p)
    ensures Inv(LoadProduct(c, w, p))
  {
    hide P.Inv;
    var c' := LoadProduct(c, w, p);
    if c' != c {
      assert WorkerAgrees(c, c.workers[w]);
      assert c'.workers[w].held.value.document == Projection(c, p);
      SameRowsSameFreshness(c, c');
      hide IsFresh, Projection;
      forall x | x in c'.workers
        ensures WorkerAgrees(c', x)
      {
        assert x == c'.workers[w] || WorkerAgrees(c, x);
      }
    }
  }

  lemma DieKeeps(c: Catalog, w: nat)
    requires Inv(c)
    ensures Inv(DropLoaded(c, w))
  {
    hide P.Inv;
    var c' := DropLoaded(c, w);
    if w < |c.workers| {
      assert WorkerAgrees(c, c.workers[w]);
      SameRowsSameFreshness(c, c');
      hide IsFresh, Projection;
      forall x | x in c'.workers
        ensures WorkerAgrees(c', x)
      {
        assert x == c'.workers[w] || WorkerAgrees(c, x);
      }
    }
  }

  lemma StoreWrites(c: Catalog, w: nat)
    requires w < |c.workers| && c.workers[w].held.Some?
    ensures var c', l := StoreProduct(c, w), c.workers[w].held.value;
            && Indexed(c', l.product) == l.document
            && (forall q: nat | q != l.product :: Indexed(c', q) == Indexed(c, q))
            && (forall q: nat :: Projection(c', q) == Projection(c, q))
  {}

  lemma StoreKeeps(c: Catalog, w: nat)
    requires Inv(c)
    ensures Inv(StoreProduct(c, w))
  {
    hide P.Inv;
    var c' := StoreProduct(c, w);
    if w < |c.workers| && c.workers[w].held.Some? {
      StoreWrites(c, w);
      assert WorkerAgrees(c, c.workers[w]);
      hide Indexed, Projection;
      StoreKeepsWorkers(c, w);
      hide WorkersAgree;
    }
  }

  lemma StoreKeepsWorkers(c: Catalog, w: nat)
    requires w < |c.workers| && c.workers[w].held.Some? && WorkersAgree(c)
    ensures WorkersAgree(StoreProduct(c, w))
  {
    var c', p := StoreProduct(c, w), c.workers[w].held.value.product;
    StoreWrites(c, w);
    assert WorkerAgrees(c, c.workers[w]);
    hide Indexed, Projection;
    forall x | x in c'.workers && x.held.Some?
      ensures x.held.value.product != p && x in c.workers
    {
      var i :| 0 <= i < |c'.workers| && c'.workers[i] == x;
    }
    forall x | x in c'.workers
      ensures WorkerAgrees(c', x)
    {
      assert x == c'.workers[w] || WorkerAgrees(c, x);
    }
  }

  lemma FinishKeeps(c: Catalog, w: nat)
    requires Inv(c)
    ensures Inv(FinishWork(c, w))
  {
    hide P.Inv;
    var c' := FinishWork(c, w);
    if w < |c.workers| && c.workers[w].todo == {} {
      var e := c.workers[w].event;
      P.StepKeepsInv(c.pipeline, P.DoProcess(P.SearchSync, e));
      assert WorkerAgrees(c, c.workers[w]);
      SameRowsSameFreshness(c, c');
      hide IsFresh, Projection;
      forall x | x in c.workers
        ensures WorkerAgrees(c', x)
      {
        assert WorkerAgrees(c, x);
      }
    }
  }

  lemma StepKeeps(c: Catalog, step: Step)
    requires Inv(c) && !(step.DoLoad? && IsHeld(c, step.loaded))
    ensures Inv(Apply(c, step))
  {
    hide Inv, CreateProduct, UpdateProduct, DeleteProduct, CreateCategory, RenameCategory, DeleteCategory, Announce;
    hide StartWork, LoadProduct, StoreProduct, DropLoaded, FinishWork, P.Apply;
    match step
    case DoCreate(p, row) => CreateKeeps(c, p, row);
    case DoUpdate(p, row) => UpdateKeeps(c, p, row);
    case DoDelete(p) => DeleteKeeps(c, p);
    case DoCreateCategory(id, name) => CreateCategoryKeeps(c, id, name);
    case DoRename(id, name) => RenameKeeps(c, id, name);
    case DoDrop(id) => DropKeeps(c, id);
    case DoElsewhere(aggregate) => if !aggregate.Product? && !aggregate.Category? { ElsewhereKeeps(c, aggregate); }
    case DoStart(k) => StartKeeps(c, k);
    case DoLoad(w, p) => LoadKeeps(c, w, p);
    case DoStore(w) => StoreKeeps(c, w);
    case DoDie(w) => DieKeeps(c, w);
    case DoFinish(w) => FinishKeeps(c, w);
    case DoPipeline(s) => if IsPlumbing(s) { PlumbingKeeps(c, s); }
  }

  lemma {:induction false} RunKeeps(c: Catalog, steps: seq<Step>)
    requires Inv(c) && PassesTakeTurns(c, steps)
    ensures Inv(Run(c, steps))
    decreases |steps|
  {
    if steps != [] {
      hide Inv, Apply;
      StepKeeps(c, steps[0]);
      RunKeeps(Apply(c, steps[0]), steps[1..]);
    }
  }

  lemma EmptyIsSound()
    ensures Inv(EMPTY)
  {}

  // ---------------------------------------------------------------------
  // Main results
  // ---------------------------------------------------------------------

  /**
   Committed, not processed, and still on its way: pending, on
   a live job, awaiting its failure notice or dead-lettered.
   */
  predicate IsOutstanding(s: P.Pipeline, e: nat) {
    && P.IsRouted(s, P.SearchSync, e) && (P.SearchSync, e) !in s.processed
    && (|| !s.outbox[e].published
        || P.HasLiveJob(s, P.SearchSync, e) || P.HasNotice(s, P.SearchSync, e) || P.HasDeadRow(s, P.SearchSync, e))
  }

  /** This very event's failure notice went unheard. */
  predicate NoticeWasLost(s: P.Pipeline, e: nat) {
    P.IsRouted(s, P.SearchSync, e) && (P.SearchSync, e) !in s.processed && (P.SearchSync, e) in s.dropped
  }

  predicate LosesNotice(c: Catalog, step: Step) {
    step.DoPipeline? && IsPlumbing(step.step) && P.LosesNotice(c.pipeline, step.step)
  }

  predicate HearsEveryNotice(c: Catalog, steps: seq<Step>)
    decreases |steps|
  {
    steps == [] || (!LosesNotice(c, steps[0]) && HearsEveryNotice(Apply(c, steps[0]), steps[1..]))
  }

  lemma HeardStepDropsNothing(c: Catalog, step: Step)
    requires !LosesNotice(c, step)
    ensures Apply(c, step).pipeline.dropped == c.pipeline.dropped
  {
    hide P.IsRouted, Projection, InCategory, Todo;
  }

  lemma {:induction false} NothingDropped(c: Catalog, steps: seq<Step>)
    requires HearsEveryNotice(c, steps)
    ensures Run(c, steps).pipeline.dropped == c.pipeline.dropped
    decreases |steps|
  {
    if steps != [] {
      hide Apply, LosesNotice;
      HeardStepDropsNothing(c, steps[0]);
      NothingDropped(Apply(c, steps[0]), steps[1..]);
    }
  }

  /** A stale document's last event is unprocessed, and on its way unless its own failure notice was lost. */
  lemma StaleIsUnderway(c: Catalog, p: nat)
    requires Inv(c) && !IsFresh(c, p)
    ensures p in c.last && Concerns(c, c.last[p], p) && c.last[p] < |c.pipeline.outbox|
    ensures IsOutstanding(c.pipeline, c.last[p]) || NoticeWasLost(c.pipeline, c.last[p])
  {
    hide IsFresh;
    var e := c.last[p];
    assert Concerns(c, e, p);
    assert c.pipeline.outbox[e].aggregate in {P.Product, P.Category};
    assert P.IsRouted(c.pipeline, P.SearchSync, e);
    assert !c.pipeline.outbox[e].published || P.IsKept(c.pipeline, P.SearchSync, e);
  }

  /**
   When passes take turns, a product's document is the projection of its current row, or an event about that very
   row is on its way, or that event's own failure notice was lost, whatever the order of deliveries, their number and
   the crashes between them. With every notice heard, only the first two remain.
   */
  lemma StaleIsOutstanding(steps: seq<Step>, p: nat) returns (e: nat)
    requires PassesTakeTurns(EMPTY, steps)
    ensures var c := Run(EMPTY, steps);
            || IsFresh(c, p)
            || (Concerns(c, e, p) && e < |c.pipeline.outbox|
                && (IsOutstanding(c.pipeline, e) || NoticeWasLost(c.pipeline, e)))
    ensures HearsEveryNotice(EMPTY, steps) ==>
            var c := Run(EMPTY, steps);
            IsFresh(c, p) || (Concerns(c, e, p) && e < |c.pipeline.outbox| && IsOutstanding(c.pipeline, e))
  {
    EmptyIsSound();
    RunKeeps(EMPTY, steps);
    var c := Run(EMPTY, steps);
    e := 0;
    if !IsFresh(c, p) {
      e := c.last[p];
      hide Run, Inv, IsFresh, IsOutstanding;
      StaleIsUnderway(c, p);
      if HearsEveryNotice(EMPTY, steps) {
        NothingDropped(EMPTY, steps);
      }
    }
  }

  /** Once the consumer has processed every event routed to it, the index is exactly the published catalog. */
  lemma QuiescentIndexIsExact(steps: seq<Step>, p: nat)
    requires PassesTakeTurns(EMPTY, steps)
    requires var s := Run(EMPTY, steps).pipeline;
             forall e | 0 <= e < |s.outbox| && P.SearchSync in P.RoutesOf(s.outbox[e].aggregate) ::
               (P.SearchSync, e) in s.processed
    ensures var c := Run(EMPTY, steps);
            (p in c.index <==> p in c.products && c.products[p].published) && Indexed(c, p) == Projection(c, p)
  {
    var e := StaleIsOutstanding(steps, p);
    hide Run, HearsEveryNotice, PassesTakeTurns;
  }

  // ---------------------------------------------------------------------
  // Why notices have to be heard
  // ---------------------------------------------------------------------

  function Plumbed(steps: seq<P.Step>): seq<Step> {
    if steps == [] then [] else [DoPipeline(steps[0])] + Plumbed(steps[1..])
  }

  lemma {:induction false} PlumbedRuns(c: Catalog, steps: seq<P.Step>)
    requires forall s | s in steps :: IsPlumbing(s)
    ensures Run(c, Plumbed(steps)) == c.(pipeline := P.Run(c.pipeline, steps)) && PassesTakeTurns(c, Plumbed(steps))
    decreases |steps|
  {
    if steps != [] {
      hide P.Apply, IsPlumbing;
      var c' := Apply(c, DoPipeline(steps[0]));
      assert c' == c.(pipeline := P.Apply(c.pipeline, steps[0]));
      PlumbedRuns(c', steps[1..]);
      assert Plumbed(steps)[1..] == Plumbed(steps[1..]);
    }
  }

  /** A new product whose event is handed over, fails for good and is never dead-lettered. */
  const LOST_NOTICE: seq<Step> := NEW_LAMP + Plumbed(P.UNHEARD)

  /**
   Even when passes take turns, one lost notice can leave a
   product out of the index for good: nothing is on its way.
   */
  lemma LostNoticeLeavesStale()
    ensures PassesTakeTurns(EMPTY, LOST_NOTICE)
    ensures var c := Run(EMPTY, LOST_NOTICE);
            && !IsFresh(c, 7) && Concerns(c, 0, 7) && 7 in c.products && c.products[7].published && 7 !in c.index
            && P.IsLost(c.pipeline, P.SearchSync, 0)
            && forall e | 0 <= e < |c.pipeline.outbox| :: !IsOutstanding(c.pipeline, e)
  {
    LostNoticeRuns();
    hide Run, PassesTakeTurns;
    var c := Unindexed();
    assert c.pipeline.outbox == [P.Row(P.Product, true, 0)];
    assert !P.HasLiveJob(c.pipeline, P.SearchSync, 0);
  }

  function Unindexed(): Catalog {
    Created().(pipeline := P.Forsaken())
  }

  const NEW_LAMP: seq<Step> := [DoCreateCategory(1, "Lamps"), DoCreate(7, OLD)]

  lemma NewLampRuns()
    ensures Run(EMPTY, NEW_LAMP) == Created() && PassesTakeTurns(EMPTY, NEW_LAMP)
    ensures Created().pipeline == P.Commit(P.EMPTY, P.Product)
  {
    CreateRuns();
    CreatedPipeline();
    hide CreateCategory, CreateProduct, Created;
    var made := CreateCategory(EMPTY, 1, "Lamps");
    var rest := [DoCreate(7, OLD)];
    assert rest[1..] == [] && NEW_LAMP[1..] == rest;
    assert Run(Created(), []) == Created() && PassesTakeTurns(Created(), []);
    assert Run(made, rest) == Created() && PassesTakeTurns(made, rest);
  }

  lemma CreatedPipeline()
    ensures Created().pipeline == P.Commit(P.EMPTY, P.Product)
  {}

  lemma UnheardIsPlumbing()
    ensures forall s | s in P.UNHEARD :: IsPlumbing(s)
  {}

  lemma LostNoticeRuns()
    ensures Run(EMPTY, LOST_NOTICE) == Unindexed() && PassesTakeTurns(EMPTY, LOST_NOTICE)
  {
    hide Run, PassesTakeTurns, Created, Unindexed, Plumbed, IsPlumbing, P.Run, P.Forsaken, P.Commit;
    NewLampRuns();
    P.UnheardRuns();
    UnheardIsPlumbing();
    PlumbedRuns(Created(), P.UNHEARD);
    RunOn(EMPTY, NEW_LAMP, Plumbed(P.UNHEARD));
    TurnsOn(EMPTY, NEW_LAMP, Plumbed(P.UNHEARD));
    UnindexedIs();
  }

  lemma UnindexedIs()
    ensures Created().(pipeline := P.Forsaken()) == Unindexed()
  {}

  lemma {:induction false} TurnsOn(c: Catalog, steps: seq<Step>, more: seq<Step>)
    requires PassesTakeTurns(c, steps) && PassesTakeTurns(Run(c, steps), more)
    ensures PassesTakeTurns(c, steps + more)
    decreases |steps|
  {
    hide Apply, IsHeld;
    if steps == [] {
      assert steps + more == more;
    } else {
      assert (steps + more)[1..] == steps[1..] + more;
      TurnsOn(Apply(c, steps[0]), steps[1..], more);
    }
  }

  // ---------------------------------------------------------------------
  // Why passes have to take turns
  // ---------------------------------------------------------------------

  const OLD := Product(1, true, 10)
  const NEW := Product(1, true, 20)
  const FIRST: P.JobKey := (P.SearchSync, P.Original(0))
  const SECOND: P.JobKey := (P.SearchSync, P.Original(1))

  /** One worker reads a new product; before it writes, the product is edited. */
  const SLOW_READ: seq<Step> :=
    [DoCreateCategory(1, "Lamps"), DoCreate(7, OLD), DoPipeline(P.DoAdd(0, P.SearchSync)), DoStart(FIRST), DoLoad(0, 7),
     DoUpdate(7, NEW)]

  /** A second worker processes the edit from start to end, then the first writes what it had read. */
  const LATE_WRITE: seq<Step> :=
    [DoPipeline(P.DoAdd(1, P.SearchSync)), DoStart(SECOND), DoLoad(1, 7), DoStore(1),
     DoFinish(1), DoStore(0), DoFinish(0)]

  function DocumentOf(row: Product): Document {
    Document(row.category, "Lamps", row.content)
  }

  function Created(): Catalog {
    Catalog(P.EMPTY.(outbox := [P.Row(P.Product, false, 0)]), [Touched(7)],
            map[7 := OLD], map[1 := "Lamps"], map[], [], {7},
            map[7 := 0])
  }

  function Reading(): Catalog {
    var c := Created();
    c.(pipeline := c.pipeline.(added := {(0, P.SearchSync)}, jobs := map[FIRST := P.Job(0, P.Live(0))]),
       workers := [Worker(0, {7}, Some(Loaded(7, Some(DocumentOf(OLD)))))])
  }

  function Edited(): Catalog {
    var c := Reading();
    c.(pipeline := c.pipeline.(outbox := [P.Row(P.Product, false, 0), P.Row(P.Product, false, 0)]),
       subjects := [Touched(7), Touched(7)], products := map[7 := NEW], last := map[7 := 1])
  }

  function ReadTwice(): Catalog {
    var c := Edited();
    c.(pipeline := P.Add(c.pipeline, 1, P.SearchSync),
       workers := c.workers + [Worker(1, {7}, Some(Loaded(7, Some(DocumentOf(NEW)))))])
  }

  function EditProcessed(): Catalog {
    var c := ReadTwice();
    c.(pipeline := P.Process(c.pipeline, P.SearchSync, 1), workers := Edited().workers + [Worker(1, {}, None)],
       index := map[7 := DocumentOf(NEW)])
  }

  function WrittenLate(): Catalog {
    var c := EditProcessed();
    c.(pipeline := P.Process(c.pipeline, P.SearchSync, 0), workers := [Worker(0, {}, None), Worker(1, {}, None)],
       index := map[7 := DocumentOf(OLD)])
  }

  lemma CreateRuns()
    ensures CreateProduct(CreateCategory(EMPTY, 1, "Lamps"), 7, OLD) == Created()
  {}

  lemma FirstReads()
    ensures LoadProduct(StartWork(Apply(Created(), DoPipeline(P.DoAdd(0, P.SearchSync))), FIRST), 0, 7) == Reading()
  {}

  lemma EditRuns()
    ensures UpdateProduct(Reading(), 7, NEW) == Edited()
  {}

  lemma SecondReads()
    ensures LoadProduct(StartWork(Apply(Edited(), DoPipeline(P.DoAdd(1, P.SearchSync))), SECOND), 1, 7) == ReadTwice()
  {}

  lemma SecondFinishes()
    ensures FinishWork(StoreProduct(ReadTwice(), 1), 1) == EditProcessed()
  {}

  lemma FirstWritesLate()
    ensures FinishWork(StoreProduct(EditProcessed(), 0), 0) == WrittenLate()
  {}

  lemma RunFrom(c: Catalog, steps: seq<Step>, i: nat)
    requires i < |steps|
    ensures Run(c, steps[i..]) == Run(Apply(c, steps[i]), steps[i + 1..])
  {}

  lemma RunNothing(c: Catalog)
    ensures Run(c, []) == c
  {}

  lemma SlowReadRuns()
    ensures Run(EMPTY, SLOW_READ) == Edited()
  {
    CreateRuns();
    FirstReads();
    EditRuns();
    hide Run, CreateCategory, CreateProduct, StartWork, LoadProduct, UpdateProduct, P.Add, Created, Reading, Edited;
    var steps := SLOW_READ;
    var c1 := CreateCategory(EMPTY, 1, "Lamps");
    var c3 := Apply(Created(), DoPipeline(P.DoAdd(0, P.SearchSync)));
    assert steps[0..] == steps && steps[6..] == [];
    RunFrom(EMPTY, steps, 0);
    RunFrom(c1, steps, 1);
    RunFrom(Created(), steps, 2);
    RunFrom(c3, steps, 3);
    RunFrom(StartWork(c3, FIRST), steps, 4);
    RunFrom(Reading(), steps, 5);
    RunNothing(Edited());
  }

  lemma LateWriteEnds()
    ensures Run(ReadTwice(), LATE_WRITE[3..]) == WrittenLate()
  {
    SecondFinishes();
    FirstWritesLate();
    hide Run, StoreProduct, FinishWork, ReadTwice, EditProcessed, WrittenLate;
    var steps := LATE_WRITE;
    RunFrom(ReadTwice(), steps, 3);
    RunFrom(StoreProduct(ReadTwice(), 1), steps, 4);
    RunFrom(EditProcessed(), steps, 5);
    RunFrom(StoreProduct(EditProcessed(), 0), steps, 6);
    assert steps[7..] == [];
    RunNothing(WrittenLate());
  }

  lemma LateWriteRuns()
    ensures Run(Edited(), LATE_WRITE) == WrittenLate()
  {
    SecondReads();
    LateWriteEnds();
    hide Run, StartWork, LoadProduct, P.Add, Edited, ReadTwice, WrittenLate;
    var steps := LATE_WRITE;
    var c1 := Apply(Edited(), DoPipeline(P.DoAdd(1, P.SearchSync)));
    assert steps[0..] == steps;
    RunFrom(Edited(), steps, 0);
    RunFrom(c1, steps, 1);
    RunFrom(StartWork(c1, SECOND), steps, 2);
  }

  lemma {:induction false} RunOn(c: Catalog, steps: seq<Step>, more: seq<Step>)
    ensures Run(c, steps + more) == Run(Run(c, steps), more)
    decreases |steps|
  {
    hide Apply;
    if steps == [] {
      assert steps + more == more;
    } else {
      assert (steps + more)[1..] == steps[1..] + more;
      RunOn(Apply(c, steps[0]), steps[1..], more);
    }
  }

  /** Two passes that interleave a read and a write leave a wrong document with every event processed. */
  lemma OverlappingPassesFail()
    ensures var c := Run(EMPTY, SLOW_READ + LATE_WRITE);
            && (forall e | 0 <= e < |c.pipeline.outbox| :: (P.SearchSync, e) in c.pipeline.processed)
            && !IsFresh(c, 7) && 7 in c.index && 7 in c.products && c.index[7].content != c.products[7].content
  {
    RunOn(EMPTY, SLOW_READ, LATE_WRITE);
    SlowReadRuns();
    LateWriteRuns();
    hide Run;
  }
}
