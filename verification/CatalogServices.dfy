/** Product and category writes, and one uninterrupted pass of the search consumer, over one set of tables. */
module CatalogServices {
  import opened Results
  import opened SearchIndexes
  import P = OutboxPipelines
  import E = ProductEdits

  class CatalogService {
    var pipeline: P.Pipeline
    var subjects: seq<Subject>
    var products: map<nat, Product>
    var categories: map<nat, string>
    var index: map<nat, Document>
    ghost var workers: seq<Worker>
    ghost var used: set<nat>
    ghost var last: map<nat, nat>

    ghost function State(): Catalog
      reads this
    {
      Catalog(pipeline, subjects, products, categories, index, workers, used, last)
    }

    constructor ()
      ensures State() == EMPTY
    {
      pipeline, subjects, products, categories, index := P.EMPTY, [], map[], map[], map[];
      workers, used, last := [], {}, map[];
    }

    method RecordEvent(aggregate: P.Aggregate, subject: Subject)
      modifies `pipeline, `subjects
      ensures State() == Announce(old(State()), aggregate, subject)
    {
      pipeline := P.Commit(pipeline, aggregate);
      subjects := subjects + [subject];
    }

    /** `id` is the new row's generated id; false when the category does not exist. */
    method CreateForSeller(id: nat, row: Product) returns (created: bool)
      requires id !in used
      modifies this
      ensures created <==> row.category in old(categories)
      ensures State() == CreateProduct(old(State()), id, row)
    {
      if row.category !in categories {
        return false;
      }
      products := products[id := row];
      last, used := last[id := |subjects|], used + {id};
      RecordEvent(P.Product, Touched(id));
      created := true;
    }

    /** A seller's edit with nothing in between its read and its save. */
    method UpdateOwned(id: nat, edit: E.Edit) returns (updated: bool)
      modifies this
      ensures updated <==> id in old(products) && E.Merged(old(products)[id], edit).category in old(categories)
      ensures State() == if id in old(products)
                         then UpdateProduct(old(State()), id, E.Merged(old(products)[id], edit)) else old(State())
    {
      var existing := ReadOwned(id, edit);
      if existing.None? {
        return false;
      }
      updated := SaveOwned(id, existing.value, edit);
    }

    /** The first half: the row as it stands, if it may be edited as asked. */
    method ReadOwned(id: nat, edit: E.Edit) returns (existing: Option<Product>)
      ensures existing == if E.MayEdit(State(), id, edit) then Some(products[id]) else None
    {
      if id !in products || (edit.category.Some? && edit.category.value !in categories) {
        return None;
      }
      existing := Some(products[id]);
    }

    /** The second half, in a transaction of its own: the edit onto the row read before, and a save of all of it. */
    method SaveOwned(id: nat, existing: Product, edit: E.Edit) returns (saved: bool)
      modifies this
      ensures saved <==> E.Merged(existing, edit).category in old(categories)
      ensures State() == E.SaveProduct(old(State()), id, E.Merged(existing, edit))
    {
      var row := existing;
      if edit.category.Some? {
        row := row.(category := edit.category.value);
      }
      if edit.published.Some? {
        row := row.(published := edit.published.value);
      }
      if edit.content.Some? {
        row := row.(content := edit.content.value);
      }
      if row.category !in categories {
        return false;
      }
      products := products[id := row];
      last := last[id := |subjects|];
      RecordEvent(P.Product, Touched(id));
      saved := true;
    }

    method DeleteOwned(id: nat) returns (deleted: bool)
      modifies this
      ensures deleted <==> id in old(products)
      ensures State() == DeleteProduct(old(State()), id)
    {
      if id !in products {
        return false;
      }
      products := products - {id};
      last := last[id := |subjects|];
      RecordEvent(P.Product, Removed(id));
      deleted := true;
    }

    method UpdateCategory(id: nat, name: string) returns (found: bool)
      modifies this
      ensures found <==> id in old(categories)
      ensures State() == RenameCategory(old(State()), id, name)
    {
      if id !in categories {
        return false;
      }
      categories := categories[id := name];
      ghost var inside := InCategory(old(State()), id);
      last := map p | p in last.Keys + inside :: if p in inside then |subjects| else last[p];
      RecordEvent(P.Category, Renamed(id));
      found := true;
    }

    /** The count before the transaction; the foreign key behind it refuses the same categories. */
    method RemoveCategory(id: nat) returns (removed: bool)
      modifies this
      ensures removed <==> id in old(categories) && InCategory(old(State()), id) == {}
      ensures State() == DeleteCategory(old(State()), id)
    {
      if id !in categories {
        return false;
      }
      var inside := set p | p in products && products[p].category == id;
      if inside != {} {
        return false;
      }
      categories := categories - {id};
      RecordEvent(P.Category, Dropped(id));
      removed := true;
    }

    // The search consumer

    /**
     One delivery of an event, from the processed check to the processed insert with nothing in between: every
     product the event covers ends up with its current projection, no other document changes, and the event is
     processed. An event already processed changes nothing.
     */
    method Process(e: nat)
      requires e < |subjects| && |subjects| == |pipeline.outbox| && RowsAgree(State())
      requires P.IsRouted(pipeline, P.SearchSync, e)
      modifies `pipeline, `index
      ensures pipeline == P.Process(old(pipeline), P.SearchSync, e)
      ensures IsProcessed(old(State()), e) ==> index == old(index)
      ensures !IsProcessed(old(State()), e) ==>
                forall p: nat :: if p in Todo(old(State()), e) then IsFresh(State(), p)
                                 else Indexed(State(), p) == Indexed(old(State()), p)
    {
      if (P.SearchSync, e) in pipeline.processed {
        return;
      }
      Dispatch(e);
      ghost var dispatched := State();
      assert Todo(dispatched, e) == Todo(old(State()), e);
      pipeline := P.Process(pipeline, P.SearchSync, e);
      assert forall p: nat ::
        IsFresh(State(), p) == IsFresh(dispatched, p) && Indexed(State(), p) == Indexed(dispatched, p);
    }

    method Dispatch(e: nat)
      requires e < |subjects| && RowsAgree(State())
      modifies `index
      ensures forall p: nat :: if p in Todo(State(), e) then IsFresh(State(), p)
                               else Indexed(State(), p) == Indexed(old(State()), p)
    {
      match subjects[e]
      case Touched(p) =>
        SyncProductRow(p);
      case Removed(p) =>
        index := index - {p};
      case Renamed(id) =>
        SyncProductsForCategory(id);
      case _ =>
    }

    method SyncProductRow(p: nat)
      modifies `index
      ensures IsFresh(State(), p)
      ensures forall q: nat | q != p :: Indexed(State(), q) == Indexed(old(State()), q)
    {
      var document := LoadSearchDocument(p);
      if document.Some? {
        index := index[p := document.value];
      } else {
        index := index - {p};
      }
    }

    method LoadSearchDocument(p: nat) returns (document: Option<Document>)
      ensures document == Projection(State(), p)
    {
      if p !in products || !products[p].published {
        return None;
      }
      var row := products[p];
      var name := if row.category in categories then categories[row.category] else "";
      document := Some(Document(row.category, name, row.content));
    }

    /** Goes through the category's products in whatever order the query returned them. */
    method SyncProductsForCategory(id: nat)
      modifies `index
      ensures forall p: nat :: if p in InCategory(State(), id) then IsFresh(State(), p)
                               else Indexed(State(), p) == Indexed(old(State()), p)
    {
      var left := set p | p in products && products[p].category == id;
      while left != {}
        invariant left <= InCategory(State(), id)
        invariant forall p: nat ::
          if p in InCategory(State(), id) - left then IsFresh(State(), p)
          else Indexed(State(), p) == Indexed(old(State()), p)
        decreases |left|
      {
        var p :| p in left;
        SyncProductRow(p);
        left := left - {p};
      }
    }
  }
}
