/** The pure list updaters shared by the reducer store and the context store:
    replace the records with a given id, and drop the records with a given id. */
module TodoList {
  import opened TodoModel
  import JsArray

  /** The ids occurring in a list of records. */
  function Ids(items: seq<Todo>): (ids: set<Id>)
    ensures forall i :: 0 <= i < |items| ==> items[i].id in ids
    ensures forall id :: id in ids ==> exists i :: 0 <= i < |items| && items[i].id == id
  {
    set i | 0 <= i < |items| :: items[i].id
  }

  /** The mapping function `todo => todo.id === id ? record : todo`. */
  function ReplaceIf(id: Id, record: Todo): Todo -> Todo {
    (t: Todo) => if t.id == id then record else t
  }

  /** `items.map(todo => todo.id === id ? record : todo)`. */
  function ReplaceWhere(items: seq<Todo>, id: Id, record: Todo): (r: seq<Todo>)
    ensures |r| == |items|
    ensures forall i :: 0 <= i < |items| && items[i].id == id ==> r[i] == record
    ensures forall i :: 0 <= i < |items| && items[i].id != id ==> r[i] == items[i]
  {
    JsArray.Map(items, ReplaceIf(id, record))
  }

  /** Replacing records under an id no record has changes nothing. */
  lemma ReplaceAbsent(items: seq<Todo>, id: Id, record: Todo)
    requires id !in Ids(items)
    ensures ReplaceWhere(items, id, record) == items
  {
  }

  /** After a replacement the record is present whenever the id was, and no
      other record under that id survives. */
  lemma ReplacePresent(items: seq<Todo>, id: Id, record: Todo)
    requires id in Ids(items)
    ensures record in ReplaceWhere(items, id, record)
    ensures forall t :: t in ReplaceWhere(items, id, record) && t.id == id ==> t == record
  {
  }

  /** The filter predicate `todo => todo.id !== id`. */
  function OtherThan(id: Id): Todo -> bool {
    (t: Todo) => t.id != id
  }

  /** `items.filter(todo => todo.id !== id)`. */
  function RemoveById(items: seq<Todo>, id: Id): (r: seq<Todo>)
    ensures |r| <= |items|
    ensures id !in Ids(r)
    ensures multiset(r) <= multiset(items)
  {
    JsArray.FilterSubMultiset(items, OtherThan(id));
    JsArray.Filter(items, OtherThan(id))
  }

  /** Exactly the records under `id` are removed, each occurrence of the others kept. */
  lemma RemoveCount(items: seq<Todo>, id: Id, t: Todo)
    ensures multiset(RemoveById(items, id))[t] == if t.id == id then 0 else multiset(items)[t]
  {
    JsArray.FilterCount(items, OtherThan(id), t);
  }

  /** A record survives exactly when it was there under another id. */
  lemma RemoveMember(items: seq<Todo>, id: Id, t: Todo)
    ensures t in RemoveById(items, id) <==> t in items && t.id != id
  {
    JsArray.FilterMember(items, OtherThan(id), t);
  }

  /** Removal keeps the relative order of the remaining records. */
  lemma RemoveConcat(a: seq<Todo>, b: seq<Todo>, id: Id)
    ensures RemoveById(a + b, id) == RemoveById(a, id) + RemoveById(b, id)
  {
    JsArray.FilterConcat(a, b, OtherThan(id));
  }

  /** Removing an id no record has changes nothing. */
  lemma RemoveAbsent(items: seq<Todo>, id: Id)
    requires id !in Ids(items)
    ensures RemoveById(items, id) == items
  {
    forall i | 0 <= i < |items| ensures OtherThan(id)(items[i]) {
      assert items[i].id in Ids(items);
    }
    JsArray.FilterAll(items, OtherThan(id));
  }
}
