/** The four todo handlers as operations of one in-memory store:
    create (POST), list (GET), update (PATCH) and delete (DELETE). Each handler
    is one atomic step; the collection is a sequence of records in insertion
    order, and the store hands out a fresh id to every record it inserts. */
module TodosRouter {
  import opened Todos

  /** Outcome of a create: the stored record, or a rejected body. */
  datatype CreateResult = Created(todo: Todo) | Invalid

  /** Outcome of an update or a delete. */
  datatype Status = Ok | NotFound

  /** The record an update leaves in place of `t` (the writes to the current
      todo before it is saved). */
  function Patched(t: Todo, value: string, order: int, done: Option<bool>, now: Time): (r: Todo)
    ensures r.id == t.id
    ensures r.value == (if value == "" then t.value else value)
    ensures order != 0 ==> r.order == order
    ensures order == 0 ==> r.order == t.order
    ensures done == Some(true) ==> r.doneAt == Some(now)
    ensures done == Some(false) ==> r.doneAt == None
    ensures done == None ==> r.doneAt == t.doneAt
  {
    t.(value := if value != "" then value else t.value,
       order := if order != 0 then order else t.order,
       doneAt := if done.None? then t.doneAt else if done.value then Some(now) else None)
  }

  /** The collection after the update of the record at position `i`: that
      record is patched, and the first record holding the requested non-zero
      order, if any, takes over the old order of record `i` (when that first
      record is `i` itself, its order stays as it was). */
  function AfterUpdate(s: seq<Todo>, i: nat, value: string, order: int, done: Option<bool>, now: Time): (r: seq<Todo>)
    requires i < |s|
    ensures |r| == |s|
  {
    var holder := if order != 0 then IndexOfOrder(s, order) else None;
    var swapped := if holder.Some? then s[holder.value := s[holder.value].(order := s[i].order)] else s;
    swapped[i := Patched(s[i], value, order, done, now)]
  }

  /** An update never changes an id, so distinct ids stay distinct. */
  lemma UpdateKeepsIds(s: seq<Todo>, i: nat, value: string, order: int, done: Option<bool>, now: Time)
    requires i < |s|
    ensures forall k :: 0 <= k < |s| ==> AfterUpdate(s, i, value, order, done, now)[k].id == s[k].id
    ensures IdsUnique(s) ==> IdsUnique(AfterUpdate(s, i, value, order, done, now))
  {
  }

  /** The field rules of an update for the record being updated. */
  lemma UpdateFields(s: seq<Todo>, i: nat, value: string, order: int, done: Option<bool>, now: Time)
    requires i < |s|
    ensures var r := AfterUpdate(s, i, value, order, done, now);
      && r[i].id == s[i].id
      && (value != "" ==> r[i].value == value)
      && (value == "" ==> r[i].value == s[i].value)
      && (done == Some(true) ==> r[i].doneAt == Some(now))
      && (done == Some(false) ==> r[i].doneAt == None)
      && (done == None ==> r[i].doneAt == s[i].doneAt)
  {
  }

  /** Moving to an order another record holds swaps the two orders; no third
      record changes. */
  lemma UpdateSwapsOrders(s: seq<Todo>, i: nat, j: nat, value: string, done: Option<bool>, now: Time)
    requires OrdersUnique(s)
    requires i < |s| && j < |s| && i != j
    requires s[j].order != 0
    ensures var r := AfterUpdate(s, i, value, s[j].order, done, now);
      && r[i].order == s[j].order
      && r[j] == s[j].(order := s[i].order)
      && (forall k :: 0 <= k < |s| && k != i && k != j ==> r[k] == s[k])
  {
  }

  /** Moving to an order nobody holds changes only the record being updated. */
  lemma UpdateToFreeOrder(s: seq<Todo>, i: nat, value: string, order: int, done: Option<bool>, now: Time)
    requires i < |s| && order != 0
    requires forall k :: 0 <= k < |s| ==> s[k].order != order
    ensures var r := AfterUpdate(s, i, value, order, done, now);
      && r[i].order == order
      && (forall k :: 0 <= k < |s| && k != i ==> r[k] == s[k])
  {
  }

  /** An order of 0 (or none supplied) leaves every order as it was and every
      other record untouched. */
  lemma UpdateWithoutOrder(s: seq<Todo>, i: nat, value: string, done: Option<bool>, now: Time)
    requires i < |s|
    ensures var r := AfterUpdate(s, i, value, 0, done, now);
      && (forall k :: 0 <= k < |s| ==> r[k].order == s[k].order)
      && (forall k :: 0 <= k < |s| && k != i ==> r[k] == s[k])
  {
  }

  /** Requesting the order the record already has is a no-op swap: no order
      changes and no other record changes, even when orders repeat. */
  lemma UpdateToOwnOrder(s: seq<Todo>, i: nat, value: string, done: Option<bool>, now: Time)
    requires i < |s|
    ensures var r := AfterUpdate(s, i, value, s[i].order, done, now);
      && (forall k :: 0 <= k < |s| ==> r[k].order == s[k].order)
      && (forall k :: 0 <= k < |s| && k != i ==> r[k] == s[k])
  {
  }

  /** Every update keeps orders unique. */
  lemma UpdateKeepsOrdersUnique(s: seq<Todo>, i: nat, value: string, order: int, done: Option<bool>, now: Time)
    requires i < |s|
    requires OrdersUnique(s)
    ensures OrdersUnique(AfterUpdate(s, i, value, order, done, now))
  {
  }

  /** A create appends a record whose order is above all others, so orders
      stay unique; its id is above all others, so ids stay unique. */
  lemma CreateKeepsUnique(s: seq<Todo>, t: Todo)
    requires t.order == NextOrder(s)
    requires forall k :: 0 <= k < |s| ==> s[k].id < t.id
    ensures OrdersUnique(s) ==> OrdersUnique(s + [t])
    ensures IdsUnique(s) ==> IdsUnique(s + [t])
  {
  }

  /** The collection without the record at position `i` (`deleteOne`). */
  function RemoveAt(s: seq<Todo>, i: nat): (r: seq<Todo>)
    requires i < |s|
    ensures |r| == |s| - 1
    ensures forall k :: 0 <= k < |r| ==> r[k] == if k < i then s[k] else s[k + 1]
    ensures multiset(r) + multiset{s[i]} == multiset(s)
  {
    assert s == s[..i] + [s[i]] + s[i + 1..];
    s[..i] + s[i + 1..]
  }

  /** Removing a record keeps ids and orders unique. */
  lemma DeleteKeepsUnique(s: seq<Todo>, i: nat)
    requires i < |s|
    ensures IdsUnique(s) ==> IdsUnique(RemoveAt(s, i))
    ensures OrdersUnique(s) ==> OrdersUnique(RemoveAt(s, i))
  {
  }

  /** After removing the record at `i`, its id is no longer found. */
  lemma DeleteForgetsId(s: seq<Todo>, i: nat)
    requires IdsUnique(s)
    requires i < |s|
    ensures IndexOfId(RemoveAt(s, i), s[i].id) == None
  {
  }

  /** Removing the record at `i` leaves every other id findable, and only
      those. */
  lemma DeleteKeepsOthers(s: seq<Todo>, i: nat, id: Id)
    requires i < |s|
    requires id != s[i].id
    ensures IndexOfId(RemoveAt(s, i), id).Some? <==> IndexOfId(s, id).Some?
  {
    var r := RemoveAt(s, i);
    if IndexOfId(s, id).Some? {
      var k := IndexOfId(s, id).value;
      assert r[if k < i then k else k - 1].id == id;
    }
    if IndexOfId(r, id).Some? {
      var k := IndexOfId(r, id).value;
      assert s[if k < i then k else k + 1].id == id;
    }
  }

  /** A new todo is listed first: its order is above every other. */
  lemma CreatedListedFirst(s: seq<Todo>, t: Todo)
    requires t.order == NextOrder(s)
    ensures SortByOrderDesc(s + [t])[0] == t
  {
    var l := SortByOrderDesc(s + [t]);
    assert t in multiset(l) by { assert (s + [t])[|s|] == t; }
    var k :| 0 <= k < |l| && l[k] == t;
    assert l[0].order >= t.order;
    assert l[0] in multiset(s + [t]);
    var m :| 0 <= m < |s + [t]| && (s + [t])[m] == l[0];
  }

  /** After a delete, no listed record carries the deleted id. */
  lemma DeletedNotListed(s: seq<Todo>, i: nat)
    requires IdsUnique(s)
    requires i < |s|
    ensures forall t :: t in SortByOrderDesc(RemoveAt(s, i)) ==> t.id != s[i].id
  {
    var r := RemoveAt(s, i);
    DeleteForgetsId(s, i);
    forall t | t in SortByOrderDesc(r) ensures t.id != s[i].id {
      assert t in multiset(SortByOrderDesc(r));
      assert t in multiset(r);
      var k :| 0 <= k < |r| && r[k] == t;
    }
  }

  /** The todo collection. Records sit in insertion order; `nextId` is the id
      the next inserted record gets. */
  class TodoStore {
    var todos: seq<Todo>
    var nextId: Id

    /** Ids are distinct and below `nextId`. */
    ghost predicate Valid()
      reads this
    {
      IdsUnique(todos) && forall k :: 0 <= k < |todos| ==> todos[k].id < nextId
    }

    constructor ()
      ensures Valid() && todos == [] && nextId == 0
    {
      todos := [];
      nextId := 0;
    }

    /** POST /todos. */
    method Create(value: Option<string>) returns (r: CreateResult)
      requires Valid()
      modifies this
      ensures Valid()
      ensures !IsValidValue(value) ==> r == Invalid && todos == old(todos) && nextId == old(nextId)
      ensures IsValidValue(value) ==>
        && r == Created(Todo(old(nextId), value.value, NextOrder(old(todos)), None))
        && todos == old(todos) + [r.todo]
        && nextId == old(nextId) + 1
      ensures OrdersUnique(old(todos)) ==> OrdersUnique(todos)
    {
      if !IsValidValue(value) {
        return Invalid;
      }
      var max := MaxOrder(todos);
      var order := if max.Some? then max.value + 1 else 1;
      var todo := Todo(nextId, value.value, order, None);
      CreateKeepsUnique(todos, todo);
      todos := todos + [todo];
      nextId := nextId + 1;
      r := Created(todo);
    }

    /** GET /todos: every record, highest order first. */
    function List(): (r: seq<Todo>)
      reads this
      ensures SortedByOrderDesc(r)
      ensures multiset(r) == multiset(todos)
      ensures OrdersUnique(todos) ==> StrictlyDescByOrder(r)
    {
      ListStrictWhenUnique(todos);
      SortByOrderDesc(todos)
    }

    /** PATCH /todos/:todoId. */
    method Update(id: Id, value: string, order: int, done: Option<bool>, now: Time) returns (r: Status)
      requires Valid()
      modifies this
      ensures Valid() && nextId == old(nextId)
      ensures IndexOfId(old(todos), id).None? ==> r == NotFound && todos == old(todos)
      ensures IndexOfId(old(todos), id).Some? ==>
        && r == Ok
        && todos == AfterUpdate(old(todos), IndexOfId(old(todos), id).value, value, order, done, now)
      ensures OrdersUnique(old(todos)) ==> OrdersUnique(todos)
    {
      var found := IndexOfId(todos, id);
      if found.None? {
        return NotFound;
      }
      ghost var before := todos;
      var i := found.value;
      ghost var after := AfterUpdate(before, i, value, order, done, now);
      UpdateKeepsIds(before, i, value, order, done, now);
      if OrdersUnique(before) {
        UpdateKeepsOrdersUnique(before, i, value, order, done, now);
      }
      var current := todos[i];
      if value != "" {
        current := current.(value := value);
      }
      if order != 0 {
        var target := IndexOfOrder(todos, order);
        if target.Some? {
          var j := target.value;
          todos := todos[j := todos[j].(order := current.order)];
        }
        current := current.(order := order);
      }
      if done.Some? {
        current := current.(doneAt := if done.value then Some(now) else None);
      }
      assert current == after[i];
      todos := todos[i := current];
      r := Ok;
      assert todos == after;
    }

    /** DELETE /todos/:todoId. */
    method Delete(id: Id) returns (r: Status)
      requires Valid()
      modifies this
      ensures Valid() && nextId == old(nextId)
      ensures IndexOfId(old(todos), id).None? ==> r == NotFound && todos == old(todos)
      ensures IndexOfId(old(todos), id).Some? ==>
        var i := IndexOfId(old(todos), id).value;
        && r == Ok
        && todos == RemoveAt(old(todos), i)
        && IndexOfId(todos, id) == None
      ensures OrdersUnique(old(todos)) ==> OrdersUnique(todos)
    {
      var found := IndexOfId(todos, id);
      if found.None? {
        return NotFound;
      }
      var i := found.value;
      DeleteKeepsUnique(todos, i);
      DeleteForgetsId(todos, i);
      todos := todos[..i] + todos[i + 1..];
      r := Ok;
    }
  }

  // A walk-through: two creates get orders 1 and 2, moving
  // the first to order 2 swaps the two, the list shows the first one on top,
  // and after a delete the id is gone.

  const BuyMilk := Todo(0, "buy milk", 1, None)
  const WalkDog := Todo(1, "walk dog", 2, None)

  /** What the queries answer on the small collections of the walk-through below. */
  lemma ScenarioQueries()
    ensures MaxOrder([BuyMilk]) == Some(1)
    ensures IndexOfId([BuyMilk, WalkDog], 0) == Some(0)
    ensures IndexOfOrder([BuyMilk, WalkDog], 2) == Some(1)
    ensures SortByOrderDesc([BuyMilk.(order := 2), WalkDog.(order := 1)]) == [BuyMilk.(order := 2), WalkDog.(order := 1)]
    ensures IndexOfId([BuyMilk.(order := 2), WalkDog.(order := 1)], 1) == Some(1)
  {
    assert [BuyMilk][1..] == [];
    assert [BuyMilk, WalkDog][1..] == [WalkDog];
    assert IndexOfOrder([WalkDog], 2) == Some(0);
    var milk2, dog1 := BuyMilk.(order := 2), WalkDog.(order := 1);
    assert [milk2, dog1][1..] == [dog1];
    assert [dog1][1..] == [];
  }

  /** Two creates on an empty store get orders 1 and 2; an empty or missing
      value is rejected. */
  method ScenarioCreate() returns (store: TodoStore)
    ensures fresh(store) && store.Valid() && store.todos == [BuyMilk, WalkDog]
  {
    ScenarioQueries();
    assert |"buy milk"| == 8 && |"walk dog"| == 8;
    store := new TodoStore();
    var first := store.Create(Some("buy milk"));
    assert first == Created(BuyMilk);
    var second := store.Create(Some("walk dog"));
    assert second == Created(WalkDog);
    var empty := store.Create(Some(""));
    var missing := store.Create(None);
    assert empty == Invalid && missing == Invalid;
  }

  /** Moving "buy milk" to order 2 swaps it with "walk dog", and the list
      shows "buy milk" first. */
  method ScenarioReorder(store: TodoStore)
    requires store.Valid() && store.todos == [BuyMilk, WalkDog]
    modifies store
    ensures store.Valid() && store.todos == [BuyMilk.(order := 2), WalkDog.(order := 1)]
  {
    ScenarioQueries();
    var moved := store.Update(0, "", 2, None, 0);
    assert moved == Ok && store.todos == [BuyMilk.(order := 2), WalkDog.(order := 1)];
    assert store.List() == [BuyMilk.(order := 2), WalkDog.(order := 1)];
  }

  /** A deleted id is not found again, by a delete or by an update. */
  method ScenarioDelete(store: TodoStore)
    requires store.Valid() && store.todos == [BuyMilk.(order := 2), WalkDog.(order := 1)]
    modifies store
  {
    ScenarioQueries();
    var deleted := store.Delete(1);
    assert deleted == Ok;
    var again := store.Delete(1);
    assert again == NotFound;
    var patched := store.Update(1, "x", 0, Some(true), 0);
    assert patched == NotFound;
  }

  method ReorderScenario() {
    var store := ScenarioCreate();
    ScenarioReorder(store);
    ScenarioDelete(store);
  }
}
