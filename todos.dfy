/** The Todo record, the creation rule for its text, and the read-only queries
    the router issues against the todo collection (find by id, find by order,
    the record with the highest order, everything sorted by order). */
module Todos {

  datatype Option<T> = None | Some(value: T)

  /** Document identifier assigned by the store when a record is inserted. */
  type Id = nat

  /** A wall-clock instant (the `new Date()` the router stamps on completion). */
  type Time = int

  /** One document of the collection: `{id, value, order, doneAt}`;
      `doneAt == None` means the todo is not done. */
  datatype Todo = Todo(id: Id, value: string, order: int, doneAt: Option<Time>)

  const MinValueLength: nat := 1
  const MaxValueLength: nat := 50

  /** The creation schema: `value` is required and is a string of 1 to 50
      characters. `None` stands for a body without `value` or with a `value`
      that is not a string. */
  function IsValidValue(value: Option<string>): (ok: bool)
    ensures value.None? ==> !ok
    ensures value == Some("") ==> !ok
    ensures value.Some? && |value.value| > MaxValueLength ==> !ok
    ensures value.Some? && 0 < |value.value| <= MaxValueLength ==> ok
  {
    value.Some? && MinValueLength <= |value.value| <= MaxValueLength
  }

  /** No two records share an `order`. */
  predicate OrdersUnique(s: seq<Todo>) {
    forall i, j :: 0 <= i < j < |s| ==> s[i].order != s[j].order
  }

  /** No two records share an `id`. */
  predicate IdsUnique(s: seq<Todo>) {
    forall i, j :: 0 <= i < j < |s| ==> s[i].id != s[j].id
  }

  /** `order` never increases from first to last. */
  predicate SortedByOrderDesc(s: seq<Todo>) {
    forall i, j :: 0 <= i < j < |s| ==> s[i].order >= s[j].order
  }

  /** `order` strictly decreases from first to last. */
  predicate StrictlyDescByOrder(s: seq<Todo>) {
    forall i, j :: 0 <= i < j < |s| ==> s[i].order > s[j].order
  }

  /** The largest `order` in the collection, `None` when it is empty
      (`findOne().sort('-order')`). */
  function MaxOrder(s: seq<Todo>): (r: Option<int>)
    ensures r.None? <==> s == []
    ensures r.Some? ==> forall i :: 0 <= i < |s| ==> s[i].order <= r.value
    ensures r.Some? ==> exists i :: 0 <= i < |s| && s[i].order == r.value
  {
    if s == [] then None
    else
      match MaxOrder(s[1..])
      case None => Some(s[0].order)
      case Some(m) =>
        if s[0].order >= m then Some(s[0].order)
        else
          assert exists i :: 0 <= i < |s[1..]| && s[1..][i].order == m;
          var i :| 0 <= i < |s[1..]| && s[1..][i].order == m;
          assert s[i + 1].order == m;
          Some(m)
  }

  /** The order a new todo receives: one more than the largest existing order,
      or 1 when there is no todo. It is above every existing order. */
  function NextOrder(s: seq<Todo>): (r: int)
    ensures s == [] ==> r == 1
    ensures forall i :: 0 <= i < |s| ==> s[i].order < r
    ensures s != [] ==> exists i :: 0 <= i < |s| && s[i].order == r - 1
  {
    match MaxOrder(s)
    case None => 1
    case Some(m) => m + 1
  }

  /** Position of the first record, in collection order, that satisfies
      the filter (`findOne(filter)`, `findById`). */
  function FindFirst(s: seq<Todo>, matches: Todo -> bool): (r: Option<nat>)
    ensures r.Some? ==> r.value < |s| && matches(s[r.value])
    ensures r.Some? ==> forall j :: 0 <= j < r.value ==> !matches(s[j])
    ensures r.None? <==> forall j :: 0 <= j < |s| ==> !matches(s[j])
  {
    if s == [] then None
    else if matches(s[0]) then Some(0)
    else
      match FindFirst(s[1..], matches)
      case None => None
      case Some(j) => Some(j + 1)
  }

  /** The record lookup by id (`findById(todoId)`). */
  function IndexOfId(s: seq<Todo>, id: Id): Option<nat> {
    FindFirst(s, (t: Todo) => t.id == id)
  }

  /** The record lookup by order (`findOne({ order })`). */
  function IndexOfOrder(s: seq<Todo>, order: int): Option<nat> {
    FindFirst(s, (t: Todo) => t.order == order)
  }

  /** Puts `t` into a sequence sorted by descending order, before the first
      record whose order is not larger than its own. */
  function InsertByOrder(t: Todo, s: seq<Todo>): (r: seq<Todo>)
    requires SortedByOrderDesc(s)
    ensures SortedByOrderDesc(r)
    ensures multiset(r) == multiset(s) + multiset{t}
    ensures |r| == |s| + 1
    ensures r[0] == t || (s != [] && r[0] == s[0])
  {
    if s == [] || s[0].order <= t.order then [t] + s
    else
      assert s == [s[0]] + s[1..];
      [s[0]] + InsertByOrder(t, s[1..])
  }

  /** The collection sorted by descending order (`find().sort('-order')`). */
  function SortByOrderDesc(s: seq<Todo>): (r: seq<Todo>)
    ensures SortedByOrderDesc(r)
    ensures multiset(r) == multiset(s)
    ensures |r| == |s|
  {
    if s == [] then []
    else
      assert s == [s[0]] + s[1..];
      InsertByOrder(s[0], SortByOrderDesc(s[1..]))
  }

  /** Inserting a record whose order no other record holds keeps a strictly
      descending sequence strictly descending. */
  lemma {:induction false} InsertKeepsStrict(t: Todo, s: seq<Todo>)
    requires StrictlyDescByOrder(s)
    requires forall k :: 0 <= k < |s| ==> s[k].order != t.order
    ensures StrictlyDescByOrder(InsertByOrder(t, s))
  {
    if s != [] && s[0].order > t.order {
      assert StrictlyDescByOrder(s[1..]);
      InsertKeepsStrict(t, s[1..]);
      var rest := InsertByOrder(t, s[1..]);
      assert rest[0].order < s[0].order;
      assert InsertByOrder(t, s) == [s[0]] + rest;
    }
  }

  /** With unique orders, the sorted collection is strictly descending. */
  lemma {:induction false} ListStrictWhenUnique(s: seq<Todo>)
    ensures OrdersUnique(s) ==> StrictlyDescByOrder(SortByOrderDesc(s))
  {
    if s != [] && OrdersUnique(s) {
      assert OrdersUnique(s[1..]);
      ListStrictWhenUnique(s[1..]);
      var rest := SortByOrderDesc(s[1..]);
      forall k | 0 <= k < |rest| ensures rest[k].order != s[0].order {
        assert rest[k] in multiset(s[1..]);
        var m :| 0 <= m < |s[1..]| && s[1..][m] == rest[k];
        assert s[m + 1] == rest[k];
      }
      InsertKeepsStrict(s[0], rest);
    }
  }
}
