/**
 * The in-memory edits the commands make to the loaded list: choosing the
 * id of a new record (`addTodo`) and removing the records with a given id
 * (`deleteTodo`).
 */
module TodoList {
  import opened TodoFormat

  /** max(0, every id in the list): the starting value 0 of `maxID` bounds it from below. */
  function MaxId(todos: seq<Todo>): (m: int)
    ensures m >= 0
    ensures forall i :: 0 <= i < |todos| ==> todos[i].id <= m
    ensures m == 0 || exists i :: 0 <= i < |todos| && todos[i].id == m
  {
    if todos == [] then 0
    else
      var init := todos[..|todos| - 1];
      var m := MaxId(init);
      var last := todos[|todos| - 1].id;
      assert forall i :: 0 <= i < |init| ==> init[i] == todos[i];
      if last > m then last else m
  }

  /** The id loop of `addTodo`: a running maximum over the list, plus one. */
  method NextId(todos: seq<Todo>) returns (newId: int)
    ensures newId == MaxId(todos) + 1
    ensures newId >= 1
    ensures forall i :: 0 <= i < |todos| ==> todos[i].id < newId
    ensures todos == [] ==> newId == 1
  {
    var maxId := 0;
    for i := 0 to |todos|
      invariant maxId == MaxId(todos[..i])
    {
      assert todos[..i + 1][..i] == todos[..i];
      if todos[i].id > maxId {
        maxId := todos[i].id;
      }
    }
    assert todos[..|todos|] == todos;
    newId := maxId + 1;
  }

  /** No two records share an id. */
  predicate UniqueIds(todos: seq<Todo>) {
    forall i, j :: 0 <= i < j < |todos| ==> todos[i].id != todos[j].id
  }

  /** Appending a record with the next id keeps the ids unique (and the earlier records in place). */
  lemma AddKeepsIdsUnique(todos: seq<Todo>, task: string)
    requires UniqueIds(todos)
    ensures var added := todos + [Todo(MaxId(todos) + 1, task)];
      UniqueIds(added) && added[..|todos|] == todos && added[|todos|] == Todo(MaxId(todos) + 1, task)
  {
  }

  /** The records whose id differs from `id`, in their original order. */
  function Without(todos: seq<Todo>, id: int): seq<Todo> {
    if todos == [] then []
    else
      var last := todos[|todos| - 1];
      Without(todos[..|todos| - 1], id) + if last.id == id then [] else [last]
  }

  /** The filter loop of `deleteTodo`: keeps the other records and notes whether any record matched. */
  method RemoveId(todos: seq<Todo>, id: int) returns (kept: seq<Todo>, found: bool)
    ensures kept == Without(todos, id)
    ensures found <==> exists i :: 0 <= i < |todos| && todos[i].id == id
  {
    kept := [];
    found := false;
    for i := 0 to |todos|
      invariant kept == Without(todos[..i], id)
      invariant found <==> exists k :: 0 <= k < i && todos[k].id == id
    {
      assert todos[..i + 1][..i] == todos[..i];
      if todos[i].id == id {
        found := true;
      } else {
        kept := kept + [todos[i]];
      }
    }
    assert todos[..|todos|] == todos;
  }

  /** Filtering distributes over concatenation, so the kept records stay in their relative order. */
  lemma {:induction false} WithoutAppend(a: seq<Todo>, b: seq<Todo>, id: int)
    ensures Without(a + b, id) == Without(a, id) + Without(b, id)
    decreases |b|
  {
    if b == [] {
      assert a + b == a;
    } else {
      var b' := b[..|b| - 1];
      assert (a + b)[..|a + b| - 1] == a + b';
      WithoutAppend(a, b', id);
    }
  }

  /** Every copy of a record with the target id goes; every other record keeps its multiplicity. */
  lemma {:induction false} WithoutCounts(todos: seq<Todo>, id: int)
    ensures forall t :: multiset(Without(todos, id))[t] == if t.id == id then 0 else multiset(todos)[t]
  {
    if todos != [] {
      var init := todos[..|todos| - 1];
      WithoutCounts(init, id);
      assert todos == init + [todos[|todos| - 1]];
    }
  }

  /** When no record has the target id, nothing is removed. */
  lemma {:induction false} WithoutAbsent(todos: seq<Todo>, id: int)
    requires forall i :: 0 <= i < |todos| ==> todos[i].id != id
    ensures Without(todos, id) == todos
  {
    if todos != [] {
      var init := todos[..|todos| - 1];
      WithoutAbsent(init, id);
      assert todos == init + [todos[|todos| - 1]];
    }
  }

  /** Removing records keeps the remaining ids unique and removes every record with the target id. */
  lemma {:induction false} WithoutKeepsIdsUnique(todos: seq<Todo>, id: int)
    requires UniqueIds(todos)
    ensures UniqueIds(Without(todos, id))
    ensures forall i :: 0 <= i < |Without(todos, id)| ==> Without(todos, id)[i].id != id
  {
    if todos != [] {
      var init := todos[..|todos| - 1];
      var last := todos[|todos| - 1];
      WithoutKeepsIdsUnique(init, id);
      WithoutCounts(init, id);
      var w := Without(init, id);
      if last.id != id {
        forall i | 0 <= i < |w| ensures w[i].id != last.id {
          assert w[i] in multiset(w);
          assert w[i] in multiset(init);
          var k :| 0 <= k < |init| && init[k] == w[i];
          assert init[k] == todos[k];
        }
      }
    }
  }

  /** The kept records are records of the list, so texts that could be stored still can. */
  lemma WithoutKeepsStorable(todos: seq<Todo>, id: int)
    requires AllStorable(todos)
    ensures AllStorable(Without(todos, id))
  {
  }

  /** When no id exceeds `m`, every record the filter keeps has an id below `m`. */
  lemma {:induction false} WithoutBelow(todos: seq<Todo>, m: int)
    requires forall i :: 0 <= i < |todos| ==> todos[i].id <= m
    ensures forall i :: 0 <= i < |Without(todos, m)| ==> Without(todos, m)[i].id < m
  {
    if todos != [] {
      WithoutBelow(todos[..|todos| - 1], m);
    }
  }

  /**
   * Ids come from the records present: once the records with the largest
   * (positive) id are deleted, the next add takes an id no larger than it.
   */
  lemma DeleteLargest(todos: seq<Todo>)
    requires MaxId(todos) > 0
    ensures MaxId(Without(todos, MaxId(todos))) + 1 <= MaxId(todos)
  {
    WithoutBelow(todos, MaxId(todos));
  }

  /** The bound of `DeleteLargest` is reached: with ids 1 and 2, deleting 2 makes the next id 2 again. */
  lemma DeletedIdReused()
    ensures var todos := [Todo(1, "a"), Todo(2, "b")];
      MaxId(todos) + 1 == 3 && MaxId(Without(todos, 2)) + 1 == 2
  {
    var todos := [Todo(1, "a"), Todo(2, "b")];
    assert todos[..1] == [Todo(1, "a")];
    assert Without(todos, 2) == [Todo(1, "a")] by {
      assert Without(todos[..1], 2) == [Todo(1, "a")] by {
        assert todos[..1][..0] == [];
      }
    }
    assert [Todo(1, "a")][..0] == [];
  }
}
