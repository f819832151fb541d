/**
 * The persistence file and the commands that use it. The file is one
 * string; `loadTodos` reads it, `saveTodos` truncates and rewrites it, and
 * `addTodo` and `deleteTodo` each run load, edit, save.
 */
module TodoStore {
  import opened Text
  import opened TodoFormat
  import opened TodoList

  class Store {
    /** The contents of the todo file. */
    var file: string

    /** A store over a file that currently holds `contents` (the empty string for a file just created). */
    constructor (contents: string)
      ensures file == contents
    {
      file := contents;
    }

    /** The records the file holds, as loading reads them. */
    function Records(): seq<Todo>
      reads this
    {
      Loaded(file)
    }

    /** `loadTodos`: scans the file line by line and keeps the lines that parse, in file order. */
    method Load() returns (todos: seq<Todo>)
      ensures todos == Records()
    {
      var lines := ScanLines(file);
      todos := [];
      for i := 0 to |lines|
        invariant todos == ParseLines(lines[..i])
      {
        ParseLinesStep(lines, i);
        var parts := SplitOnFirstColon(lines[i]);
        if parts.Some? {
          var id := ParseId(parts.value.0);
          if id.Some? {
            todos := todos + [Todo(id.value, parts.value.1)];
          }
        }
      }
      assert lines[..|lines|] == lines;
    }

    /** `saveTodos`: truncates the file and writes one `<id>:<task>` line per record, in order. */
    method Save(todos: seq<Todo>)
      modifies this
      ensures file == Serialized(todos)
    {
      var out := "";
      ghost var lines := FormattedLines(todos);
      for i := 0 to |todos|
        invariant out == JoinLines(lines[..i])
      {
        assert lines[..i + 1][..i] == lines[..i];
        out := out + FormatLine(todos[i]) + "\n";
      }
      assert lines[..|todos|] == lines;
      file := out;
    }

    /**
     * `addTodo`: the new record takes one more than the largest id, or 1
     * when no id is positive, and goes at the end of the list.
     */
    method AddTodo(task: string) returns (newId: int)
      modifies this
      ensures newId == MaxId(old(Records())) + 1
      ensures newId >= 1 && forall i :: 0 <= i < |old(Records())| ==> old(Records())[i].id < newId
      ensures file == Serialized(old(Records()) + [Todo(newId, task)])
      ensures AllStorable(old(Records())) && StorableTask(task) ==>
                Records() == old(Records()) + [Todo(newId, task)]
    {
      var todos := Load();
      newId := NextId(todos);
      todos := todos + [Todo(newId, task)];
      Save(todos);
      if AllStorable(old(Records())) && StorableTask(task) {
        LoadSerialized(todos);
      }
    }

    /**
     * `deleteTodo`: drops every record with the given id. When none has it,
     * the file is not rewritten and `found` is false.
     */
    method DeleteTodo(id: int) returns (found: bool)
      modifies this
      ensures found <==> exists i :: 0 <= i < |old(Records())| && old(Records())[i].id == id
      ensures !found ==> file == old(file)
      ensures found ==> file == Serialized(Without(old(Records()), id))
      ensures found && AllStorable(old(Records())) ==> Records() == Without(old(Records()), id)
    {
      var todos := Load();
      var updated;
      updated, found := RemoveId(todos, id);
      if !found {
        return;
      }
      Save(updated);
      if AllStorable(todos) {
        WithoutKeepsStorable(todos, id);
        LoadSerialized(updated);
      }
    }
  }
}
