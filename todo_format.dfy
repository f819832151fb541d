/**
 * The on-disk format of the todo list: one record per line, written as
 * `<id>:<task>` and read back by splitting the line at its first ':' and
 * parsing the part before it as a decimal id.
 */
module TodoFormat {
  import opened Wrappers
  import opened Text
  import opened Decimal

  /** One task record. */
  datatype Todo = Todo(id: int, task: string)

  /** `parseID`: Atoi of the argument with white space trimmed from both ends. */
  function ParseId(idStr: string): (r: Option<int>)
    ensures r.Some? <==> IsIntegerLiteral(TrimSpace(idStr))
    ensures r.Some? ==> r.value == LiteralValue(TrimSpace(idStr))
  {
    Atoi(TrimSpace(idStr))
  }

  /** `strings.SplitN(line, ":", 2)` when it yields two parts: the text before and after the first ':'. */
  function SplitOnFirstColon(line: string): Option<(string, string)> {
    match IndexOf(line, ':')
    case None => None
    case Some(i) => Some((line[..i], line[i + 1..]))
  }

  /** The split exists exactly when the line holds a ':', and it cuts the line at its first one. */
  lemma SplitOnFirstColonSpec(line: string)
    ensures SplitOnFirstColon(line).Some? <==> ':' in line
    ensures SplitOnFirstColon(line).Some? ==>
              var (head, rest) := SplitOnFirstColon(line).value;
              line == head + ":" + rest && ':' !in head
  {
  }

  /** A line made of a colon-free head, ':', and any rest splits into exactly that head and rest. */
  lemma SplitOnFirstColonAt(head: string, rest: string)
    requires ':' !in head
    ensures SplitOnFirstColon(head + ":" + rest) == Some((head, rest))
  {
    var line := head + ":" + rest;
    assert line[|head|] == ':';
    assert line[..|head|] == head;
    assert line[|head| + 1..] == rest;
  }

  /** One line of the file as `loadTodos` reads it: no ':' or a bad id means the line is skipped. */
  function ParseLine(line: string): Option<Todo> {
    match SplitOnFirstColon(line)
    case None => None
    case Some((head, rest)) =>
      match ParseId(head)
      case None => None
      case Some(id) => Some(Todo(id, rest))
  }

  /** A line yields a record exactly when it is a colon-free head that parses to its id, a ':', and its task. */
  lemma ParseLineSpec(line: string, t: Todo)
    ensures ParseLine(line) == Some(t) <==>
              exists head :: line == head + ":" + t.task && ':' !in head && ParseId(head) == Some(t.id)
  {
    if ParseLine(line) == Some(t) {
      ParsedLineShape(line);
    }
    if exists head :: line == head + ":" + t.task && ':' !in head && ParseId(head) == Some(t.id) {
      var head :| line == head + ":" + t.task && ':' !in head && ParseId(head) == Some(t.id);
      SplitOnFirstColonAt(head, t.task);
    }
  }

  /** A line that parses is its colon-free head, a ':', and the record's task, and the head parses to the id. */
  lemma ParsedLineShape(line: string)
    requires ParseLine(line).Some?
    ensures var (head, rest) := SplitOnFirstColon(line).value;
      line == head + ":" + rest && ':' !in head && ParseId(head) == Some(ParseLine(line).value.id)
      && rest == ParseLine(line).value.task
  {
  }

  /** The line `saveTodos` writes for a record, without its '\n'. */
  function FormatLine(t: Todo): string {
    IntToDecimal(t.id) + ":" + t.task
  }

  /** Parsing a formatted line gives back the record, whatever its task holds, ':' included. */
  lemma ParseFormatLine(t: Todo)
    ensures ParseLine(FormatLine(t)) == Some(t)
  {
    var head := IntToDecimal(t.id);
    AtoiIntToDecimal(t.id);
    assert ':' !in head;
    SplitOnFirstColonAt(head, t.task);
    assert TrimSpace(head) == head;
  }

  /** The records among a sequence of parse results, in order; the failed parses are dropped. */
  function Present(results: seq<Option<Todo>>): seq<Todo> {
    if results == [] then []
    else
      var last := results[|results| - 1];
      Present(results[..|results| - 1]) + if last.Some? then [last.value] else []
  }

  /** Collecting distributes over concatenation. */
  lemma {:induction false} PresentAppend(a: seq<Option<Todo>>, b: seq<Option<Todo>>)
    ensures Present(a + b) == Present(a) + Present(b)
    decreases |b|
  {
    if b == [] {
      assert a + b == a;
    } else {
      var b' := b[..|b| - 1];
      assert (a + b)[..|a + b| - 1] == a + b';
      PresentAppend(a, b');
    }
  }

  /** A record is collected exactly when it is one of the successful results. */
  lemma {:induction false} PresentMembers(results: seq<Option<Todo>>)
    ensures forall t :: t in Present(results) <==> Some(t) in results
  {
    if results != [] {
      var init := results[..|results| - 1];
      PresentMembers(init);
      assert results == init + [results[|results| - 1]];
    }
  }

  /** When every result succeeded, the collected records are exactly those results. */
  lemma {:induction false} PresentAllSome(results: seq<Option<Todo>>, todos: seq<Todo>)
    requires |results| == |todos|
    requires forall i :: 0 <= i < |results| ==> results[i] == Some(todos[i])
    ensures Present(results) == todos
  {
    if results != [] {
      var n := |results|;
      PresentAllSome(results[..n - 1], todos[..n - 1]);
      assert todos == todos[..n - 1] + [todos[n - 1]];
    }
  }

  /** Every line of the file parsed on its own, in file order. */
  function ParseEach(lines: seq<string>): (results: seq<Option<Todo>>)
    ensures |results| == |lines|
    ensures forall i :: 0 <= i < |lines| ==> results[i] == ParseLine(lines[i])
  {
    seq(|lines|, i requires 0 <= i < |lines| => ParseLine(lines[i]))
  }

  /** The records of a sequence of lines: those of the lines that parse, in file order. */
  function ParseLines(lines: seq<string>): seq<Todo> {
    Present(ParseEach(lines))
  }

  /** Reading one more line of the file adds that line's record, if it has one. */
  lemma ParseLinesStep(lines: seq<string>, i: nat)
    requires i < |lines|
    ensures ParseLines(lines[..i + 1]) ==
              ParseLines(lines[..i]) + match ParseLine(lines[i]) case None => [] case Some(t) => [t]
  {
    var rs := ParseEach(lines[..i + 1]);
    assert rs[..i] == ParseEach(lines[..i]);
  }

  /** Parsing distributes over concatenation: lines are read independently and in file order. */
  lemma ParseLinesAppend(a: seq<string>, b: seq<string>)
    ensures ParseLines(a + b) == ParseLines(a) + ParseLines(b)
  {
    assert ParseEach(a + b) == ParseEach(a) + ParseEach(b);
    PresentAppend(ParseEach(a), ParseEach(b));
  }

  /** A record is loaded exactly when some line of the file parses to it. */
  lemma ParseLinesMembers(lines: seq<string>)
    ensures forall t :: t in ParseLines(lines) <==> exists l :: l in lines && ParseLine(l) == Some(t)
  {
    var rs := ParseEach(lines);
    PresentMembers(rs);
    forall t ensures Some(t) in rs <==> exists l :: l in lines && ParseLine(l) == Some(t) {
      if Some(t) in rs {
        var i :| 0 <= i < |rs| && rs[i] == Some(t);
        assert lines[i] in lines;
      }
      if exists l :: l in lines && ParseLine(l) == Some(t) {
        var l :| l in lines && ParseLine(l) == Some(t);
        var i :| 0 <= i < |lines| && lines[i] == l;
        assert rs[i] == Some(t);
      }
    }
  }

  /** Lines that all parse give exactly their records. */
  lemma ParseLinesAllWellFormed(lines: seq<string>, todos: seq<Todo>)
    requires |lines| == |todos|
    requires forall i :: 0 <= i < |lines| ==> ParseLine(lines[i]) == Some(todos[i])
    ensures ParseLines(lines) == todos
  {
    PresentAllSome(ParseEach(lines), todos);
  }

  /** The lines `saveTodos` writes, one per record, in sequence order. */
  function FormattedLines(todos: seq<Todo>): (lines: seq<string>)
    ensures |lines| == |todos|
    ensures forall i :: 0 <= i < |todos| ==> lines[i] == FormatLine(todos[i])
  {
    seq(|todos|, i requires 0 <= i < |todos| => FormatLine(todos[i]))
  }

  /** The file `saveTodos` writes: each record's line followed by '\n'. */
  function Serialized(todos: seq<Todo>): string {
    JoinLines(FormattedLines(todos))
  }

  /** The records `loadTodos` reads from a file's contents. */
  function Loaded(data: string): seq<Todo> {
    ParseLines(ScanLines(data))
  }

  /** A task text that survives a save and a load: no '\n' inside, no '\r' at the end. */
  predicate StorableTask(task: string) {
    '\n' !in task && !(|task| > 0 && task[|task| - 1] == '\r')
  }

  /** Every task of the list is storable. */
  predicate AllStorable(todos: seq<Todo>) {
    forall i :: 0 <= i < |todos| ==> StorableTask(todos[i].task)
  }

  /** A record with a storable task formats to a line the scanner returns unchanged. */
  lemma FormatLineScannable(t: Todo)
    requires StorableTask(t.task)
    ensures Scannable(FormatLine(t))
  {
  }

  /** Saving writes one line per record, in order: the scanner reads back exactly the formatted records. */
  lemma ScanSerialized(todos: seq<Todo>)
    requires AllStorable(todos)
    ensures ScanLines(Serialized(todos)) == FormattedLines(todos)
  {
    var lines := FormattedLines(todos);
    forall i | 0 <= i < |lines| ensures Scannable(lines[i]) {
      FormatLineScannable(todos[i]);
    }
    ScanJoinLines(lines);
  }

  /** Round trip: loading what was saved gives back the same records, in the same order. */
  lemma LoadSerialized(todos: seq<Todo>)
    requires AllStorable(todos)
    ensures Loaded(Serialized(todos)) == todos
  {
    var lines := FormattedLines(todos);
    ScanSerialized(todos);
    forall i | 0 <= i < |lines| ensures ParseLine(lines[i]) == Some(todos[i]) {
      ParseFormatLine(todos[i]);
    }
    ParseLinesAllWellFormed(lines, todos);
  }

  /** Saving, loading and saving again writes the same file. */
  lemma SaveLoadSave(todos: seq<Todo>)
    requires AllStorable(todos)
    ensures Serialized(Loaded(Serialized(todos))) == Serialized(todos)
  {
    LoadSerialized(todos);
  }

  /**
   * A file holding one well-formed line and one line lacking ':' loads exactly
   * the one record, whichever of the two comes first. The bad line may end in
   * '\r', as it does in a file written with CRLF line ends.
   */
  lemma MalformedLineSkipped(good: string, bad: string, t: Todo)
    requires Scannable(good) && ParseLine(good) == Some(t)
    requires '\n' !in bad && ':' !in bad
    ensures Loaded(good + "\n" + bad + "\n") == [t]
    ensures Loaded(bad + "\n" + good + "\n") == [t]
  {
    assert DropCR(good) == good;
    ParseLinesAllWellFormed([good], [t]);
    assert ParseLines([DropCR(bad)]) == [] by {
      assert DropCR(bad) == bad[..|DropCR(bad)|];
      ColonFreeLineSkipped(DropCR(bad));
      var rs := ParseEach([DropCR(bad)]);
      assert rs == [None] && rs[..0] == [];
    }
    LoadTwoLines(good, bad);
    LoadTwoLines(bad, good);
  }

  /** A file of two '\n'-terminated lines loads as the records of the first line, then those of the second. */
  lemma LoadTwoLines(a: string, b: string)
    requires '\n' !in a && '\n' !in b
    ensures Loaded(a + "\n" + b + "\n") == ParseLines([DropCR(a)]) + ParseLines([DropCR(b)])
  {
    assert a + "\n" + b + "\n" == a + "\n" + (b + "\n");
    assert b + "\n" == b + "\n" + "";
    ScanLinesCons(a, b + "\n");
    ScanLinesCons(b, "");
    assert ScanLines(a + "\n" + b + "\n") == [DropCR(a)] + [DropCR(b)];
    ParseLinesAppend([DropCR(a)], [DropCR(b)]);
  }

  /** A line without ':' yields no record. */
  lemma ColonFreeLineSkipped(line: string)
    requires ':' !in line
    ensures ParseLine(line) == None
  {
    SplitOnFirstColonSpec(line);
  }
}
