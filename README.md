# todo-list-cli, modelled in Dafny

The program is a command-line task tracker. It keeps its records in one
flat text file, one record per line, written as `<id>:<task>`. Each command
runs load → edit → save:
- `add` gives the new task one more than the largest id, or 1 when no id is
  positive (`max(0, ids) + 1`).
- `delete` removes the records with a given id, and rewrites the file only
  if something matched.
- `list` loads and prints.

The model covers the whole of that logic, module by module:

- `Text`: the library behaviour the program relies on.
  - `strings.TrimSpace`, with Go's `unicode.IsSpace` set of white space.
  - The first-occurrence search behind `strings.SplitN(line, ":", 2)`.
  - The line splitting of `bufio.Scanner` with `ScanLines`. It splits at
    `\n`, drops one trailing `\r` from each line, and still returns a last
    line that has no `\n`.
  - The concatenation a buffered writer produces.
- `Decimal`: `strconv.Atoi` and the `%d` verb.
  - Atoi is written as Go's left-to-right digit loop (`n = n*10 + digit`).
  - That loop is proved equal to an independent most-significant-first
    reading of the digits.
  - Atoi accepts exactly an optional sign followed by one or more ASCII
    digits.
  - `%d` output is read back to the same integer.
- `TodoFormat`: the `Todo` record, `parseID`, the line parse in `loadTodos`
  and the line format in `saveTodos`. Properties proved:
  - Round trip of a single line, even when the task contains `:`.
  - An exact characterisation of which lines load.
  - Order preservation.
  - Round trip of the whole file: loading what was saved gives the same
    records back.
- `TodoList`: the max-id loop of `addTodo` and the filter-and-flag loop of
  `deleteTodo`. Both are methods proved against specification functions
  (`MaxId`, `Without`). Lemmas about those functions cover:
  - maximality;
  - order;
  - multiplicities;
  - the unchanged list when no record has the id;
  - uniqueness of ids.
- `TodoStore`: the file as a `Store` class whose `file` field holds its
  contents.
  - `Load` and `Save` are the loops of `loadTodos` and `saveTodos`.
  - `AddTodo` and `DeleteTodo` are the two commands that change the file.

Some behaviours of the code that are easy to miss:
- `delete` removes every record with the id.
- Ids read from the file need not be positive or unique: any line whose head
  Atoi accepts is loaded, negative ids included.
- `add` accepts any text. The argument handling only checks that at least
  one argument follows `add` (main.go:29); `add ""` stores a record with an
  empty task.
- Ids are computed from the records present, so after the record with the
  largest id is deleted the next `add` takes an id no larger than it, and may
  take that very id again.
- A save followed by a load returns the records unchanged only when no task
  holds a `\n` and no task ends in `\r`:
  - A `\n` inside a task splits it into two lines. The second can even load
    as a record of its own.
  - A trailing `\r` is removed by the scanner when the file is read back.

  `StorableTask` names this condition.

## Model

The table lists the contracts and lemmas that state what the code does. The
definitions they describe (`ParseLine`, `SplitOnFirstColon`, `IndexOf`,
`FormatLine`, `IntToDecimal`, `ScanLines`, `Without` and the like) have no row
of their own; each is covered by the rows of the lemmas about it.

| member | source | states |
|---|---|---|
| `Text.TrimSpace` | main.go:176 | the result is a slice `s[lo..hi]` of the input where everything before `lo` and from `hi` on is white space (Go's `unicode.IsSpace`); it neither starts nor ends with white space; an input without white space is returned whole |
| `Text.ScanLinesCons` | main.go:74-76 | a line without `\n` followed by `\n` is scanned as that line (with a trailing `\r` dropped), and the rest of the text is scanned on its own |
| `Text.ScanJoinLines` | main.go:74-76 | scanning lines that each end in `\n`, where no line holds `\n` or ends in `\r`, gives back exactly those lines, one per `\n` |
| `Decimal.AccumulateDigitsCorrect` | main.go:176 | Atoi's left-to-right loop `n = n*10 + digit` fails exactly when a non-digit occurs, and otherwise yields the most-significant-first value of all digits read |
| `Decimal.Atoi` | main.go:176 | succeeds exactly on an optional `+`/`-` followed by one or more ASCII digits (so the empty string, a lone sign or any other character is an error), and returns the digits' value, negated after `-` |
| `Decimal.NatToDecimal` | main.go:99 | `%d` of a natural number is a non-empty digit string without a leading zero whose value is that number |
| `Decimal.AtoiIntToDecimal` | main.go:99 | what `%d` writes for any integer is an Atoi literal made of digits and `-` only, and Atoi reads it back as the same integer |
| `TodoFormat.ParseId` | main.go:175-177 | `parseID` succeeds exactly when the trimmed argument is an Atoi literal, and returns its value |
| `TodoFormat.SplitOnFirstColonSpec` | main.go:77-80 | the split into two parts exists exactly when the line holds a `:`, and the line is the head, a `:` and the rest, with no `:` in the head |
| `TodoFormat.SplitOnFirstColonAt` | main.go:77 | a line made of a colon-free head, `:`, and any rest (colons included) splits into exactly that head and rest |
| `TodoFormat.ParseLineSpec` | main.go:76-85 | a line yields record `t` exactly when it is a colon-free head that `parseID` reads as `t.id`, then `:`, then `t.task`; a line with no `:` or a bad head yields nothing |
| `TodoFormat.ParseFormatLine` | main.go:77-99 | parsing the line `saveTodos` writes for a record gives back that record, whatever its task holds |
| `TodoFormat.ParseLinesStep` | main.go:75-86 | reading one more line appends that line's record if it parses, and nothing otherwise |
| `TodoFormat.ParseLinesAppend` | main.go:75-86 | loading distributes over concatenation of line sequences, so the records keep file order |
| `TodoFormat.ParseLinesMembers` | main.go:75-86 | a record is loaded exactly when some line of the file parses to it |
| `TodoFormat.ParseLinesAllWellFormed` | main.go:75-86 | lines that all parse load as exactly their records, one each, in order |
| `TodoFormat.FormatLineScannable` | main.go:99 | the line of a record whose task has no `\n` and no trailing `\r` holds no `\n` and loses nothing to the scanner |
| `TodoFormat.ScanSerialized` | main.go:98-100 | the file `saveTodos` writes scans back as exactly one line per record, each the record's formatted line, in sequence order |
| `TodoFormat.LoadSerialized` | main.go:66-101 | round trip: loading the saved file gives back the saved records, in order, when every task is storable |
| `TodoFormat.SaveLoadSave` | main.go:66-101 | saving, loading and saving again writes the same file |
| `TodoFormat.ColonFreeLineSkipped` | main.go:78-80 | a line without `:` yields no record |
| `TodoFormat.MalformedLineSkipped` | main.go:78-80 | a file with one well-formed line and one line lacking `:` (which may end in `\r`) loads exactly the one record, in either order |
| `TodoFormat.LoadTwoLines` | main.go:74-87 | a file of two `\n`-terminated lines loads as the records of the first line followed by those of the second |
| `TodoList.MaxId` | main.go:112-117 | the running maximum is at least 0, at least every id, and either 0 or the id of some record |
| `TodoList.NextId` | main.go:111-118 | the new id is `max(0, ids) + 1`: 1 for an empty list, otherwise strictly greater than every existing id, and always at least 1 |
| `TodoList.AddKeepsIdsUnique` | main.go:118-120 | if ids were unique, they stay unique after appending the record with the next id (earlier records stay in place and the new record is last) |
| `TodoList.RemoveId` | main.go:153-161 | the loop keeps exactly the records whose id differs from the target, in order, and `found` holds exactly when some record has the target id |
| `TodoList.WithoutAppend` | main.go:153-161 | the filter distributes over concatenation, so relative order is kept |
| `TodoList.WithoutCounts` | main.go:153-161 | every copy of a record with the target id is removed; every other record keeps its number of occurrences |
| `TodoList.WithoutAbsent` | main.go:153-161 | when no record has the target id, the filter returns the list unchanged |
| `TodoList.WithoutKeepsIdsUnique` | main.go:153-161 | after the filter no record has the target id, and ids that were unique stay unique |
| `TodoList.WithoutKeepsStorable` | main.go:153-161 | the kept records are records of the list, so storable tasks stay storable |
| `TodoList.WithoutBelow` | main.go:153-161 | when no id exceeds `m`, every record kept by the filter for `m` has an id below `m` |
| `TodoList.DeleteLargest` | main.go:112-118 | after the records with the largest positive id are deleted, the next id is at most that id, so it can be reused |
| `TodoList.DeletedIdReused` | main.go:112-118 | an example where that bound is reached: with ids 1 and 2 the next id is 3, and after deleting 2 it is 2 again |
| `TodoStore.Store.constructor` | main.go:67 | a store over a file with the given contents (empty for a file that `O_CREATE` just made) |
| `TodoStore.Store.Load` | main.go:66-88 | the scan loop returns exactly the records of the lines of the file that parse, in file order |
| `TodoStore.Store.Save` | main.go:90-102 | the file is overwritten with one `<id>:<task>\n` line per record, in sequence order |
| `TodoStore.Store.AddTodo` | main.go:104-126 | the new id is `max(0, ids) + 1` and exceeds every loaded id; the file becomes the loaded records plus the new one at the end; with storable tasks, loading again gives exactly the old records followed by the new one |
| `TodoStore.Store.DeleteTodo` | main.go:146-173 | `found` holds exactly when some loaded record has the id; if none does, the file is not rewritten; otherwise the file holds the loaded records without every record with that id, in order, and loads back as that list |

## Left out

- The argument dispatch of `main` is not modelled: the test for missing arguments, joining the `add` arguments with spaces, and the unknown-command branch (main.go:19-55).
- `printUsage`, every `fmt.Print*` message and the exit status are not modelled. They only produce terminal output and end the process.
- `listTodos` is `loadTodos` followed by printing, so `Store.Load` covers it. `Store.Load` has no `modifies` clause, so loading, and therefore listing, cannot change `file`.
- I/O failures are not modelled: opening, creating, writing or flushing the file, and `scanner.Err()`. The file is an in-memory string.
- The file is rewritten by one assignment. Partial writes after a failure are not modelled.
- `bufio.Scanner` stops with an error on a line longer than its token limit (64 KiB). The model has no such limit.
- Go strings are bytes. The model works on Unicode scalar values, so invalid UTF-8 is not modelled. Neither is the byte-level fast path of `TrimSpace`.
- Concurrent invocations racing on the same file are not modelled. Each command is one sequential load, edit and save.
- Decimal.Atoi: does not reject values outside Go's 64-bit `int` range. `strconv.Atoi` reports those as a range error, so such a line would be skipped; ids here are unbounded integers.
- TodoList.NextId: does not model the 64-bit wrap-around of `maxID + 1` when the largest id is the maximum `int`. Ids are unbounded integers.
