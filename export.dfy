/** src/utils/export.ts: the content of the JSON and CSV exports (the download
    itself is a browser side effect and is not part of the model). */
module Export {

  import opened Wrappers
  import opened TaskTypes
  import opened Text
  import opened Seqs

  /** `categories.find(c => c.id === id)`: the first category with that id. */
  function FindCategory(cs: seq<Category>, id: string): (r: Option<Category>)
    ensures r.None? <==> forall k :: 0 <= k < |cs| ==> cs[k].id != id
    ensures r.Some? ==> exists k :: 0 <= k < |cs| && cs[k] == r.value && r.value.id == id &&
                                     forall j :: 0 <= j < k ==> cs[j].id != id
  {
    if cs == [] then None
    else if cs[0].id == id then Some(cs[0])
    else
      var r := FindCategory(cs[1..], id);
      if r.Some? then
        var k :| 0 <= k < |cs[1..]| && cs[1..][k] == r.value && r.value.id == id &&
                 forall j :: 0 <= j < k ==> cs[1..][j].id != id;
        assert cs[k + 1] == r.value;
        r
      else r
  }

  /** `categoryId ? categories.find(...) : undefined` for the task's mapped category id:
      a category is found only for a truthy mapped id, and it is the first category with that id. */
  function ResolveCategory(categories: seq<Category>, taskCategoryMap: map<int, string>, taskId: int): (r: Option<Category>)
    ensures r.None? <==> !Truthy(Get(taskCategoryMap, taskId)) ||
                         forall k :: 0 <= k < |categories| ==> categories[k].id != taskCategoryMap[taskId]
    ensures r.Some? ==> taskId in taskCategoryMap && taskCategoryMap[taskId] != "" &&
                        r.value in categories && r.value.id == taskCategoryMap[taskId]
    ensures r.Some? ==> exists k :: 0 <= k < |categories| && categories[k] == r.value &&
                                     forall j :: 0 <= j < k ==> categories[j].id != r.value.id
  {
    var categoryId := Get(taskCategoryMap, taskId);
    if Truthy(categoryId) then FindCategory(categories, categoryId.value) else None
  }

  /** One element of the JSON export: the task's own fields, then the resolved
      category's name and colour and the mapped due date (absent ones are omitted). */
  datatype ExportedTask = ExportedTask(
    id: int,
    todo: string,
    completed: bool,
    userId: int,
    categoryId: Option<string>,
    categoryName: Option<string>,
    categoryColor: Option<string>,
    dueDate: Option<string>)

  /** The record for one task: its own fields, the name and colour of the
      category it resolves to (both or neither), and the due date from the map. */
  function ExportRecord(task: Task, categories: seq<Category>, taskCategoryMap: map<int, string>, taskDueDateMap: map<int, string>): (r: ExportedTask)
    ensures r.id == task.id && r.todo == task.todo && r.completed == task.completed &&
            r.userId == task.userId && r.categoryId == task.categoryId
    ensures (task.id in taskDueDateMap <==> r.dueDate.Some?) &&
            (r.dueDate.Some? ==> r.dueDate.value == taskDueDateMap[task.id])
    ensures r.categoryName.Some? <==> r.categoryColor.Some?
    ensures r.categoryName.Some? <==>
      Truthy(Get(taskCategoryMap, task.id)) &&
      exists k :: 0 <= k < |categories| && categories[k].id == taskCategoryMap[task.id]
    ensures r.categoryName.Some? ==>
      Truthy(Get(taskCategoryMap, task.id)) &&
      exists k :: 0 <= k < |categories| && categories[k].id == taskCategoryMap[task.id] &&
        r.categoryName.value == categories[k].name && r.categoryColor.value == categories[k].color &&
        forall j :: 0 <= j < k ==> categories[j].id != taskCategoryMap[task.id]
  {
    var category := ResolveCategory(categories, taskCategoryMap, task.id);
    ExportedTask(
      task.id, task.todo, task.completed, task.userId, task.categoryId,
      if category.Some? then Some(category.value.name) else None,
      if category.Some? then Some(category.value.color) else None,
      Get(taskDueDateMap, task.id))
  }

  /** The array `exportToJSON` serialises: one record per task, in task order. */
  function JsonRecords(tasks: seq<Task>, categories: seq<Category>, taskCategoryMap: map<int, string>, taskDueDateMap: map<int, string>): (r: seq<ExportedTask>)
    ensures |r| == |tasks|
    ensures forall i :: 0 <= i < |tasks| ==> r[i] == ExportRecord(tasks[i], categories, taskCategoryMap, taskDueDateMap)
  {
    if tasks == [] then []
    else [ExportRecord(tasks[0], categories, taskCategoryMap, taskDueDateMap)] + JsonRecords(tasks[1..], categories, taskCategoryMap, taskDueDateMap)
  }

  /** Each JSON record keeps its task's fields; the due date comes from the due-date
      map (overriding the task's own), and the category fields from the first
      category whose id is the mapped one. */
  lemma JsonRecordContents(tasks: seq<Task>, categories: seq<Category>, taskCategoryMap: map<int, string>, taskDueDateMap: map<int, string>, i: nat)
    requires i < |tasks|
    ensures var r, t := JsonRecords(tasks, categories, taskCategoryMap, taskDueDateMap)[i], tasks[i];
      && r.id == t.id && r.todo == t.todo && r.completed == t.completed && r.userId == t.userId && r.categoryId == t.categoryId
      && (t.id in taskDueDateMap <==> r.dueDate.Some?)
      && (r.dueDate.Some? ==> r.dueDate.value == taskDueDateMap[t.id])
      && (r.categoryName.Some? <==> r.categoryColor.Some?)
      && (r.categoryName.Some? <==>
            Truthy(Get(taskCategoryMap, t.id)) &&
            exists k :: 0 <= k < |categories| && categories[k].id == taskCategoryMap[t.id])
      && (r.categoryName.Some? ==>
            (Truthy(Get(taskCategoryMap, t.id)) &&
             exists k :: 0 <= k < |categories| && categories[k].id == taskCategoryMap[t.id] &&
               r.categoryName.value == categories[k].name && r.categoryColor.value == categories[k].color &&
               forall j :: 0 <= j < k ==> categories[j].id != taskCategoryMap[t.id]))
  {
  }

  // ---- CSV ----

  /** A CSV field as `exportToCSV` writes it: verbatim, or wrapped in quotes with inner quotes doubled. */
  datatype Field = Plain(text: string) | Quoted(text: string)

  /** `s.replace(/"/g, '""')` */
  function EscapeQuotes(s: string): (r: string)
    ensures forall c :: c != '"' ==> (c in r <==> c in s)
  {
    if s == [] then []
    else (if s[0] == '"' then "\"\"" else [s[0]]) + EscapeQuotes(s[1..])
  }

  function EncodeField(f: Field): string {
    match f
    case Plain(t) => t
    case Quoted(t) => "\"" + EscapeQuotes(t) + "\""
  }

  function EncodeFields(fs: seq<Field>): (r: seq<string>)
    ensures |r| == |fs|
    ensures forall i :: 0 <= i < |fs| ==> r[i] == EncodeField(fs[i])
  {
    if fs == [] then [] else [EncodeField(fs[0])] + EncodeFields(fs[1..])
  }

  /** `row.join(',')` */
  function EncodeRecord(fs: seq<Field>): string {
    Join(EncodeFields(fs), ',')
  }

  function FieldTexts(fs: seq<Field>): (r: seq<string>)
    ensures |r| == |fs|
    ensures forall i :: 0 <= i < |fs| ==> r[i] == fs[i].text
  {
    if fs == [] then [] else [fs[0].text] + FieldTexts(fs[1..])
  }

  /** Reads the rest of a quoted field (after its opening quote) as section 2 of
      RFC 4180 describes it: `""` stands for one quote, a lone quote closes the
      field. Gives the field's text and what follows the closing quote. */
  function ParseQuoted(s: string): (r: Option<(string, string)>)
    ensures r.Some? ==> |r.value.1| < |s|
    decreases |s|
  {
    if s == [] then None
    else if s[0] == '"' then
      if |s| >= 2 && s[1] == '"' then
        match ParseQuoted(s[2..])
        case None => None
        case Some((text, rest)) => Some(("\"" + text, rest))
      else Some(([], s[1..]))
    else
      match ParseQuoted(s[1..])
      case None => None
      case Some((text, rest)) => Some(([s[0]] + text, rest))
  }

  /** The index of the first `c` in `s`, or `|s|`. */
  function IndexOf(s: string, c: char): (k: nat)
    ensures k <= |s| && c !in s[..k]
    ensures k < |s| ==> s[k] == c
  {
    if s == [] then 0
    else if s[0] == c then 0
    else 1 + IndexOf(s[1..], c)
  }

  /** Reads one CSV record into its field texts, per section 2 of RFC 4180;
      None when the text is not a well-formed record. */
  function ParseRecord(s: string): Option<seq<string>>
    decreases |s|
  {
    if s != [] && s[0] == '"' then
      match ParseQuoted(s[1..])
      case None => None
      case Some((text, rest)) =>
        if rest == [] then Some([text])
        else if rest[0] == ',' then
          match ParseRecord(rest[1..])
          case None => None
          case Some(more) => Some([text] + more)
        else None
    else
      var k := IndexOf(s, ',');
      if '"' in s[..k] then None
      else if k == |s| then Some([s])
      else
        match ParseRecord(s[k + 1..])
        case None => None
        case Some(more) => Some([s[..k]] + more)
  }

  /** Undoubling reads an escaped text back up to the closing quote. */
  lemma {:induction false} ParseQuotedEscaped(t: string, rest: string)
    requires rest == [] || rest[0] != '"'
    ensures ParseQuoted(EscapeQuotes(t) + "\"" + rest) == Some((t, rest))
  {
    var x := "\"" + rest;
    AppendAssoc(EscapeQuotes(t), "\"", rest);
    if t == [] {
      DropPrefix("\"", rest);
    } else {
      var e1 := EscapeQuotes(t[1..]);
      ParseQuotedEscaped(t[1..], rest);
      AppendAssoc(e1, "\"", rest);
      var h: string := if t[0] == '"' then "\"\"" else [t[0]];
      assert EscapeQuotes(t) == h + e1;
      AppendAssoc(h, e1, x);
      DropPrefix(h, e1 + x);
      assert h + t[1..] == (if t[0] == '"' then "\"\"" else [t[0]]) + t[1..];
      if t[0] == '"' {
        assert "\"" + t[1..] == t;
      } else {
        assert [t[0]] + t[1..] == t;
      }
    }
  }

  /** A quoted field round-trips: stripping the quotes and undoubling recovers the text. */
  lemma QuotedFieldRoundTrip(t: string)
    ensures ParseRecord(EncodeField(Quoted(t))) == Some([t])
  {
    ParseQuotedEscaped(t, []);
    assert (EncodeField(Quoted(t)))[1..] == EscapeQuotes(t) + "\"" + [];
  }

  predicate PlainIsSafe(f: Field) {
    f.Plain? ==> ',' !in f.text && '"' !in f.text
  }

  /** Reading one encoded field followed by the rest of the record. */
  lemma ParseFieldThen(f: Field, tail: string, more: seq<string>)
    requires PlainIsSafe(f)
    requires ParseRecord(tail) == Some(more)
    ensures ParseRecord(EncodeField(f) + [','] + tail) == Some([f.text] + more)
  {
    match f {
      case Quoted(t) => ParseQuotedThen(t, tail, more);
      case Plain(t) => ParsePlainThen(t, tail, more);
    }
  }

  lemma ParseQuotedThen(t: string, tail: string, more: seq<string>)
    requires ParseRecord(tail) == Some(more)
    ensures ParseRecord(EncodeField(Quoted(t)) + [','] + tail) == Some([t] + more)
  {
    var s := EncodeField(Quoted(t)) + [','] + tail;
    var rest := [','] + tail;
    ParseQuotedEscaped(t, rest);
    assert s[0] == '"';
    assert s[1..] == EscapeQuotes(t) + "\"" + rest;
    assert rest[0] == ',' && rest[1..] == tail;
  }

  lemma ParsePlainThen(t: string, tail: string, more: seq<string>)
    requires ',' !in t && '"' !in t
    requires ParseRecord(tail) == Some(more)
    ensures ParseRecord(EncodeField(Plain(t)) + [','] + tail) == Some([t] + more)
  {
    var s := EncodeField(Plain(t)) + [','] + tail;
    assert s == t + [','] + tail;
    assert s[0] != '"' by {
      if t == [] { assert s[0] == ','; } else { assert s[0] == t[0]; }
    }
    assert s[..|t|] == t && s[|t|] == ',';
    IndexOfPrefix(t, tail);
    assert s[|t| + 1..] == tail;
  }

  lemma ParseLastField(f: Field)
    requires PlainIsSafe(f)
    ensures ParseRecord(EncodeField(f)) == Some([f.text])
  {
    match f {
      case Quoted(t) =>
        QuotedFieldRoundTrip(t);
      case Plain(t) =>
        IndexOfAbsent(t, ',');
        assert t[..|t|] == t;
    }
  }

  lemma {:induction false} IndexOfAbsent(t: string, c: char)
    requires c !in t
    ensures IndexOf(t, c) == |t|
  {
    if t != [] {
      IndexOfAbsent(t[1..], c);
    }
  }

  lemma {:induction false} IndexOfPrefix(t: string, tail: string)
    requires ',' !in t
    ensures IndexOf(t + [','] + tail, ',') == |t|
  {
    if t != [] {
      IndexOfPrefix(t[1..], tail);
      assert (t + [','] + tail)[1..] == t[1..] + [','] + tail;
    }
  }

  /** A record whose verbatim fields hold no comma and no quote reads back as its field texts. */
  lemma {:induction false} RecordRoundTrip(fs: seq<Field>)
    requires |fs| >= 1
    requires forall i :: 0 <= i < |fs| ==> PlainIsSafe(fs[i])
    ensures ParseRecord(EncodeRecord(fs)) == Some(FieldTexts(fs))
  {
    if |fs| == 1 {
      ParseLastField(fs[0]);
      assert FieldTexts(fs) == [fs[0].text];
    } else {
      RecordRoundTrip(fs[1..]);
      assert EncodeFields(fs)[1..] == EncodeFields(fs[1..]);
      ParseFieldThen(fs[0], EncodeRecord(fs[1..]), FieldTexts(fs[1..]));
      assert FieldTexts(fs) == [fs[0].text] + FieldTexts(fs[1..]);
    }
  }

  lemma JoinSix(a: string, b: string, c: string, d: string, e: string, f: string, sep: char)
    ensures Join([a, b, c, d, e, f], sep) == a + [sep] + b + [sep] + c + [sep] + d + [sep] + e + [sep] + f
  {
    var h := [a, b, c, d, e, f];
    assert h[1..] == [b, c, d, e, f];
    assert h[1..][1..] == [c, d, e, f];
    assert h[1..][1..][1..] == [d, e, f];
    assert h[1..][1..][1..][1..] == [e, f];
    assert h[1..][1..][1..][1..][1..] == [f];
    assert Join([e, f], sep) == e + [sep] + f;
    assert Join([d, e, f], sep) == d + [sep] + e + [sep] + f;
    assert Join([c, d, e, f], sep) == c + [sep] + d + [sep] + e + [sep] + f;
    assert Join([b, c, d, e, f], sep) == b + [sep] + c + [sep] + d + [sep] + e + [sep] + f;
  }

  const Headers: seq<string> := ["ID", "Task", "Completed", "Category", "Due Date", "User ID"]

  /** `headers.join(',')`: it holds no line break and splits back into exactly
      the six column names, in order. */
  function HeaderLine(): (h: string)
    ensures Split(h, ',') == Headers
    ensures '\n' !in h
  {
    assert forall i :: 0 <= i < |Headers| ==> ',' !in Headers[i] && '\n' !in Headers[i];
    SplitJoin(Headers, ',');
    JoinAvoids(Headers, ',', '\n');
    Join(Headers, ',')
  }

  /** The header line, spelled out. */
  lemma HeaderText()
    ensures HeaderLine() == "ID,Task,Completed,Category,Due Date,User ID"
  {
    JoinSix("ID", "Task", "Completed", "Category", "Due Date", "User ID", ',');
    HeaderConcat();
  }

  lemma HeaderConcat()
    ensures "ID" + [','] + "Task" + [','] + "Completed" + [','] + "Category" + [','] + "Due Date" + [','] + "User ID" ==
      "ID,Task,Completed,Category,Due Date,User ID"
  {
    var p1 := "ID" + [','] + "Task";
    assert p1 == "ID,Task";
    var p2 := p1 + [','] + "Completed";
    assert p2 == "ID,Task,Completed";
    var p3 := p2 + [','] + "Category";
    assert p3 == "ID,Task,Completed,Category";
    var p4 := p3 + [','] + "Due Date";
    assert p4 == "ID,Task,Completed,Category,Due Date";
  }

  /** The six fields of one task's row. `localeDate` stands for
      `new Date(dueDate).toLocaleDateString()`, whose output depends on the locale. */
  function RowFields(task: Task, categories: seq<Category>, taskCategoryMap: map<int, string>, taskDueDateMap: map<int, string>, localeDate: string -> string): (fs: seq<Field>)
    ensures |fs| == 6
  {
    var category := ResolveCategory(categories, taskCategoryMap, task.id);
    var dueDate := Get(taskDueDateMap, task.id);
    [ Plain(IntToString(task.id)),
      Quoted(task.todo),
      Plain(if task.completed then "Yes" else "No"),
      Plain(if category.Some? then category.value.name else ""),
      Plain(if Truthy(dueDate) then localeDate(dueDate.value) else ""),
      Plain(IntToString(task.userId)) ]
  }

  function RowLines(tasks: seq<Task>, categories: seq<Category>, taskCategoryMap: map<int, string>, taskDueDateMap: map<int, string>, localeDate: string -> string): (r: seq<string>)
    ensures |r| == |tasks|
    ensures forall i :: 0 <= i < |tasks| ==> r[i] == EncodeRecord(RowFields(tasks[i], categories, taskCategoryMap, taskDueDateMap, localeDate))
  {
    seq(|tasks|, i requires 0 <= i < |tasks| => EncodeRecord(RowFields(tasks[i], categories, taskCategoryMap, taskDueDateMap, localeDate)))
  }

  /** `csvContent`: the header line and one line per task, joined by newlines.
      It starts with the header line, which a newline ends exactly when rows follow. */
  function CsvContent(tasks: seq<Task>, categories: seq<Category>, taskCategoryMap: map<int, string>, taskDueDateMap: map<int, string>, localeDate: string -> string): (r: string)
    ensures HeaderLine() <= r
    ensures tasks == [] ==> r == HeaderLine()
    ensures tasks != [] ==> |r| > |HeaderLine()| && r[|HeaderLine()|] == '\n'
  {
    var rows := RowLines(tasks, categories, taskCategoryMap, taskDueDateMap, localeDate);
    if rows == [] then
      assert [HeaderLine()] + rows == [HeaderLine()];
      Join([HeaderLine()] + rows, '\n')
    else
      JoinCons(HeaderLine(), rows, '\n');
      Join([HeaderLine()] + rows, '\n')
  }

  /** The text the export writes for a task's category and due date columns; the
      source writes both without quoting. */
  predicate UnquotedColumnsFree(task: Task, categories: seq<Category>, taskCategoryMap: map<int, string>, taskDueDateMap: map<int, string>, localeDate: string -> string, c: char) {
    var fs := RowFields(task, categories, taskCategoryMap, taskDueDateMap, localeDate);
    c !in fs[3].text && c !in fs[4].text
  }

  lemma IntToStringPlain(n: int, c: char)
    requires c == ',' || c == '"' || c == '\n'
    ensures c !in IntToString(n)
  {
    var s := IntToString(n);
    forall i | 0 <= i < |s|
      ensures s[i] != c
    {
    }
  }

  /** One task's row reads back, field by field, as id, text, Yes/No, category
      name, date and user id, provided its category name and date text hold no
      comma and no quote. */
  lemma CsvRowRoundTrip(task: Task, categories: seq<Category>, taskCategoryMap: map<int, string>, taskDueDateMap: map<int, string>, localeDate: string -> string)
    requires UnquotedColumnsFree(task, categories, taskCategoryMap, taskDueDateMap, localeDate, ',')
    requires UnquotedColumnsFree(task, categories, taskCategoryMap, taskDueDateMap, localeDate, '"')
    ensures var fs := RowFields(task, categories, taskCategoryMap, taskDueDateMap, localeDate);
      ParseRecord(EncodeRecord(fs)) == Some([IntToString(task.id), task.todo, if task.completed then "Yes" else "No", fs[3].text, fs[4].text, IntToString(task.userId)])
  {
    var fs := RowFields(task, categories, taskCategoryMap, taskDueDateMap, localeDate);
    RowFieldsSafe(task, categories, taskCategoryMap, taskDueDateMap, localeDate, fs);
    RecordRoundTrip(fs);
    SixTexts(fs);
  }

  /** Under the same hypotheses, no verbatim field of the row holds a comma or a quote. */
  lemma RowFieldsSafe(task: Task, categories: seq<Category>, taskCategoryMap: map<int, string>, taskDueDateMap: map<int, string>, localeDate: string -> string, fs: seq<Field>)
    requires fs == RowFields(task, categories, taskCategoryMap, taskDueDateMap, localeDate)
    requires UnquotedColumnsFree(task, categories, taskCategoryMap, taskDueDateMap, localeDate, ',')
    requires UnquotedColumnsFree(task, categories, taskCategoryMap, taskDueDateMap, localeDate, '"')
    ensures forall i :: 0 <= i < |fs| ==> PlainIsSafe(fs[i])
  {
    IntToStringPlain(task.id, ',');
    IntToStringPlain(task.id, '"');
    IntToStringPlain(task.userId, ',');
    IntToStringPlain(task.userId, '"');
    assert PlainIsSafe(fs[0]) && PlainIsSafe(fs[1]) && PlainIsSafe(fs[2]);
    assert PlainIsSafe(fs[3]) && PlainIsSafe(fs[4]) && PlainIsSafe(fs[5]);
  }

  lemma SixTexts(fs: seq<Field>)
    requires |fs| == 6
    ensures FieldTexts(fs) == [fs[0].text, fs[1].text, fs[2].text, fs[3].text, fs[4].text, fs[5].text]
  {
    var texts := FieldTexts(fs);
    assert texts == [texts[0], texts[1], texts[2], texts[3], texts[4], texts[5]];
  }

  lemma JoinAvoids(parts: seq<string>, sep: char, c: char)
    requires c != sep
    requires forall i :: 0 <= i < |parts| ==> c !in parts[i]
    ensures c !in Join(parts, sep)
  {
    if |parts| > 1 {
      JoinAvoids(parts[1..], sep, c);
    }
  }

  /** An encoded field holds a character other than a quote only when its text does. */
  lemma EncodeFieldAvoids(f: Field, c: char)
    requires c != '"' && c !in f.text
    ensures c !in EncodeField(f)
  {
  }

  /** A row holds no line break when the text, category and date columns hold none. */
  lemma RowAvoidsNewline(task: Task, categories: seq<Category>, taskCategoryMap: map<int, string>, taskDueDateMap: map<int, string>, localeDate: string -> string)
    requires '\n' !in task.todo
    requires UnquotedColumnsFree(task, categories, taskCategoryMap, taskDueDateMap, localeDate, '\n')
    ensures '\n' !in EncodeRecord(RowFields(task, categories, taskCategoryMap, taskDueDateMap, localeDate))
  {
    var fs := RowFields(task, categories, taskCategoryMap, taskDueDateMap, localeDate);
    IntToStringPlain(task.id, '\n');
    IntToStringPlain(task.userId, '\n');
    assert '\n' !in fs[2].text;
    var parts := EncodeFields(fs);
    forall i | 0 <= i < |parts|
      ensures '\n' !in parts[i]
    {
      EncodeFieldAvoids(fs[i], '\n');
    }
    JoinAvoids(parts, ',', '\n');
  }

  /** Without line breaks in the text, category and date columns, the export has
      exactly one line more than there are tasks: the header, then the rows in task order. */
  lemma CsvLines(tasks: seq<Task>, categories: seq<Category>, taskCategoryMap: map<int, string>, taskDueDateMap: map<int, string>, localeDate: string -> string)
    requires forall i :: 0 <= i < |tasks| ==> '\n' !in tasks[i].todo
    requires forall i :: 0 <= i < |tasks| ==> UnquotedColumnsFree(tasks[i], categories, taskCategoryMap, taskDueDateMap, localeDate, '\n')
    ensures var lines := Split(CsvContent(tasks, categories, taskCategoryMap, taskDueDateMap, localeDate), '\n');
      |lines| == |tasks| + 1 && lines[0] == HeaderLine() &&
      forall i :: 0 <= i < |tasks| ==> lines[i + 1] == EncodeRecord(RowFields(tasks[i], categories, taskCategoryMap, taskDueDateMap, localeDate))
  {
    var rows := RowLines(tasks, categories, taskCategoryMap, taskDueDateMap, localeDate);
    var lines := [HeaderLine()] + rows;
    forall i | 0 <= i < |rows|
      ensures '\n' !in rows[i]
    {
      RowAvoidsNewline(tasks[i], categories, taskCategoryMap, taskDueDateMap, localeDate);
    }
    assert forall i :: 0 <= i < |lines| ==> '\n' !in lines[i];
    SplitJoin(lines, '\n');
  }
}
