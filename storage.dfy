/**
 * The Markdown task file: one record line per task under a fixed header and
 * two sections, and the lenient parser that reads such a file back.
 */
module Storage {
  import opened Wrappers
  import opened Digits
  import opened TextLines
  import opened Timestamps
  import opened Tasks
  import opened RecordPattern
  import opened Seqs

  const HEADER: string := "# godo tasks\n\n"

  /** The text between `<!-- ` and ` -->` of a record line: id, creation time, and completion time if any. */
  function Metadata(t: Task): string {
    var created := FormatTs(t.createdAt);
    match t.doneAt
    case Some(d) => "id:" + Decimal(t.id) + " created:" + created + " done:" + FormatTs(d)
    case None => "id:" + Decimal(t.id) + " created:" + created
  }

  /** `format_task`: the record line of one task. */
  function FormatTask(t: Task): string {
    "- " + Marker(t.status) + " " + t.title + " <!-- " + Metadata(t) + " -->"
  }

  /** The capture groups a task's record line is built from. */
  function RecordOf(t: Task): Captures {
    var done := match t.doneAt
      case Some(d) => Some(FormatTs(d))
      case None => None;
    Captures(Marker(t.status)[1], t.title, Meta(Decimal(t.id), FormatTs(t.createdAt), done))
  }

  /** A title that comes back unchanged: non-empty (`.+`) and on one line. */
  predicate Representable(t: Task) {
    t.title != [] && '\n' !in t.title
  }

  /** The checkbox is `[`, the marker character, `]`. */
  lemma MarkerBox(s: Status)
    ensures Marker(s) == "[" + [Marker(s)[1]] + "]"
  {
  }

  /** Every record line is an instance of the record pattern, built from the task's own fields. */
  lemma FormatTaskIsRecord(t: Task)
    ensures FormatTask(t) == RecordText(RecordOf(t))
    ensures t.title != [] && '\n' !in t.title ==> WellFormedCaptures(RecordOf(t))
  {
    var c := RecordOf(t);
    FormatTsNoSpace(t.createdAt);
    if t.doneAt.Some? {
      FormatTsNoSpace(t.doneAt.value);
    }
    MarkerBox(t.status);
    assert Metadata(t) == MetaBody(c.meta);
    RecordTextLayout(c);
  }

  /** A record line holds no line feed and starts and ends with a character other than whitespace. */
  lemma FormatTaskOneLine(t: Task)
    requires t.title != [] && '\n' !in t.title
    ensures var line := FormatTask(t);
      '\n' !in line && line != [] && !IsWhitespace(line[0]) && !IsWhitespace(line[|line| - 1])
  {
    FormatTaskIsRecord(t);
    RecordTextOneLine(RecordOf(t));
  }

  /** `caps[3].parse::<u32>().unwrap_or(0)`: the value of the digits, or 0 when it does not fit 32 bits. */
  function ParseU32(s: string): (n: U32)
    requires AllDigits(s)
  {
    var v := DecimalValue(s);
    if v < U32_LIMIT then v else 0
  }

  /** Reading back the decimal rendering of a 32-bit id gives the id. */
  lemma ParseU32Decimal(n: U32)
    ensures ParseU32(Decimal(n)) == n
  {
    DecimalRoundTrip(n);
  }

  /**
   * The task built from the groups of a matched line. Fields that cannot be
   * read get defaults: id 0, creation time `now`, no completion time.
   */
  function TaskOf(c: Captures, now: DateTime): (t: Task)
    requires WellFormedMeta(c.meta)
    ensures t.title == c.title
    ensures t.status == Done <==> c.marker == 'x'
    ensures DecimalValue(c.meta.id) < U32_LIMIT ==> t.id == DecimalValue(c.meta.id)
    ensures DecimalValue(c.meta.id) >= U32_LIMIT ==> t.id == 0
    ensures ParseTs(c.meta.created).None? ==> t.createdAt == now
    ensures ParseTs(c.meta.created).Some? ==> t.createdAt == ParseTs(c.meta.created).value
    ensures c.meta.done.None? ==> t.doneAt.None?
    ensures c.meta.done.Some? ==> t.doneAt == ParseTs(c.meta.done.value)
  {
    var done := match c.meta.done
      case Some(e) => ParseTs(e)
      case None => None;
    Task(
      ParseU32(c.meta.id),
      c.title,
      if c.marker == 'x' then Done else Todo,
      ParseTs(c.meta.created).GetOr(now),
      done)
  }

  /** One trimmed line: the task its record describes, when it is a record. */
  function ParseRecord(line: string, now: DateTime): Option<Task> {
    match MatchRecord(line)
    case None => None
    case Some(c) => Some(TaskOf(c, now))
  }

  /**
   * A line gives a task exactly when it matches the record pattern, and the
   * task's title is the shortest one with which the line matches.
   */
  lemma ParseRecordDecides(line: string, now: DateTime)
    ensures ParseRecord(line, now).Some? <==> MatchesRecordRegex(line)
    ensures ParseRecord(line, now).Some? ==> forall c :: WellFormedCaptures(c) && line == RecordText(c) ==>
      |ParseRecord(line, now).value.title| <= |c.title|
  {
    MatchRecordDecides(line);
  }

  /** The groups of a task's record line give the task back. */
  lemma TaskOfRecordOf(t: Task, now: DateTime)
    requires Representable(t)
    ensures WellFormedMeta(RecordOf(t).meta) && TaskOf(RecordOf(t), now) == t
  {
    FormatTaskIsRecord(t);
    ParseU32Decimal(t.id);
    ParseFormatTs(t.createdAt);
    match t.doneAt
    case Some(d) => ParseFormatTs(d);
    case None =>
  }

  /** Each line of a record built from a representable task reads back as that task. */
  lemma ParseFormatRecord(t: Task, now: DateTime)
    requires Representable(t)
    ensures Trim(FormatTask(t)) == FormatTask(t)
    ensures ParseRecord(FormatTask(t), now) == Some(t)
  {
    FormatTaskOneLine(t);
    TrimUnchanged(FormatTask(t));
    FormatTaskIsRecord(t);
    MatchRecordOfText(RecordOf(t));
    TaskOfRecordOf(t, now);
  }

  /** The tasks a single line of the file contributes: none, or the task of its trimmed record. */
  function LineTasks(line: string, now: DateTime): (r: seq<Task>)
    ensures |r| <= 1
  {
    match ParseRecord(Trim(line), now)
    case None => []
    case Some(t) => [t]
  }

  /** The line parser for a given current time. */
  function LineParser(now: DateTime): string -> seq<Task> {
    line => LineTasks(line, now)
  }

  /** The tasks of a sequence of lines, in line order. */
  function ParseLines(ls: seq<string>, now: DateTime): seq<Task> {
    ConcatMap(ls, LineParser(now))
  }

  /** `parse_tasks` on the whole file content, without the counter. */
  function ParseRecords(content: string, now: DateTime): seq<Task> {
    ParseLines(Lines(content), now)
  }

  /** The header, section and blank lines of the file are no records. */
  lemma FixedLineGivesNothing(line: string, now: DateTime)
    requires line == "# godo tasks" || line == "## Todo" || line == "## Done" || line == ""
    ensures LineTasks(line, now) == []
  {
    if line != "" {
      assert line[0] == '#' && line[|line| - 1] in "skoe";
      HeadingGivesNothing(line, now);
    }
  }

  /** A line that opens with `#` and ends in a letter is its own trim and no record. */
  lemma HeadingGivesNothing(line: string, now: DateTime)
    requires line != [] && line[0] == '#' && line[|line| - 1] in "skoe"
    ensures LineTasks(line, now) == []
  {
    TrimUnchanged(line);
    assert |line| < 6 || line[..3] != "- [";
  }

  lemma FixedLinesGiveNothing(ls: seq<string>, now: DateTime)
    requires forall i :: 0 <= i < |ls| ==>
      ls[i] == "# godo tasks" || ls[i] == "## Todo" || ls[i] == "## Done" || ls[i] == ""
    ensures ParseLines(ls, now) == []
  {
    forall i | 0 <= i < |ls|
      ensures LineParser(now)(ls[i]) == []
    {
      FixedLineGivesNothing(ls[i], now);
    }
    ConcatMapEmpty(ls, LineParser(now));
  }

  /** The record lines of `ts`, in order. */
  function RecordLines(ts: seq<Task>): seq<string> {
    Map(ts, FormatTask)
  }

  /** `format_task(t)` followed by a line feed, for each task in order. */
  function Section(ts: seq<Task>): string {
    JoinLines(RecordLines(ts))
  }

  /** Adding a task to a section appends its record line and a line feed. */
  lemma SectionSnoc(ts: seq<Task>, t: Task)
    ensures Section(ts + [t]) == Section(ts) + FormatTask(t) + "\n"
  {
    MapSnoc(ts, t, FormatTask);
    JoinLinesSnoc(RecordLines(ts), FormatTask(t));
  }

  /** `format_tasks`: header, the pending tasks, then the done tasks, each section in list order. */
  function FormatDoc(ts: seq<Task>): string {
    HEADER + "## Todo\n\n" + Section(TodoOf(ts)) + "\n## Done\n\n" + Section(DoneOf(ts))
  }

  const HeadLines: seq<string> := ["# godo tasks", "", "## Todo", ""]
  const MidLines: seq<string> := ["", "## Done", ""]

  /** The lines of the file `format_tasks` writes for `ts`. */
  function DocLines(ts: seq<Task>): seq<string> {
    HeadLines + RecordLines(TodoOf(ts)) + MidLines + RecordLines(DoneOf(ts))
  }

  lemma HeadLinesText()
    ensures JoinLines(HeadLines) == HEADER + "## Todo\n\n"
    ensures NoNewlines(HeadLines)
  {
    assert HeadLines[1..][1..][1..][1..] == [];
  }

  lemma MidLinesText()
    ensures JoinLines(MidLines) == "\n## Done\n\n"
    ensures NoNewlines(MidLines)
  {
    assert MidLines[1..][1..][1..] == [];
  }

  /** A file laid out as header, lines, Done heading and lines is the join of all those lines. */
  lemma DocLayout(a: seq<string>, b: seq<string>)
    ensures HEADER + "## Todo\n\n" + JoinLines(a) + "\n## Done\n\n" + JoinLines(b)
      == JoinLines(HeadLines + a + MidLines + b)
  {
    HeadLinesText();
    MidLinesText();
    JoinLinesAppend(HeadLines, a);
    JoinLinesAppend(HeadLines + a, MidLines);
    JoinLinesAppend(HeadLines + a + MidLines, b);
  }

  /** The formatted file is exactly its lines, each ended by a line feed. */
  lemma FormatDocLines(ts: seq<Task>)
    ensures FormatDoc(ts) == JoinLines(DocLines(ts))
  {
    DocLayout(RecordLines(TodoOf(ts)), RecordLines(DoneOf(ts)));
  }

  /** The line parser gives back exactly the task a record line was written from. */
  lemma RecordLineParses(t: Task, now: DateTime)
    requires Representable(t)
    ensures LineParser(now)(FormatTask(t)) == [t]
  {
    ParseFormatRecord(t, now);
    assert LineTasks(FormatTask(t), now) == [t];
  }

  /** The record lines of representable tasks read back as those tasks, in order. */
  lemma ParseRecordLines(ts: seq<Task>, now: DateTime)
    requires forall i :: 0 <= i < |ts| ==> Representable(ts[i])
    ensures ParseLines(RecordLines(ts), now) == ts
  {
    forall i | 0 <= i < |ts|
      ensures LineParser(now)(FormatTask(ts[i])) == [ts[i]]
    {
      RecordLineParses(ts[i], now);
    }
    ConcatMapOfMap(ts, FormatTask, LineParser(now));
  }

  lemma RecordLinesOneLine(ts: seq<Task>)
    requires forall i :: 0 <= i < |ts| ==> Representable(ts[i])
    ensures NoNewlines(RecordLines(ts))
  {
    forall i | 0 <= i < |ts|
      ensures '\n' !in RecordLines(ts)[i]
    {
      FormatTaskOneLine(ts[i]);
    }
  }

  /** No line of the formatted file holds a line feed, so splitting it gives its lines back. */
  lemma DocLinesOneLine(ts: seq<Task>)
    requires forall i :: 0 <= i < |ts| ==> Representable(ts[i])
    ensures NoNewlines(DocLines(ts))
  {
    var todo, done := RecordLines(TodoOf(ts)), RecordLines(DoneOf(ts));
    PartsRepresentable(ts);
    RecordLinesOneLine(TodoOf(ts));
    RecordLinesOneLine(DoneOf(ts));
    HeadLinesText();
    MidLinesText();
    NoNewlinesAppend(HeadLines, todo);
    NoNewlinesAppend(HeadLines + todo, MidLines);
    NoNewlinesAppend(HeadLines + todo + MidLines, done);
  }

  /** The pending and the done tasks of `ts` are representable when all of `ts` is. */
  lemma PartsRepresentable(ts: seq<Task>)
    requires forall i :: 0 <= i < |ts| ==> Representable(ts[i])
    ensures forall i :: 0 <= i < |TodoOf(ts)| ==> Representable(TodoOf(ts)[i])
    ensures forall i :: 0 <= i < |DoneOf(ts)| ==> Representable(DoneOf(ts)[i])
  {
    var todo, done := TodoOf(ts), DoneOf(ts);
    forall i | 0 <= i < |todo| ensures Representable(todo[i]) {
      assert todo[i] in ts;
    }
    forall i | 0 <= i < |done| ensures Representable(done[i]) {
      assert done[i] in ts;
    }
  }

  lemma HeadGivesNothing(now: DateTime)
    ensures ParseLines(HeadLines, now) == []
  {
    FixedLinesGiveNothing(HeadLines, now);
  }

  lemma MidGivesNothing(now: DateTime)
    ensures ParseLines(MidLines, now) == []
  {
    FixedLinesGiveNothing(MidLines, now);
  }

  /** Only the record lines of a laid-out file contribute tasks. */
  lemma ParseDocLines(a: seq<string>, b: seq<string>, now: DateTime)
    ensures ParseLines(HeadLines + a + MidLines + b, now) == ParseLines(a, now) + ParseLines(b, now)
  {
    HeadGivesNothing(now);
    MidGivesNothing(now);
    ConcatMapAround(HeadLines, a, MidLines, b, LineParser(now));
  }

  /**
   * Round trip: reading what `format_tasks` writes gives the pending tasks in
   * order followed by the done tasks in order (a stable partition, not the
   * original order), each with all its fields.
   */
  lemma ParseFormatRoundTrip(ts: seq<Task>, now: DateTime)
    requires forall i :: 0 <= i < |ts| ==> Representable(ts[i])
    ensures ParseRecords(FormatDoc(ts), now) == TodoOf(ts) + DoneOf(ts)
  {
    PartsRepresentable(ts);
    FormatDocLines(ts);
    DocLinesOneLine(ts);
    LinesOfJoin(DocLines(ts));
    ParseDocLines(RecordLines(TodoOf(ts)), RecordLines(DoneOf(ts)), now);
    ParseRecordLines(TodoOf(ts), now);
    ParseRecordLines(DoneOf(ts), now);
  }

  /** The partition holds the same tasks as the original, so it has the same largest id. */
  lemma PartitionMaxId(ts: seq<Task>)
    ensures MaxId(TodoOf(ts) + DoneOf(ts)) == MaxId(ts)
  {
    forall t
      ensures t in TodoOf(ts) + DoneOf(ts) <==> t in ts
    {
      if t in ts {
        match t.status
        case Todo => assert t in TodoOf(ts);
        case Done => assert t in DoneOf(ts);
      }
    }
    MaxIdSameTasks(TodoOf(ts) + DoneOf(ts), ts);
  }

  /** Writing the file again after reading it gives the same text: the partition is already sorted. */
  lemma FormatParseFormat(ts: seq<Task>, now: DateTime)
    requires forall i :: 0 <= i < |ts| ==> Representable(ts[i])
    ensures FormatDoc(ParseRecords(FormatDoc(ts), now)) == FormatDoc(ts)
  {
    ParseFormatRoundTrip(ts, now);
    FilterAppend(TodoOf(ts), DoneOf(ts), Todo);
    FilterAppend(TodoOf(ts), DoneOf(ts), Done);
    FilterOfFilter(ts, Todo, Todo);
    FilterOfFilter(ts, Done, Todo);
    FilterOfFilter(ts, Todo, Done);
    FilterOfFilter(ts, Done, Done);
    assert TodoOf(TodoOf(ts) + DoneOf(ts)) == TodoOf(ts);
    assert DoneOf(TodoOf(ts) + DoneOf(ts)) == DoneOf(ts);
  }

  /** One more record line on a text that ends with a section: the section grows by one task. */
  lemma SectionStep(a: string, ts: seq<Task>, i: nat)
    requires i < |ts|
    ensures a + Section(ts[..i]) + FormatTask(ts[i]) + "\n" == a + Section(ts[..i + 1])
  {
    assert ts[..i + 1] == ts[..i] + [ts[i]];
    SectionSnoc(ts[..i], ts[i]);
    AppendTwo(a, Section(ts[..i]), FormatTask(ts[i]), "\n");
  }

  lemma SectionEmpty(a: string, ts: seq<Task>)
    ensures a == a + Section(ts[..0])
  {
    assert RecordLines(ts[..0]) == [];
  }

  /**
   * `format_tasks`: appends the header, each pending record line, the Done
   * heading and each done record line to the output, in list order.
   */
  method FormatTasks(list: TaskList) returns (output: string)
    ensures output == FormatDoc(list.tasks)
  {
    var todo := TodoOf(list.tasks);
    var done := DoneOf(list.tasks);
    output := HEADER;
    output := output + "## Todo\n\n";
    SectionEmpty(output, todo);
    for i := 0 to |todo|
      invariant output == HEADER + "## Todo\n\n" + Section(todo[..i])
    {
      SectionStep(HEADER + "## Todo\n\n", todo, i);
      output := output + FormatTask(todo[i]);
      output := output + "\n";
    }
    assert todo[..|todo|] == todo;
    output := output + "\n## Done\n\n";
    SectionEmpty(output, done);
    for i := 0 to |done|
      invariant output == HEADER + "## Todo\n\n" + Section(todo) + "\n## Done\n\n" + Section(done[..i])
    {
      SectionStep(HEADER + "## Todo\n\n" + Section(todo) + "\n## Done\n\n", done, i);
      output := output + FormatTask(done[i]);
      output := output + "\n";
    }
    assert done[..|done|] == done;
  }

  /** One more line read: the tasks grow by what that line contributes. */
  lemma ParseLinesStep(ls: seq<string>, i: nat, now: DateTime)
    requires i < |ls|
    ensures ParseLines(ls[..i + 1], now) == ParseLines(ls[..i], now) + LineTasks(ls[i], now)
  {
    assert ls[..i + 1] == ls[..i] + [ls[i]];
    ConcatMapSnoc(ls[..i], ls[i], LineParser(now));
  }

  /**
   * `parse_tasks`: keeps the task of every line that matches the record
   * pattern after trimming, in line order, and derives the counter from them.
   * It never fails.
   */
  method ParseTasks(content: string, now: DateTime) returns (list: TaskList)
    ensures fresh(list) && list.Valid()
    ensures list.tasks == ParseRecords(content, now)
    ensures list.nextId == MaxId(list.tasks) + 1
  {
    var lines := Lines(content);
    var tasks: seq<Task> := [];
    for i := 0 to |lines|
      invariant tasks == ParseLines(lines[..i], now)
    {
      ParseLinesStep(lines, i, now);
      var line := Trim(lines[i]);
      var r := ParseRecord(line, now);
      if r.Some? {
        tasks := tasks + [r.value];
      } else {
        assert tasks + [] == tasks;
      }
    }
    assert lines[..|lines|] == lines;
    list := new TaskList.WithTasks(tasks);
  }

  /**
   * Saving and loading the list: the loaded list holds the pending tasks then
   * the done tasks, all fields kept, and its counter is one past the largest id.
   */
  method SaveThenLoad(list: TaskList, now: DateTime) returns (loaded: TaskList)
    requires forall i :: 0 <= i < |list.tasks| ==> Representable(list.tasks[i])
    ensures fresh(loaded) && loaded.Valid()
    ensures loaded.tasks == TodoOf(list.tasks) + DoneOf(list.tasks)
    ensures loaded.nextId == MaxId(list.tasks) + 1
  {
    var content := FormatTasks(list);
    loaded := ParseTasks(content, now);
    ParseFormatRoundTrip(list.tasks, now);
    PartitionMaxId(list.tasks);
  }
}
