/**
 * The two parsing examples the storage module ships with, and the lenient
 * reading of a record whose fields do not parse.
 */
module StorageExamples {
  import opened Wrappers
  import opened Digits
  import opened TextLines
  import opened Timestamps
  import opened Tasks
  import opened Storage
  import opened Seqs
  import opened ExampleTexts

  /** 2025-01-07 at the given hour, in a zone nine hours east of UTC. */
  function JanSeventh(hour: nat): DateTime
    requires hour < 24
  {
    Timestamp(2025, 1, 7, hour, 0, 0, 540)
  }

  /** The zero-padded fields the examples' timestamps are made of. */
  lemma ExampleFields()
    ensures Padded(0, 2) == "00" && Padded(1, 2) == "01" && Padded(7, 2) == "07" && Padded(9, 2) == "09"
    ensures Padded(10, 2) == "10" && Padded(12, 2) == "12" && Padded(2025, 4) == "2025"
  {
    assert Padded(2, 1) == "2";
    assert Padded(20, 2) == "20";
    assert Padded(202, 3) == "202";
  }

  lemma JanSeventhDate(t: DateTime)
    requires t.year == 2025 && t.month == 1 && t.day == 7
    ensures FormatDate(t) == "2025-01-07"
  {
    ExampleFields();
    JoinDateFields();
  }

  lemma NineHoursEast(offset: int)
    requires offset == 540
    ensures FormatOffset(offset) == "+09:00"
  {
    ExampleFields();
    JoinOffsetFields();
  }

  lemma ClockText(t: DateTime)
    requires (t.hour == 10 || t.hour == 12) && t.minute == 0 && t.second == 0
    ensures FormatTime(t) == (if t.hour == 10 then "10:00:00" else "12:00:00")
  {
    ExampleFields();
    JoinClockFields();
  }

  /** A timestamp on 2025-01-07 at +09:00, on the hour 10 or 12. */
  predicate ExampleTime(t: DateTime) {
    && t.year == 2025 && t.month == 1 && t.day == 7
    && (t.hour == 10 || t.hour == 12) && t.minute == 0 && t.second == 0
    && t.offsetMinutes == 540
  }

  lemma ExampleTimeText(t: DateTime)
    requires ExampleTime(t)
    ensures FormatTs(t) == (if t.hour == 10 then TenOClock else Noon)
  {
    JanSeventhDate(t);
    NineHoursEast(t.offsetMinutes);
    ClockText(t);
    if t.hour == 10 {
      JoinTenOClock();
    } else {
      JoinNoon();
    }
  }

  /** The task of the first example. */
  function TestTask(): Task {
    Task(1, "Test task", Todo, JanSeventh(10), None)
  }

  /** The task of the second example. */
  function DoneTask(): Task {
    Task(1, "Done task", Done, JanSeventh(10), Some(JanSeventh(12)))
  }

  /** The record line of a pending task, regrouped around its creation time. */
  lemma RegroupTodoMetadata<T>(p: seq<T>, q: seq<T>, x: seq<T>, y: seq<T>)
    ensures p + (q + x) + y == (p + q) + x + y
  {
  }

  /** The record line of a done task, regrouped around its two times. */
  lemma RegroupDoneMetadata<T>(p: seq<T>, q: seq<T>, x: seq<T>, d: seq<T>, e: seq<T>, y: seq<T>)
    ensures p + (q + x + d + e) + y == (p + q) + x + d + e + y
  {
  }

  /** The titles of the examples come back unchanged. */
  lemma ExampleTitles()
    ensures "Test task" != [] && '\n' !in "Test task"
    ensures "Done task" != [] && '\n' !in "Done task"
  {
  }

  /** The record line `format_task` writes for the first example's task is the one in its file. */
  lemma TestTaskRecord(t: Task)
    requires t == TestTask()
    ensures Representable(t) && FormatTask(t) == TodoRecord
  {
    ExampleTitles();
    ExampleTimeText(t.createdAt);
    assert Decimal(t.id) == "1";
    var p := "- " + Marker(t.status) + " " + t.title + " <!-- ";
    var q := "id:" + Decimal(t.id) + " created:";
    assert Metadata(t) == q + TenOClock;
    RegroupTodoMetadata(p, q, TenOClock, " -->");
    JoinTodoRecordHead();
  }

  /** The record line `format_task` writes for the second example's task is the one in its file. */
  lemma DoneTaskRecord(t: Task)
    requires t == DoneTask()
    ensures Representable(t) && FormatTask(t) == DoneRecord
  {
    ExampleTitles();
    ExampleTimeText(t.createdAt);
    ExampleTimeText(t.doneAt.value);
    assert Decimal(t.id) == "1";
    var p := "- " + Marker(t.status) + " " + t.title + " <!-- ";
    var q := "id:" + Decimal(t.id) + " created:";
    assert Metadata(t) == q + TenOClock + " done:" + Noon;
    RegroupDoneMetadata(p, q, TenOClock, " done:", Noon, " -->");
    JoinDoneRecordHead();
  }

  /** A file holding one pending task is the header, that task's record line, and the empty Done section. */
  lemma SingleTodoFile(t: Task, record: string)
    requires t.status == Todo && FormatTask(t) == record
    ensures TodoOf([t]) + DoneOf([t]) == [t]
    ensures FormatDoc([t]) == "# godo tasks\n\n## Todo\n\n" + record + "\n\n## Done\n\n"
  {
    SingleTodoParts(t);
    OneRecordSection(t, record);
    var head := HEADER + "## Todo\n\n";
    assert FormatDoc([t]) == head + (record + "\n") + "\n## Done\n\n" + [];
    JoinFileParts();
    assert head == "# godo tasks\n\n## Todo\n\n";
    OneRecordFile(head, record, "\n", "\n## Done\n\n");
  }

  lemma SingleTodoParts(t: Task)
    requires t.status == Todo
    ensures TodoOf([t]) == [t] && DoneOf([t]) == []
  {
    FilterCons([t], Todo);
    FilterCons([t], Done);
    assert [t][1..] == [];
  }

  lemma OneRecordSection(t: Task, record: string)
    requires FormatTask(t) == record
    ensures Section([t]) == record + "\n" && Section([]) == []
  {
    assert RecordLines([t]) == [record];
    assert JoinLines([record]) == record + "\n" + JoinLines([]);
    assert RecordLines([]) == [];
  }

  lemma OneRecordFile<T>(h: seq<T>, r: seq<T>, n: seq<T>, d: seq<T>)
    ensures h + (r + n) + d + [] == h + r + (n + d)
  {
  }

  /** The Done-only file of the second example is the join of its seven lines, none holding a line feed. */
  lemma DoneFileLines(record: string)
    requires '\n' !in record
    ensures var lines := HeadLines + [] + ["## Done", ""] + [record];
      "# godo tasks\n\n## Todo\n\n## Done\n\n" + record + "\n" == JoinLines(lines) && NoNewlines(lines)
  {
    var headings := ["## Done", ""];
    HeadLinesText();
    assert HeadLines + [] == HeadLines;
    JoinLinesAppend(HeadLines, headings);
    JoinLinesAppend(HeadLines + headings, [record]);
    assert headings[1..][1..] == [];
    JoinFileParts();
    assert JoinLines(headings) == "## Done" + "\n" + ("" + "\n" + "");
    assert JoinLines([record]) == record + "\n" + JoinLines([]);
    NoNewlinesAppend(HeadLines, headings);
    NoNewlinesAppend(HeadLines + headings, [record]);
  }

  /**
   * The first example: reading its file gives one pending task titled
   * "Test task", with id 1 and its creation time. The file is exactly what
   * `format_tasks` writes for that task.
   */
  lemma ParseTodoTaskExample(content: string, now: DateTime)
    requires content == TodoFile
    ensures content == FormatDoc([TestTask()])
    ensures ParseRecords(content, now) == [TestTask()]
    ensures var ts := ParseRecords(content, now); |ts| == 1 && ts[0].title == "Test task" && ts[0].status == Todo
  {
    TestTaskRecord(TestTask());
    SingleTodoFile(TestTask(), TodoRecord);
    ParseFormatRoundTrip([TestTask()], now);
  }

  /**
   * The second example: reading its file gives one done task titled
   * "Done task" that has a completion time. Its file is not in the shape
   * `format_tasks` writes: the two headings have no blank line between them.
   */
  lemma ParseDoneTaskExample(content: string, now: DateTime)
    requires content == DoneFile
    ensures ParseRecords(content, now) == [DoneTask()]
    ensures var ts := ParseRecords(content, now);
      |ts| == 1 && ts[0].title == "Done task" && ts[0].status == Done && ts[0].doneAt.Some?
  {
    DoneTaskRecord(DoneTask());
    FormatTaskOneLine(DoneTask());
    RecordLineParses(DoneTask(), now);
    DoneOnlyFile(DoneRecord, DoneTask(), now);
  }

  /** A file with empty Todo section, no blank line after it, and one record line reads as that record's task. */
  lemma DoneOnlyFile(record: string, t: Task, now: DateTime)
    requires '\n' !in record && LineParser(now)(record) == [t]
    ensures ParseRecords("# godo tasks\n\n## Todo\n\n## Done\n\n" + record + "\n", now) == [t]
  {
    var headings := ["## Done", ""];
    DoneFileLines(record);
    var lines := HeadLines + [] + headings + [record];
    LinesOfJoin(lines);
    HeadGivesNothing(now);
    DoneHeadingGivesNothing(now);
    ConcatMapAround(HeadLines, [], headings, [record], LineParser(now));
    assert ConcatMap([record], LineParser(now)) == ConcatMap([], LineParser(now)) + [t];
  }

  lemma DoneHeadingGivesNothing(now: DateTime)
    ensures ParseLines(["## Done", ""], now) == []
  {
    FixedLinesGiveNothing(["## Done", ""], now);
  }

  /**
   * The counter is not saved: after the task with the largest id is removed,
   * saving and loading the list hands that id out again.
   */
  method RemovedIdReissued(now: DateTime) returns (removed: Task, reissued: Task)
    ensures removed.id == 2 && reissued.id == 2
  {
    var list := new TaskList();
    var first := list.Add("a", now);
    var second := list.Add("b", now);
    assert list.tasks == [first, second];
    assert [first, second][1..] == [second];
    assert FirstIndex([first, second], 2) == Some(1);
    var r := list.Remove(second.id);
    assert list.tasks == [first];
    OneLetterTitle(first);
    var loaded := SaveThenLoad(list, now);
    SingleTaskParts(first);
    reissued := loaded.Add("c", now);
    removed := second;
  }

  lemma OneLetterTitle(t: Task)
    requires t.title == "a"
    ensures Representable(t)
  {
  }

  lemma SingleTaskParts(t: Task)
    ensures TodoOf([t]) + DoneOf([t]) == [t] && MaxId([t]) == t.id
  {
    FilterCons([t], Todo);
    FilterCons([t], Done);
    assert [t][1..] == [];
  }
}
