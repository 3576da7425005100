/**
 * The texts of the two parsing examples of the storage module, and how the
 * pieces the formatters write join into them. The module imports nothing, so
 * these joins are checked without the rest of the model in view.
 */
module ExampleTexts {

  /** The two timestamps of the examples: 10:00 and 12:00 on 2025-01-07 at +09:00. */
  const TenOClock: string := "2025-01-07T10:00:00+09:00"
  const Noon: string := "2025-01-07T12:00:00+09:00"

  /** The record lines of the two examples. */
  const TodoRecord: string := "- [ ] Test task <!-- id:1 created:" + TenOClock + " -->"
  const DoneRecord: string := "- [x] Done task <!-- id:1 created:" + TenOClock + " done:" + Noon + " -->"

  /** The file of the first example: one pending task. */
  const TodoFile: string := "# godo tasks\n\n## Todo\n\n" + TodoRecord + "\n\n## Done\n\n"

  /** The file of the second example: one done task, and no blank line between the two headings. */
  const DoneFile: string := "# godo tasks\n\n## Todo\n\n## Done\n\n" + DoneRecord + "\n"

  /** The year, month and day fields of the example date, joined with `-`. */
  lemma JoinDateFields()
    ensures "2025" + "-" + "01" + "-" + "07" == "2025-01-07"
  {
  }

  /** The sign, hours and minutes of the +09:00 offset, joined with `:`. */
  lemma JoinOffsetFields()
    ensures ['+'] + "09" + ":" + "00" == "+09:00"
  {
  }

  /** The hour, minute and second fields of the two example times, joined with `:`. */
  lemma JoinClockFields()
    ensures "10" + ":" + "00" + ":" + "00" == "10:00:00"
    ensures "12" + ":" + "00" + ":" + "00" == "12:00:00"
  {
  }

  /** Date, `T`, time and offset join into the first timestamp. */
  lemma JoinTenOClock()
    ensures "2025-01-07" + "T" + "10:00:00" + "+09:00" == TenOClock
  {
    assert "2025-01-07" + "T" == "2025-01-07T";
    assert "10:00:00" + "+09:00" == "10:00:00+09:00";
  }

  /** Date, `T`, time and offset join into the second timestamp. */
  lemma JoinNoon()
    ensures "2025-01-07" + "T" + "12:00:00" + "+09:00" == Noon
  {
    assert "2025-01-07" + "T" == "2025-01-07T";
    assert "12:00:00" + "+09:00" == "12:00:00+09:00";
  }

  /** The pieces of `format_task` up to the creation time, for the first example's task. */
  lemma JoinTodoRecordHead()
    ensures "- " + "[ ]" + " " + "Test task" + " <!-- " + ("id:" + "1" + " created:") == "- [ ] Test task <!-- id:1 created:"
  {
    assert "- " + "[ ]" + " " == "- [ ] ";
    assert "- [ ] " + "Test task" == "- [ ] Test task";
    assert "- [ ] Test task" + " <!-- " == "- [ ] Test task <!-- ";
    assert "id:" + "1" + " created:" == "id:1 created:";
  }

  /** The pieces of `format_task` up to the creation time, for the second example's task. */
  lemma JoinDoneRecordHead()
    ensures "- " + "[x]" + " " + "Done task" + " <!-- " + ("id:" + "1" + " created:") == "- [x] Done task <!-- id:1 created:"
  {
    assert "- " + "[x]" + " " == "- [x] ";
    assert "- [x] " + "Done task" == "- [x] Done task";
    assert "- [x] Done task" + " <!-- " == "- [x] Done task <!-- ";
    assert "id:" + "1" + " created:" == "id:1 created:";
  }

  /** The header and section pieces of `format_tasks` join into the openings of the two example files. */
  lemma JoinFileParts()
    ensures "# godo tasks\n\n" + "## Todo\n\n" == "# godo tasks\n\n## Todo\n\n"
    ensures "\n" + "\n## Done\n\n" == "\n\n## Done\n\n"
    ensures "## Done" + "\n" + ("" + "\n" + "") == "## Done\n\n"
    ensures "# godo tasks\n\n## Todo\n\n" + "## Done\n\n" == "# godo tasks\n\n## Todo\n\n## Done\n\n"
  {
  }
}
