# godo task storage and task list, in Dafny

godo is a command-line to-do list. It keeps its tasks in one Markdown file:

```
# godo tasks

## Todo

- [ ] Buy milk <!-- id:1 created:2025-01-07T10:00:00+09:00 -->

## Done

- [x] Write report <!-- id:2 created:2025-01-07T10:00:00+09:00 done:2025-01-07T12:00:00+09:00 -->
```

This project models godo's core and proves properties of that model.
The core is two parts:
- The in-memory task list (`src/task.rs`). It holds tasks with a status, hands out identifiers from a counter, and finds, removes, edits and completes tasks.
- The text codec (`src/storage.rs`). It writes the list in the layout above, and reads it back with a regular expression that accepts record lines wherever they appear.

Modules, in dependency order:

- `Wrappers`: `Option`.
- `Seqs`: `Map`, `ConcatMap` and their append laws.
- `Digits`: ASCII decimal rendering and reading, for `{}` on integers and for chrono's zero-padded fields.
- `TextLines`: Rust's `char::is_whitespace`, `str::trim` and `str::lines`, with `JoinLines` as the inverse of `Lines`.
- `Timestamps`: whole-second timestamps with a UTC offset in minutes.
  - `FormatTs` writes a timestamp as chrono's `%Y-%m-%dT%H:%M:%S%:z` does.
  - `ParseTs` reads that shape back.
- `Tasks`: the `Task` value and its status. The `TaskList` class has the fields `tasks` and `nextId`.
- `RecordPattern`: the record regex `^- \[([ x])\] (.+?) <!-- id:(\d+) created:([^\s]+)(?: done:([^\s]+))? -->$`, in two forms.
  - `RecordText`/`MatchesRecordRegex` give the language it accepts, built from capture groups.
  - `MatchRecord` is a hand-written matcher. It is proved to decide that language and to return the shortest title, as the lazy `(.+?)` does.
- `Storage`:
  - `format_task` and `format_tasks` (the function `FormatDoc` and the method `FormatTasks`);
  - the lenient field reading (`TaskOf`);
  - `parse_tasks` (the function `ParseRecords` and the method `ParseTasks`);
  - the round-trip theorems.
- `ExampleTexts` and `StorageExamples`: the two unit tests of `src/storage.rs`, stated and proved as lemmas. Also one scenario about reloading, `RemovedIdReissued`.

Main results:

- **Round trip** (`Storage.ParseFormatRoundTrip`). Take tasks whose titles are non-empty and hold no line feed.
  - A title may hold anything else, including `<!--` and text shaped like metadata. The lazy `(.+?)` still stops at the task's own metadata: a well-formed metadata comment never equals a non-empty text followed by another one (`RecordPattern.NoMetaAfterPrefix`, by counting spaces).
  - Reading what `format_tasks` writes gives back every task with every field.
  - The order changes: the pending tasks come first, then the done tasks, each group in list order.
  - So the round trip is exact only for a list that is already in that order. `Storage.FormatParseFormat` proves that a second write gives the same text.
  - The counter of the reloaded list is one past the largest id (`Storage.SaveThenLoad`, `Storage.PartitionMaxId`).
- **Counter invariant** (`TaskList.Valid`): every stored id is below `nextId`.
  - Every constructor establishes it, and every method keeps it.
  - `Add` hands out an id that no stored task has.
  - `Add`, `Remove`, `EditTitle` and `MarkDoneById` keep distinct ids distinct.
- **Parser** (`RecordPattern.MatchRecordDecides`, `Storage.ParseRecordDecides`). A trimmed line gives a task exactly when it matches the regex.
- **Leniency** (`Storage.TaskOf`). A bad id field gives id 0, a bad creation time gives `now`, and a bad completion time gives none.

The code and the design intent differ in three places. The model follows the code.
- Identifiers are meant to be unique and never reused.
  - Nothing checks uniqueness when a file is read.
  - The counter is not stored in the file. After the task with the largest id is removed, a save and reload hand that id out again. `StorageExamples.RemovedIdReissued` proves this on a concrete sequence of calls.
- The round trip is meant to reproduce the list exactly. It reproduces the stable partition by status described above.
- A completion time is meant to be present exactly when the task is done (`Tasks.DoneAtMatchesStatus`).
  - `Task::new` and `mark_done` keep that.
  - The parser does not: `[x]` with no `done:` field, or a `done:` field on a `[ ]` line, is read as written.

## Model

| member | source | states |
|---|---|---|
| Tasks.Marker | src/task.rs:12-17 | the marker is three characters `[`, `x` or space, `]`; the middle one is `x` exactly for Done |
| Tasks.NewTask | src/task.rs:30-38 | a new task has the given id and title, was created at `now`, is pending, and has no completion time |
| Tasks.MarkDone | src/task.rs:40-43 | the task becomes Done with completion time `now`; id, title and creation time are unchanged |
| Tasks.MarkDoneTwice | src/task.rs:40-43 | marking done again keeps the task done and only moves the completion time to the later call |
| Tasks.IsDone | src/task.rs:45-47 | definition: a task is done when its status is Done; used by `Tasks.DoneAtMatchesStatus` and `Tasks.MarkDone` |
| Tasks.TodoOf | src/storage.rs:80 | definition: the pending tasks in order, as `Filter` by Todo; properties in `Tasks.Filter`, `Tasks.FilterPartition`, `Tasks.FilterOfFilter` |
| Tasks.DoneOf | src/storage.rs:81 | definition: the done tasks in order, as `Filter` by Done; properties in `Tasks.Filter`, `Tasks.FilterPartition`, `Tasks.FilterOfFilter` |
| Tasks.Filter | src/task.rs:88-90 | the result holds exactly the tasks with the given status, and it is no longer than the input |
| Tasks.FilterAppend | src/storage.rs:80-81 | filtering distributes over concatenation, so the filter keeps relative order |
| Tasks.FilterPartition | src/storage.rs:80-81 | the todo part and the done part together are a permutation of the list, and their lengths add up |
| Tasks.FilterOfFilter | src/storage.rs:80-81 | filtering a filtered list by the same status changes nothing; by the other status it gives nothing |
| Tasks.MaxId | src/task.rs:65 | the result is at least every id, is one of the ids, and is 0 for an empty list (`max().unwrap_or(0)`) |
| Tasks.MaxIdSameTasks | src/task.rs:65 | two sequences holding the same tasks have the same largest id |
| Tasks.FirstIndex | src/task.rs:77 | the result is the first position whose id matches; None exactly when no task has the id |
| Tasks.DeletePreservesIds | src/task.rs:80-86 | deleting a position keeps every id below the bound and keeps distinct ids distinct |
| Tasks.ReplacePreservesIds | src/commands.rs:130-131 | replacing a task by one with the same id keeps every id below the bound and keeps distinct ids distinct |
| Tasks.TaskList.constructor | src/task.rs:57-62 | the new list is empty, its counter is 1, and it satisfies the invariant |
| Tasks.TaskList.WithTasks | src/task.rs:64-67 | the tasks are kept as given, the counter is one past the largest id, and the invariant holds |
| Tasks.TaskList.Add | src/task.rs:69-74 | appends a pending task that carries the old counter and was created at `now`; the counter grows by one; the new id is unused; the invariant holds |
| Tasks.TaskList.FindMut | src/task.rs:76-78 | returns the first position whose id matches, or None when no task has the id |
| Tasks.TaskList.Remove | src/task.rs:80-86 | removes and returns the first task with the id, and the rest keep their order; with no such task nothing changes and the result is None |
| Tasks.TaskList.EditTitle | src/commands.rs:130-131 | only the title of the first task with the id changes; reports whether that task exists |
| Tasks.TaskList.MarkDoneById | src/commands.rs:96-97 | only the first task with the id changes, and it becomes `MarkDone` of itself; reports whether it exists |
| Tasks.TaskList.TodoTasks | src/task.rs:88-90 | the result holds exactly the pending tasks of the list |
| Tasks.TaskList.AllTasks | src/task.rs:92-94 | the result is the list's tasks, position by position |
| Digits.Decimal | src/storage.rs:104 | the rendering of an id is a non-empty run of ASCII digits, a single digit exactly below 10, with no leading zero |
| Digits.DecimalRoundTrip | src/storage.rs:58 | reading back the rendering of a number gives the number |
| Digits.Padded | src/storage.rs:100 | a padded field has exactly its width and holds only digits |
| Digits.PaddedRoundTrip | src/storage.rs:100 | reading back a zero-padded field gives the number |
| TextLines.IsWhitespace | src/storage.rs:46-50 | definition of the Unicode White_Space set behind `char::is_whitespace`, `str::trim` and the regex class `\s`; it decides `TrimStart`, `TrimEnd` and `RecordPattern.NonSpaceRun` |
| TextLines.TrimStart | src/storage.rs:50 | the result is a suffix; everything cut off is whitespace, and the result does not start with whitespace |
| TextLines.TrimEnd | src/storage.rs:50 | the result is a prefix; everything cut off is whitespace, and the result does not end with whitespace |
| TextLines.Trim | src/storage.rs:50 | `str::trim`: the result is a prefix of the start-trimmed text with only whitespace after it, so a slice of the text with only whitespace on either side; a non-empty result neither starts nor ends with whitespace; see also `TextLines.TrimUnchanged` |
| TextLines.Lines | src/storage.rs:49 | `str::lines`: no line holds a line feed; `TextLines.LinesOfJoin` and `TextLines.JoinOfLines` relate it to `JoinLines` both ways |
| TextLines.TrimUnchanged | src/storage.rs:50 | a text that neither starts nor ends with whitespace is its own trim |
| TextLines.NewlineIndex | src/storage.rs:49 | the result is the position of the first line feed, or the length when there is none |
| TextLines.JoinOfLines | src/storage.rs:49 | joining the lines of any text gives the text back, with a line feed added when the last line had none, since `str::lines` makes the final line feed optional |
| TextLines.JoinLinesAppend | src/storage.rs:84-93 | writing two groups of lines one after the other is writing them all |
| TextLines.LinesOfJoin | src/storage.rs:49 | splitting lines that were each written with a line feed gives them back, when none holds a line feed |
| Timestamps.FormatTs | src/storage.rs:100 | the rendering of a timestamp is always 25 characters |
| Timestamps.FormatOffset | src/storage.rs:100 | the offset is always written as six characters |
| Timestamps.FormatTsNoSpace | src/storage.rs:100 | a rendered timestamp holds no whitespace, so it fits the `[^\s]+` group |
| Timestamps.ParseFormatDate | src/storage.rs:59-61 | reading back a written date gives year, month and day |
| Timestamps.ParseFormatTime | src/storage.rs:59-61 | reading back a written time gives hour, minute and second |
| Timestamps.ParseFormatOffset | src/storage.rs:59-61 | reading back a written offset gives its minutes, sign included |
| Timestamps.ParseTs | src/storage.rs:59-62 | definition of `caps[4].parse::<DateTime<Local>>()` (chrono's `FromStr`, a relaxed RFC 3339 reading) on the shape `format_task` writes; a success needs 25 characters; `Timestamps.ParseFormatTs` shows it inverts `FormatTs` |
| Timestamps.ParseFormatTs | src/storage.rs:59-62 | reading back a written timestamp gives the same timestamp |
| RecordPattern.RecordText | src/storage.rs:46 | definition: the record line the regex reads, rebuilt from its capture groups; properties in `RecordPattern.MatchRecordOfText`, `RecordPattern.MatchRecordDecides`, `RecordPattern.RecordTextOneLine` |
| RecordPattern.MatchesRecordRegex | src/storage.rs:46 | definition: the language of the record regex, the lines that are `RecordText` of well-formed groups; `RecordPattern.MatchRecordDecides` shows the matcher decides it |
| RecordPattern.DigitRun | src/storage.rs:46 | the greedy `\d+` run lies within the text, holds only digits, and is maximal: the character after it is not a digit |
| RecordPattern.NonSpaceRun | src/storage.rs:46 | the greedy `[^\s]+` run lies within the text, holds no whitespace, and is maximal: the character after it is whitespace |
| RecordPattern.MatchDoneTail | src/storage.rs:46 | a success gives a well-formed optional `done:` group with the text rebuilt from it |
| RecordPattern.MatchFromCreated | src/storage.rs:46 | a success gives a non-empty creation group without whitespace and a well-formed `done:` group, with the text rebuilt from them |
| RecordPattern.MatchFromId | src/storage.rs:46 | a success gives well-formed metadata groups with the text rebuilt from them |
| RecordPattern.MatchMeta | src/storage.rs:46 | a success gives well-formed metadata groups that rebuild the whole comment |
| RecordPattern.MatchMetaComplete | src/storage.rs:46 | every comment built from well-formed groups is matched with exactly those groups |
| RecordPattern.MatchMetaDecides | src/storage.rs:46 | the metadata matcher succeeds exactly on the texts the metadata part of the regex accepts |
| RecordPattern.MetaTextInjective | src/storage.rs:46 | two well-formed metadata group sets with the same text are equal |
| RecordPattern.FirstTitleEnd | src/storage.rs:46 | the lazy search returns the first place where the title can end, and None exactly when there is none |
| RecordPattern.MatchRecord | src/storage.rs:46 | a success gives well-formed groups that rebuild the whole line |
| RecordPattern.MatchRecordDecides | src/storage.rs:46 | the matcher succeeds exactly on the lines the regex accepts, and its title is no longer than any other match's |
| RecordPattern.MetaBlanks | src/storage.rs:46 | a well-formed metadata comment holds exactly four spaces, five with a `done:` group |
| RecordPattern.NoMetaAfterPrefix | src/storage.rs:46 | a non-empty text followed by a well-formed metadata comment is never itself a well-formed metadata comment |
| RecordPattern.MatchRecordOfText | src/storage.rs:46 | a line built from well-formed groups is matched with exactly those groups, whatever the title holds |
| Storage.Metadata | src/storage.rs:102-107 | definition: `id:`, the id, ` created:` and the creation time, then ` done:` and the completion time when there is one; properties in `Storage.FormatTaskIsRecord` |
| Storage.FormatTask | src/storage.rs:98-110 | definition of `format_task`; properties in `Storage.FormatTaskIsRecord`, `Storage.FormatTaskOneLine`, `Storage.ParseFormatRecord` |
| Storage.FormatTaskIsRecord | src/storage.rs:98-110 | every record line is the regex's line for the task's own groups, and those groups are well-formed when the title is non-empty and on one line |
| Storage.FormatTaskOneLine | src/storage.rs:98-110 | a record line holds no line feed and does not start or end with whitespace |
| Storage.ParseU32 | src/storage.rs:58 | definition: the value of the digits, or 0 when it does not fit 32 bits; properties in `Storage.ParseU32Decimal`, `Storage.TaskOf` |
| Storage.ParseU32Decimal | src/storage.rs:58 | parsing the rendering of a 32-bit id gives the id |
| Storage.TaskOf | src/storage.rs:52-70 | title and status come from the groups; an id that does not fit 32 bits gives 0; an unreadable creation time gives `now`; an unreadable completion time gives none |
| Storage.ParseRecord | src/storage.rs:49-71 | definition: the task of a trimmed line when the matcher accepts it; properties in `Storage.ParseRecordDecides`, `Storage.ParseFormatRecord` |
| Storage.ParseRecordDecides | src/storage.rs:46-51 | a trimmed line gives a task exactly when it matches the regex, with the shortest title |
| Storage.TaskOfRecordOf | src/storage.rs:52-70 | the groups of a representable task's record line give the task back |
| Storage.ParseFormatRecord | src/storage.rs:49-70 | a representable task's record line is its own trim and reads back as the task |
| Storage.LineTasks | src/storage.rs:49-71 | a line contributes at most one task |
| Storage.FixedLinesGiveNothing | src/storage.rs:49-51 | header, section headings and blank lines contribute no task |
| Storage.SectionSnoc | src/storage.rs:84-87 | one more task in a section appends its record line and a line feed |
| Storage.FormatDoc | src/storage.rs:77-96 | definition of `format_tasks`: `HEADER` (src/storage.rs:7), the Todo heading, the pending record lines, the Done heading, the done record lines; properties in `Storage.FormatDocLines`, `Storage.ParseFormatRoundTrip`, `Storage.FormatTasks` |
| Storage.FormatDocLines | src/storage.rs:77-96 | the written file is exactly its lines, each followed by a line feed |
| Storage.ParseRecordLines | src/storage.rs:49-71 | the record lines of representable tasks read back as those tasks, in order |
| Storage.ParseRecords | src/storage.rs:42-72 | definition of `parse_tasks` without the counter: the task of each line that matches, in line order; properties in `Storage.ParseTasks`, `Storage.ParseRecordLines`, `Storage.ParseFormatRoundTrip` |
| Storage.ParseFormatRoundTrip | src/storage.rs:42-110 | reading what `format_tasks` writes gives the pending tasks then the done tasks, each with all its fields |
| Storage.PartitionMaxId | src/storage.rs:74 | the reordered list has the same largest id as the original |
| Storage.FormatParseFormat | src/storage.rs:42-110 | writing after reading a written file reproduces the same text |
| Storage.FormatTasks | src/storage.rs:77-96 | the loop writes the header, each pending record line, the Done heading and each done record line, in list order |
| Storage.ParseTasks | src/storage.rs:42-75 | the loop keeps the task of each matching trimmed line, in line order; the counter is one past the largest id; it never fails |
| Storage.SaveThenLoad | src/storage.rs:19-23 | saving then loading gives the pending tasks then the done tasks, with the counter one past the largest id |
| StorageExamples.TestTaskRecord | src/storage.rs:127 | the first test's record line is what `format_task` writes for its task |
| StorageExamples.DoneTaskRecord | src/storage.rs:146 | the second test's record line is what `format_task` writes for its task |
| StorageExamples.ParseTodoTaskExample | src/storage.rs:121-136 | the first test file gives one pending task titled "Test task", and it is what `format_tasks` writes for that task |
| StorageExamples.ParseDoneTaskExample | src/storage.rs:138-153 | the second test file gives one done task titled "Done task" that has a completion time |
| StorageExamples.DoneOnlyFile | src/storage.rs:140-147 | a file with an empty Todo section and one record line reads as that record's task |
| StorageExamples.RemovedIdReissued | src/task.rs:65 | after add, add, remove of the second task, save and load, the next add hands out the removed id 2 again |

## Left out

- File I/O is left out: `load_tasks`, `save_tasks` and `create_initial_tasks_file` (src/storage.rs:9-40, 112-115). That covers the missing-file case, directory creation and the I/O errors. `SaveThenLoad` composes the two pure halves.
- The command layer is left out (src/commands.rs, src/cli.rs, src/config.rs, src/error.rs, src/main.rs). Only the find-then-update steps of `edit` and `done` are modelled.
- `Local::now()` is a `now` parameter. One parse uses one `now` for every line.
- The local time zone is left out. chrono converts a parsed time to the local offset and writes that offset. The model keeps the offset that was read. Sub-second precision is left out too.
- Timestamps.ParseTs: reads only the 25-character shape that `format_task` writes, with years 0 to 9999. chrono's parser also accepts other RFC 3339 forms: a space for `T`, fractional seconds, `Z`, and negative or five-digit years. The model reads those as unparsable. So a hand-edited file can get `now` where chrono would read a time.
- Leap seconds (second 60) are left out.
- The `regex` crate is replaced by the matcher in `RecordPattern`.
  - `\d` is read as ASCII digits. The crate's Unicode `\d` also matches other decimal digits, and `u32::from_str` then rejects them, which gives id 0.
  - `\s` and `trim` use the Unicode White_Space set, as Rust does.
- `str::lines` also drops a `\r` before each line feed. The model does not, because every line is trimmed before matching.
- Tasks.TaskList.FindMut: returns the position of the task instead of a mutable reference. `EditTitle` and `MarkDoneById` write through that position.
- Tasks.TaskList.Add: requires the counter to be below 2^32 - 1. In the source, `next_id += 1` panics or wraps at `u32::MAX`.
- Tasks.TaskList.WithTasks: the counter is an unbounded integer. In the source, `max + 1` overflows `u32` when a file holds id 4294967295.
- Storage.ParseFormatRoundTrip: requires non-empty titles without line feeds. An empty title does not match `(.+?)`, and a line feed splits the record over two lines; the source does not escape titles. Any other title, `<!--` included, reads back unchanged.
