# book-reader, modelled in Dafny

book-reader is a command-line companion for reading a book in an external
viewer. It keeps a reading log, a plan and daily statistics, and notes
about the book. This project models its bookkeeping core and proves
properties of it.

- **Record store** (`RecordStore`, lib/recorder.py). A database whose root
  holds named containers, each mapping string keys to records.
  - `root` is the live state seen through the open connection; `committed`
    is what the last transaction commit wrote.
  - The connection is opened lazily and reused. A missing container is
    created empty and committed.
- **Reading log** (`Logger`, lib/logger.py). Log entries are keyed by the
  decimal text of their start time.
  - An entry is temporary until its end page is known, then complete.
  - Entries are fetched sorted by start time; the next start page comes from
    the latest complete entry.
  - Temporary entries can be cleared, and the complete entry with the
    greatest key can be deleted.
  - `list_sum` totals minutes and pages per day.
- **Synchronisation** (`Sync`, lib/sync.py). The log, note and errata
  databases are copied one way into another directory.
  - Only keys the destination lacks are copied, verbatim.
  - Every file missing from the destination must first be confirmed.
- **Application** (`Reader`, `Settings`, lib/reader.py):
  - the `read` argument handling;
  - the dispatch on the sub-command;
  - the `plan` generator, which splits the pages into daily chunks;
  - `today`'s statistics over a one-day window of log keys;
  - the book path fix-up.
- **Viewer session** (`Viewer`, lib/viewer.py):
  - the label-page/viewer-page offset;
  - the log entry a session records;
  - the lookup of the end page in the viewer's own log, whose contents are
    passed in as lines.
- **Notes** (`Noter`, lib/noter.py):
  - notes are built from a list of field makers;
  - they are listed and edited through a menu ordered by creation time;
  - an edit saves the note back under its own key.

Supporting modules:

- `Common`: the Python exceptions the code lets escape, as result values.
- `Decimal`: `str(int)`, `int(str)` and `str.isdigit` on ASCII text.
- `Strings`: Python's string `<`, and `split`/`join` on one separator.
- `Paths`: POSIX `isabs`, `join` and `basename`.
- `Sorting`: Python's stable `sorted` over the key order of the store's
  B-tree.

The store's classes are Dafny classes whose methods change fields, with
`modifies` frames. The record store's methods state the whole new state,
live and committed. Every operation on a container is the open-container
step, shown to keep the connection (`ConnectionKept`) and to install the
container only if it is missing (`ContainerReady`), followed by a change
stated as a map update.

Clock readings, local-calendar conversions, the user's answers to prompts,
the text left in the editor and the viewer's log file are parameters of
the operations that use them.

## Model

| member | source | states |
|---|---|---|
| RecordStore.Filtered | lib/recorder.py:64-69 | the pairs yielded are exactly those the filter accepts, each with its stored value |
| RecordStore.ListIsWholeContainer | lib/recorder.py:71-72 | filtering with the always-true filter gives back the whole container |
| RecordStore.Recorder.constructor | lib/recorder.py:11-17 | no connection yet; the container name is 'main' unless a non-empty name is given |
| RecordStore.Recorder.OpenDb | lib/recorder.py:19-29 | a connection is opened only when there is none, else reused; the container addressed is the per-call name if given, else the recorder's own; an existing container is untouched, a missing one installed empty and committed |
| RecordStore.Recorder.GetContainer | lib/recorder.py:31-39 | existing data is never replaced; only a missing container is created, and only then is there a commit |
| RecordStore.Recorder.CloseDb | lib/recorder.py:41-44 | afterwards there is no connection, and nothing else changes, so closing twice is harmless |
| RecordStore.Recorder.Persist | lib/recorder.py:46-49 | the committed state becomes the live state |
| RecordStore.Recorder.Save | lib/recorder.py:51-54 | the addressed container maps the key to the record, every other key and container is unchanged, and the result is committed |
| RecordStore.Recorder.Put | lib/recorder.py:53-54 | on an open container: the one key is updated and the state committed |
| RecordStore.Recorder.Add | lib/recorder.py:56-57 | the same new state as a save to the recorder's own container |
| RecordStore.Recorder.Delete | lib/recorder.py:59-62 | only the key is removed and the result committed; a missing key is KeyError, with nothing committed beyond a newly created container |
| RecordStore.Recorder.Search | lib/recorder.py:64-69 | yields the filtered container, and changes no data |
| RecordStore.Recorder.List | lib/recorder.py:71-72 | yields the whole container |
| Logger.MakeLog | lib/logger.py:45-59 | every field as given; omitted end page and completion flag make a temporary entry |
| Logger.SplitDuration | lib/logger.py:14-17 | h*3600 + m*60 + s is the duration, with 0 <= m, s < 60 |
| Logger.SplitDurationUnique | lib/logger.py:14-17 | the split is the only one with minutes and seconds below 60 |
| Logger.DetailOf | lib/logger.py:25-26 | the minutes are the duration rounded down to whole minutes; the pages are end page minus start page |
| Logger.KeysWhere | lib/logger.py:63-64 | exactly the keys of entries of the given kind, sorted by start time |
| Logger.Fetch | lib/logger.py:61-65 | exactly the entries of the given kind (temporary or complete), in ascending start time |
| Logger.FetchedInOrder | lib/logger.py:130-131 | entries taken along keys sorted by start time have ascending start times |
| Logger.LatestCompleteUnique | lib/logger.py:124-126 | there is at most one latest complete entry |
| Logger.LatestCompleteKey | lib/logger.py:124-126 | None exactly when nothing is complete; otherwise the key of the latest complete entry |
| Logger.LastCompleteOf | lib/logger.py:120-126 | None exactly when nothing is complete; otherwise the latest complete entry |
| Logger.StartPageOf | lib/logger.py:178-183 | page 1 when nothing is complete; otherwise the end page of the latest complete entry |
| Logger.ConsistentStartPage | lib/logger.py:178-183 | when every complete entry has an end page, a start page is always found |
| Logger.StartPageAfterNewestSession | lib/logger.py:178-183 | a complete session newer than all others decides the next start page |
| Logger.CompleteOnly | lib/logger.py:156-163 | exactly the complete entries remain, each unchanged |
| Logger.CompleteKeysKept | lib/logger.py:156-163 | after clearing, the complete keys are listed in the same order and no temporary key is left |
| Logger.ClearingKeepsCompleteListing | lib/logger.py:156-163 | after clearing, nothing temporary is fetched and the complete listing is unchanged |
| Logger.DellastKey | lib/logger.py:167-169 | None exactly when nothing is complete; otherwise the complete key greatest in string order |
| Logger.DellastDeletesLatest | lib/logger.py:169 | while all keys are time stamps of one width, the string-greatest key is the latest complete entry |
| Logger.DellastStringOrderQuirk | lib/logger.py:169 | with keys "999" and "1000", dellast picks the earlier session "999" while the latest is "1000" |
| Logger.DayTotals | lib/logger.py:141-152 | there is a total for exactly the days on which a session started |
| Logger.DaysOfAppend | lib/logger.py:146-152 | one more session adds exactly its own day to the days with sessions |
| Logger.AccumulateStep | lib/logger.py:146-152 | adding a session to its day's totals, or starting that day's totals, keeps the totals right for one more session |
| Logger.Accumulate | lib/logger.py:142-152 | TypeError exactly when a session lacks an end page; otherwise one total per day with a session, holding the sum of its minutes and of its pages |
| Logger.NothingOnOtherDays | lib/logger.py:146-152 | a day without sessions totals zero minutes and zero pages |
| Logger.TwoSessionsOneDay | lib/logger.py:140-152 | sessions of 30 and 45 minutes, 10 and 5 pages, on one day sum to 75 minutes and 15 pages |
| Logger.Report | lib/logger.py:153-154 | each day appears exactly once with its totals, in ascending string order |
| Logger.ReportRows | lib/logger.py:153-154 | rows in the order of the sorted days list every day once, ascending |
| Logger.Logger.constructor | lib/logger.py:32 | the logger works on the given record store |
| Logger.Logger.FetchTmpLogs | lib/logger.py:61-65 | the temporary entries by start time; only the container may be created |
| Logger.Logger.FetchComplete | lib/logger.py:128-132 | the complete entries by start time; only the container may be created |
| Logger.Logger.LastCompleteLog | lib/logger.py:120-126 | the latest complete entry of the log as it was, or None |
| Logger.Logger.CalStartPage | lib/logger.py:178-183 | the next start page computed from the log as it was |
| Logger.Logger.ListSum | lib/logger.py:140-154 | TypeError exactly when a complete entry lacks an end page; otherwise the per-day report of the complete entries |
| Logger.Logger.ClearTmpLog | lib/logger.py:156-163 | the log container becomes its complete entries, the rest of the database is unchanged, and the result is committed |
| Logger.Logger.DropTemporary | lib/logger.py:159-163 | the deletion loop over an open container leaves exactly its complete entries, then commits |
| Logger.Logger.Dellast | lib/logger.py:165-176 | with a complete entry and a 'y'/'Y' answer, only the string-greatest complete key is removed and committed; otherwise no data changes |
| Sync.SyncFiles | lib/sync.py:15 | three file names, one per data file |
| Sync.SyncFilesAreStoredNames | lib/sync.py:15 | for paths joined onto the base directory, the files are the stored names themselves |
| Sync.Confirm | lib/sync.py:10-24 | goes on exactly when the destination is a directory and every file missing from it was answered 'y' or 'Y' |
| Sync.Transfers | lib/sync.py:41 | the keys copied are exactly those in the source and not in the destination |
| Sync.Synced | lib/sync.py:41-46 | the keys become the union; destination records keep their values, and the others come verbatim from the source |
| Sync.SyncedIsUnion | lib/sync.py:41-46 | the result is the map union in which the destination wins |
| Sync.SyncTwice | lib/sync.py:41-47 | a second run right after transfers nothing and changes nothing |
| Sync.CopyKeys | lib/sync.py:43-46 | the copy loop turns the destination container into the synced container |
| Sync.SyncContainer | lib/sync.py:37-48 | the destination's default container becomes the synced one and is committed; the count is the number of keys transferred; the source's data are only read |
| Sync.CopyMissing | lib/sync.py:39-47 | the destination side: its default container becomes the synced one, the count is the number of transfers, and the result is committed |
| Sync.CopyAndCommit | lib/sync.py:41-47 | on an open container: the synced container, the count of transfers, then the commit |
| Sync.Opened | lib/sync.py:37-38 | opening adds the default container if it is missing and keeps every existing one |
| Sync.OpenedExisting | lib/sync.py:37-38 | opening a database that has its default container changes nothing |
| Sync.SyncStep | lib/sync.py:35-47 | after one file: no other path changes; the source's records are unchanged; the destination's default container is the synced one |
| Sync.SyncFile | lib/sync.py:35-48 | one file with fresh recorders gives exactly that step and its transfer count |
| Sync.SyncCounts | lib/sync.py:42-48 | one count per file |
| Sync.SyncAllFiles | lib/sync.py:29-48 | the disk and the counts after handling the files in order |
| Sync.Synchronize | lib/sync.py:9-27 | if the checks pass, all files are synchronised and the printed counts are the records transferred per file (SyncCounts); otherwise nothing at all is transferred |
| Reader.RemoveFirst | lib/reader.py:250 | without the word, the list is unchanged; with it, the list is one shorter |
| Reader.RemoveFirstTakesOne | lib/reader.py:248-250 | exactly one occurrence is taken out and every other argument is kept |
| Reader.RemoveFirstAt | lib/reader.py:250 | it is the first occurrence that goes; the rest keep their order |
| Reader.ReadOptions | lib/reader.py:244-252 | logging is on exactly when no "nolog" is given; the start page is never negative |
| Reader.ReadPageRoundTrip | lib/reader.py:244-252 | a page written in decimal is read back, with or without "nolog" before or after it |
| Reader.NonNumericPageIgnored | lib/reader.py:251-252 | a first argument that is not all digits leaves the start page 0 |
| Reader.Dispatch | lib/reader.py:378-392 | IndexError exactly without a sub-command; help exactly for an unknown one; read, plan and sync get the arguments after it |
| Reader.DispatchFindsName | lib/reader.py:378-391 | the i-th sub-command name reaches the i-th action |
| Reader.DispatchDistinguishesNames | lib/reader.py:378-391 | different sub-command names reach different actions |
| Reader.PlanFrom | lib/reader.py:306-317 | for every input on which the generator stops (Stops), the plan starts on the given day at the given page, and its last line ends at the end page |
| Reader.ProducerRunsForever | lib/reader.py:308-316 | with fewer than one page a day and a first chunk within the book, the generator yields and is in the same situation again, so the inputs Stops excludes are exactly those it never finishes |
| Reader.NoDailyPagesOneLine | lib/reader.py:309-315 | with fewer than one page a day and a first chunk already past the end page, the plan is one line from the start page back to the end page |
| Reader.ProducerStep | lib/reader.py:309-317 | a full chunk leaves the rest of the plan to the next day, from the next page |
| Reader.ProducerLastStep | lib/reader.py:310-315 | the chunk that passes the end page, cut at it, is the last line |
| Reader.ChunkedCons | lib/reader.py:309-317 | a full chunk before a chunked plan starting on the next page, one day later, is chunked |
| Reader.PlanChunks | lib/reader.py:309-317 | line i is on day i after the start; no line exceeds a day's pages; every line but the last is a full chunk within the book, and the next line starts on the following page |
| Reader.PlanLength | lib/reader.py:308-317 | the number of lines is the remaining pages divided by the pages per day, plus one |
| Reader.PlanExactFitExtraLine | lib/reader.py:308-316 | when the pages divide evenly into days, an extra last line runs from the page after the end back to the end page |
| Reader.PlanArgs | lib/reader.py:299-305 | more than four arguments is TypeError; absent or empty arguments take the start page from the log and the end page and daily pages from the settings; errors are TypeError or ValueError |
| Reader.PlanExplicitArgs | lib/reader.py:299-305 | explicit date and pages are used as given |
| Reader.TodayKeys | lib/reader.py:345-349 | ValueError exactly when some key is not an integer; otherwise exactly the complete entries whose key lies in the day window, both ends included |
| Reader.SessionCountsToday | lib/reader.py:348-349 | a session saved under its start time counts exactly when it is complete and starts within the window |
| Reader.MidnightCountsTwice | lib/reader.py:346-348 | a session saved at the next day's first second counts for both days |
| Reader.PagesIn | lib/reader.py:356 | no total exactly when a counted session lacks an end page |
| Reader.StatsOf | lib/reader.py:358-367 | TypeError without a start page or an end page; otherwise the daily target ends a day's pages after its start, its start plus the pages read is the next start page, and the day is done exactly when the pages read reach the daily pages |
| Reader.TodayOf | lib/reader.py:341-367 | fails only with ValueError or TypeError |
| Reader.TodaySpent | lib/reader.py:351-367 | the time shown, in hours, minutes and seconds, is the total of the sessions counted |
| Reader.NothingReadToday | lib/reader.py:358-367 | with nothing read today, the daily target starts at the next start page, is done only if no pages are due, and no time is spent |
| Reader.App.constructor | lib/reader.py:218-221 | the application holds the given logger and settings |
| Reader.App.ReadArgs | lib/reader.py:244-252 | the argument handling gives exactly the start page and logging flag of ReadOptions |
| Reader.App.Producer | lib/reader.py:306-317 | the generator loop yields exactly the plan PlanFrom describes |
| Reader.App.Plan | lib/reader.py:295-319 | errors in the arguments propagate; a missing start page is TypeError; otherwise the plan for the settings; the log is opened exactly when the start page is left to it |
| Reader.App.PlanWith | lib/reader.py:299-319 | the plan, or its error, for a start page already read from the log |
| Reader.App.Tally | lib/reader.py:351-356 | the accumulation loop gives the seconds spent and the pages read, or TypeError at a session without an end page |
| Reader.App.Today | lib/reader.py:341-370 | today's statistics of the log as it was; only the log container may be created |
| Reader.App.Stats | lib/reader.py:358-367 | the figures StatsOf describes |
| Reader.PagesMissing | lib/reader.py:356 | a session without an end page makes the whole tally fail |
| Settings.FixupBookPath | lib/reader.py:137-145 | an absolute name is kept; the result ends with the name and is absolute under an absolute base directory |
| Settings.FixupIdempotent | lib/reader.py:137-145 | under an absolute base directory, fixing up twice is fixing up once |
| Paths.Basename | lib/sync.py:15 | the longest suffix without a '/' |
| Paths.BasenameOfJoin | lib/sync.py:15 | the base name of a plain name joined onto a directory is that name |
| Paths.JoinKeepsName | lib/reader.py:144 | a joined path ends with the name joined on |
| Paths.JoinOntoAbsolute | lib/reader.py:144 | a name joined onto an absolute directory gives an absolute path |
| Decimal.ParseShowsInverse | lib/reader.py:348 | a key written as str(n) is read back by int() as n |
| Decimal.UnderscoreIgnored | lib/reader.py:300-301 | int() reads digits with a single underscore between two of them as the digits alone, and accepts them |
| Decimal.StrLtIsNumericLt | lib/logger.py:169 | for digit strings of one length, string order is numeric order |
| Strings.Split | lib/viewer.py:65-67 | the parts contain no separator and joining them with it gives back the line |
| Strings.CutAtLastSeparator | lib/viewer.py:65-67 | the line is everything but the last field, the separator, and the last field, which contains no separator |
| Strings.CutIsUnique | lib/viewer.py:65-67 | a line made of a head, the separator and a tail without separators splits into exactly that head and tail |
| Sorting.SortKeys | lib/logger.py:64 | a sorted sequence holding each key once |
| Sorting.SortedUnique | lib/logger.py:64 | there is only one sorted sequence of a key set, so the sort is determined |
| Viewer.EntryFor | lib/viewer.py:34-41 | the logged start page plus the page offset is the viewer page; the entry is complete exactly when an end page other than 0 was found |
| Viewer.SessionRecordsLabel | lib/viewer.py:34-42 | opening at a label page records that label page, under a key that reads back as the start time |
| Viewer.RecordingKeepsConsistent | lib/viewer.py:34-42 | recording a session keeps every complete entry with an end page |
| Viewer.NextSessionOpensAtEndPage | lib/viewer.py:34-42 | a session that ends at a page fixes where the next session opens |
| Viewer.LineMatchesIff | lib/viewer.py:65-68 | a line names the book exactly when it is the path, a space and a tail without spaces, so paths with spaces still match |
| Viewer.FirstMatch | lib/viewer.py:64-70 | the index of the first line naming the book, or None when no line does |
| Viewer.PageOf | lib/viewer.py:66-69 | the last field as a number, minus the page offset, plus one; ValueError when it is not a number |
| Viewer.FirstMatchIs | lib/viewer.py:64-70 | the first line naming the book is the one found |
| Viewer.LaterLinesIgnored | lib/viewer.py:64-70 | lines after the first match never change the result |
| Viewer.EndPageReadBack | lib/viewer.py:64-70 | the page the viewer wrote for the book is read back as its label page |
| Viewer.GetEndPage | lib/viewer.py:54-74 | no log gives None; otherwise the page of the first line naming the book, None without one, ValueError for a malformed page |
| Viewer.Viewer.constructor | lib/viewer.py:14-22 | the viewer page is the requested label page, or the log's next start page, plus the page offset; the log is read only without a requested page |
| Viewer.Viewer.Run | lib/viewer.py:44-52 | records the clock readings and the end page found, or fails with the lookup's error |
| Viewer.Viewer.Log | lib/viewer.py:29-42 | with logging off, nothing changes; otherwise the session's entry is saved under the decimal text of its start time and committed |
| Viewer.Viewer.View | lib/viewer.py:25-27 | the session is recorded exactly when logging is on and the end-page lookup did not fail |
| Noter.StandardMakers | lib/noter.py:12-18 | one maker per note field, in order, with the book name fixed |
| Noter.Produce | lib/noter.py:70-71 | the value comes from the maker's source: a fixed text, the answer to its prompt, or the edited text |
| Noter.SetField | lib/noter.py:71 | the named field takes the value; other names change nothing |
| Noter.StandardNote | lib/noter.py:68-71 | the standard makers build the note of the book name, the two answers and the edited text |
| Noter.NoteOrder | lib/noter.py:24 | ValueError exactly when some key is not an integer; otherwise every key once, in ascending integer order |
| Noter.SortedByValue | lib/noter.py:24 | keys sorted by their integer values are in ascending numeric order |
| Noter.NotesByCreationTime | lib/noter.py:43 | notes saved under their creation times are listed oldest first |
| Noter.CreationTimesApart | lib/noter.py:24 | of two time-stamp keys in sort order, the earlier one has the smaller time |
| Noter.Preview | lib/noter.py:27 | the formatted time, a newline, then at most the first 80 characters of the content |
| Noter.Menu | lib/noter.py:25-28 | one preview per note, in note order |
| Noter.Edited | lib/noter.py:34-38 | the chapter defaults to the old one, an empty subject keeps the old one, the content is the edited text, the book is untouched |
| Noter.PickedKey | lib/noter.py:29-32 | ValueError for an unorderable key; TypeError when nothing is picked; IndexError outside -n..n-1; otherwise the key at the picked position, a negative pick counting from the end as Python's indexing does |
| Noter.LastPickIsNewest | lib/noter.py:31 | with integer keys, the pick -1 addresses the note with the largest key, the latest creation time |
| Noter.EditDefaultsKeepNote | lib/noter.py:35-37 | accepting every default changes nothing but the content |
| Noter.EditChangesPickedNote | lib/noter.py:20-39 | edit fails exactly when the pick does, with its error; otherwise only the picked note changes, by the answers, and the key set is kept |
| Noter.EditKeepsOtherNotes | lib/noter.py:31-39 | saving under the picked key keeps the key set and every other note |
| Noter.Noter.constructor | lib/noter.py:8-10 | a record store on the default container, for the given book |
| Noter.Noter.MakeMakers | lib/noter.py:12-18 | the makers are the standard ones |
| Noter.Noter.Fill | lib/noter.py:69-71 | the setattr loop builds the note the makers describe |
| Noter.Noter.Add | lib/noter.py:64-72 | the standard note is saved under the decimal text of the current time and committed |
| Noter.Noter.List | lib/noter.py:41-59 | the menu in note order; the note at the picked key (a negative pick counts from the end), none when nothing is picked, IndexError outside the menu; no data changes |
| Noter.Noter.Listing | lib/noter.py:43-54 | the menu and the pick of list, for given notes |
| Noter.Noter.Edit | lib/noter.py:20-39 | shows the menu; on success the picked note, changed by the answers, is saved back under its key and committed; on failure the pick's error |
| Noter.Noter.EditPick | lib/noter.py:24-38 | the menu, the picked key and the note as the answers change it |
| Noter.Noter.Delete | lib/noter.py:61-62 | always fails with AssertionError |

## Left out

- The object database itself (ZODB, its transactions, B-trees and files) is not modelled: a database is a map of containers plus a committed snapshot.
- The interactive prompts and menus are not modelled; their answers are parameters. This covers `readstr`, `readint`, `printAndPick` and the `ask_*` questions of the logger.
- Time functions are parameters: the clock (`time.time`), `isotime`, and the local-calendar conversions (`localtime`, `strftime`, `mktime`, `strptime`). Examples are the `dayOf` of `list_sum`, the `dateSecond` of `plan` and the `firstSecond` of `today`.
- Process and OS glue is not modelled: `fork`, `setsid`, `os.system` running the viewer and the editor, temporary files, `realpath` and `os.path.exists`. The viewer log is given as lines, or None when it is missing.
- Printed output is not modelled: formatting, the help text, and the messages of `sync` and `list`. The report and the statistics are returned as values instead.
- The settings wizard is not modelled (`Config.__init__`, `init`, `update`, `config`, `getBookFileName`). The settings are a datatype holding already-loaded values.
- `Recorder.menu` is not modelled: it is a dispatch over interactive actions.
- lib/errator.py is not part of this model; it is only a list of prompts and fields.
- The `App` wrappers `log`, `list_log`, `clear_log`, `note`, `errata`, `sync` and `dellast` are not modelled separately. Each only calls an operation that is modelled, or prompts for its arguments.
- `str.isdigit` and `int()` are modelled on ASCII digits, the ASCII white space `str.strip` removes, and single underscores between digits. Unicode digits and Unicode white space are left out.
- A `plan` date or start time is an integer number of seconds, while Python uses a float for `time.time()`.
- Reader.App.Plan: requires, whenever a start page is known, that the generator stops: at least one page a day, or a first chunk already past the end page. The excluded inputs are exactly those on which the source's generator never finishes (Reader.ProducerRunsForever).
- Reader.App.Today: the second `opendb` inside `cal_start_page` is not stated separately. It reuses the connection and container already opened, so the start page is computed from the same container.
- Reader.App.Producer: its last step does not advance the page and the day, which the source does after yielding. Those values are never read again.
- Viewer.Viewer.constructor: requires, only when no page is requested, that the latest complete entry has an end page (or that nothing is complete). Otherwise the source's addition of `None` and the page offset raises TypeError. Every writer of the log keeps this (Logger.ConsistentStartPage, Viewer.RecordingKeepsConsistent).
- Viewer.Viewer.View: the `__init__` that calls `__view` is split into the constructor and this method.
- Viewer.GetEndPage: when no line names the book, the source reaches `sys.exc_info()` at lib/viewer.py:73 without importing `sys`, which raises NameError. The model returns the None the surrounding code evidently intends.
- Noter.SetField: drops a field name or value kind a note has no slot for. The source's `Record` would take any attribute, but only the four standard makers exist.
- Noter.Noter.Add: the time is the parameter `now`. lib/noter.py:72 calls `time.time()` without importing `time`, which would raise NameError.
- Logger.Logger.constructor: a `Logger` is modelled as holding a record store rather than inheriting from `Recorder`. The record store's operations are reached through `store`.
- Logger.Logger.Dellast: the confirmation prompt prints the entry's `detail()`, which raises TypeError for a complete entry without an end page. That failure is not modelled.
- Logger.Logger.ClearTmpLog: the source deletes from the container while iterating over its items, which a B-tree may refuse. The model states the intended end state: exactly the complete entries.
- Sync.SyncFiles: does not state that the names are free of '/'. That holds only for settings built by `load` (see Sync.SyncFilesAreStoredNames).
- Sync.Synchronize: requires that no file is synchronised onto itself. Opening one database file twice would fail on the file lock.
- Sync.SyncAllFiles: two data files with the same name make the source open one destination database a second time while the first recorder is still open, which likely fails on the file lock. The model copies into it twice in sequence instead.
- Sync.Synchronize: a destination that is not a directory ends the checks with nothing synchronised. The source then reaches the undefined name `stderr` at lib/sync.py:11 and raises NameError, and nothing is synchronised either way.
- RecordStore.Filtered: the result is a map, so the ascending key order in which the generator yields is not kept. No modelled code depends on that order: the only modelled caller, `list_log` at lib/reader.py:262-265, drops the generator unread, and the logger's fetches read the container directly and sort.
- RecordStore.Recorder.OpenDb: the `raise` of a string at lib/recorder.py:28 is not modelled. The container name is always a string, so that branch cannot be reached.
