/** A reading session (lib/viewer.py): open the book in the external
    viewer at a page, wait for it to quit, find the page it stopped at in
    the viewer's own log, and record the session in the reading log.

    Page numbers come in two kinds: the viewer's page (the position in the
    file) and the label printed on the page. `page_num_diff` converts the
    one into the other. */
module Viewer {
  import opened Common
  import opened Strings
  import opened Decimal
  import opened RecordStore
  import opened Settings
  import opened Logger

  /** The entry `__log` records: the start page converted back to a label
      page, complete exactly when an end page other than 0 was found. */
  function EntryFor(bookName: string, startTime: int, endTime: int, viewerPage: int, diff: int,
                    endPage: Option<int>): (e: LogEntry)
    ensures e.startPage + diff == viewerPage
    ensures e.complete <==> endPage.Some? && endPage.value != 0
    ensures e.bookName == bookName && e.startTime == startTime && e.endTime == endTime && e.endPage == endPage
  {
    MakeLog(bookName, startTime, endTime, viewerPage - diff, endPage, endPage.Some? && endPage.value != 0)
  }

  /** Opening at label page `labelPage` (viewer page `labelPage + diff`) records
      `labelPage` as the start page, under a key that reads back as the start
      time. */
  lemma SessionRecordsLabel(bookName: string, startTime: int, endTime: int, labelPage: int, diff: int,
                            endPage: Option<int>)
    ensures EntryFor(bookName, startTime, endTime, labelPage + diff, diff, endPage).startPage == labelPage
    ensures ParseInt(IntToString(startTime)) == Some(startTime)
  {
    ParseShowsInverse(startTime);
  }

  /** Recording a session keeps every complete entry with an end page. */
  lemma RecordingKeepsConsistent(cont: Log, key: string, bookName: string, startTime: int, endTime: int,
                                 viewerPage: int, diff: int, endPage: Option<int>)
    requires Consistent(cont)
    ensures Consistent(cont[key := EntryFor(bookName, startTime, endTime, viewerPage, diff, endPage)])
  {
  }

  /** A session with an end page that started after every other complete
      one fixes where the next session opens. */
  lemma NextSessionOpensAtEndPage(cont: Log, bookName: string, startTime: int, endTime: int,
                                  viewerPage: int, diff: int, endPage: int)
    requires endPage != 0
    requires forall k :: k in cont && k != IntToString(startTime) && cont[k].complete ==> cont[k].startTime < startTime
    ensures var e := EntryFor(bookName, startTime, endTime, viewerPage, diff, Some(endPage));
            StartPageOf(cont[IntToString(startTime) := e]) == Some(endPage)
  {
    var e := EntryFor(bookName, startTime, endTime, viewerPage, diff, Some(endPage));
    StartPageAfterNewestSession(cont, IntToString(startTime), e);
  }

  /** A line of the viewer log names `file` when its space-separated
      fields but the last, joined again with spaces, equal it. */
  predicate LineMatches(line: string, file: string)
  {
    AllButLast(line, ' ') == file
  }

  /** Only the last field is split off: a line matches exactly when it is
      the file name, a space, and a tail without spaces, so names with
      spaces in them still match. A line without any space matches only
      the empty name. */
  lemma LineMatchesIff(line: string, file: string)
    ensures LineMatches(line, file) <==>
              || (' ' !in line && file == "")
              || (|file| < |line| && line[..|file|] == file && line[|file|] == ' ' && ' ' !in line[|file| + 1..])
  {
    var n := |file|;
    CutAtLastSeparator(line, ' ');
    if n < |line| && line[..n] == file && line[n] == ' ' && ' ' !in line[n + 1..] {
      assert line == file + [' '] + line[n + 1..];
      CutIsUnique(line, ' ', file, line[n + 1..]);
    }
    if LineMatches(line, file) && ' ' in line {
      assert line == file + [' '] + LastField(line, ' ');
      assert line[n + 1..] == LastField(line, ' ');
    }
  }

  /** The index of the first line naming `file`, if there is one. */
  function FirstMatch(lines: seq<string>, file: string): (r: Option<nat>)
    ensures r.None? ==> forall j :: 0 <= j < |lines| ==> !LineMatches(lines[j], file)
    ensures r.Some? ==> r.value < |lines| && LineMatches(lines[r.value], file)
    ensures r.Some? ==> forall j :: 0 <= j < r.value ==> !LineMatches(lines[j], file)
  {
    if |lines| == 0 then None
    else if LineMatches(lines[0], file) then Some(0)
    else
      var rest := FirstMatch(lines[1..], file);
      if rest.None? then None else Some(rest.value + 1)
  }

  /** The label page of the viewer page recorded at the end of `line`:
      `int(last field) - page_num_diff + 1`, or ValueError if the last
      field is not a number. */
  function PageOf(line: string, diff: int): (r: Result<int>)
    ensures r.Err? <==> ParseInt(LastField(line, ' ')).None?
    ensures r.Err? ==> r.error == ValueError
    ensures r.Ok? ==> r.value + diff - 1 == ParseInt(LastField(line, ' ')).value
  {
    var p := ParseInt(LastField(line, ' '));
    if p.None? then Err(ValueError) else Ok(p.value - diff + 1)
  }

  /** The first matching line is the one `FirstMatch` names. */
  lemma FirstMatchIs(lines: seq<string>, file: string, i: nat)
    requires i < |lines| && LineMatches(lines[i], file)
    requires forall j :: 0 <= j < i ==> !LineMatches(lines[j], file)
    ensures FirstMatch(lines, file) == Some(i)
  {
  }

  /** What `get_end_page` finds in the viewer log (None if there is no
      log file): the page of the first line naming the book, or None. */
  function EndPageOf(viewerLog: Option<seq<string>>, file: string, diff: int): Result<Option<int>>
  {
    if viewerLog.None? then Ok(None)
    else
      var i := FirstMatch(viewerLog.value, file);
      if i.None? then Ok(None)
      else
        var page := PageOf(viewerLog.value[i.value], diff);
        if page.Err? then Err(page.error) else Ok(Some(page.value))
  }

  /** Lines after the first one naming the book are never looked at. */
  lemma LaterLinesIgnored(lines: seq<string>, more: seq<string>, file: string, diff: int)
    requires FirstMatch(lines, file).Some?
    ensures EndPageOf(Some(lines + more), file, diff) == EndPageOf(Some(lines), file, diff)
  {
    var i := FirstMatch(lines, file).value;
    var all := lines + more;
    assert forall j :: 0 <= j <= i ==> all[j] == lines[j];
    FirstMatchIs(all, file, i);
  }

  /** The end page the viewer wrote for the book, as a line
      `<file> <page>\n`, is read back as a label page. */
  lemma EndPageReadBack(lines: seq<string>, file: string, viewerPage: nat, diff: int)
    requires forall j :: 0 <= j < |lines| ==> !LineMatches(lines[j], file)
    ensures EndPageOf(Some(lines + [file + " " + NatToString(viewerPage) + "\n"]), file, diff)
              == Ok(Some(viewerPage - diff + 1))
  {
    var line := file + " " + NatToString(viewerPage) + "\n";
    WrittenLine(file, viewerPage, diff);
    var all := lines + [line];
    assert forall j :: 0 <= j < |lines| ==> all[j] == lines[j];
    assert all[|lines|] == line;
    FirstMatchIs(all, file, |lines|);
  }

  /** The line the viewer writes names the book and carries the page. */
  lemma WrittenLine(file: string, viewerPage: nat, diff: int)
    ensures var line := file + " " + NatToString(viewerPage) + "\n";
            LineMatches(line, file) && PageOf(line, diff) == Ok(viewerPage - diff + 1)
  {
    var tail := NatToString(viewerPage) + "\n";
    var line := file + " " + NatToString(viewerPage) + "\n";
    assert line == file + [' '] + tail;
    assert ' ' !in tail;
    CutIsUnique(line, ' ', file, tail);
    PageLineParses(viewerPage);
  }

  /** The page field the viewer writes, newline included, reads back as
      the page. */
  lemma PageLineParses(viewerPage: nat)
    ensures ParseInt(NatToString(viewerPage) + "\n") == Some(viewerPage)
  {
    var tail := NatToString(viewerPage) + "\n";
    var digits := NatToString(viewerPage);
    assert IsDigit(digits[|digits| - 1]);
    assert Strip(tail) == digits by {
      assert StripLeft(tail) == tail;
      assert tail[..|tail| - 1] == digits;
      StripUnchanged(digits);
    }
    DigitsAreNumeral(digits);
  }

  /** `get_end_page`: scans the viewer log line by line and returns at the
      first line naming the book. */
  method GetEndPage(viewerLog: Option<seq<string>>, file: string, diff: int) returns (r: Result<Option<int>>)
    ensures r == EndPageOf(viewerLog, file, diff)
  {
    if viewerLog.None? {
      return Ok(None);
    }
    var lines := viewerLog.value;
    var i := 0;
    while i < |lines|
      invariant 0 <= i <= |lines|
      invariant forall j :: 0 <= j < i ==> !LineMatches(lines[j], file)
    {
      if AllButLast(lines[i], ' ') == file {
        FirstMatchIs(lines, file, i);
        var page := PageOf(lines[i], diff);
        if page.Err? {
          return Err(page.error);
        }
        return Ok(Some(page.value));
      }
      i := i + 1;
    }
    r := Ok(None);
  }

  class Viewer {
    /** The viewer page the book is opened at. */
    var startPage: int
    const takeLog: bool
    const logger: Logger
    const config: Config
    const book: string
    var startTime: int
    var endTime: int
    var endPage: Option<int>

    /** `__init__` up to the session itself: a requested label page other
        than 0, or else the next start page from the log, converted to a
        viewer page. */
    constructor (logger: Logger, config: Config, startPage: int, takeLog: bool)
      requires startPage == 0 ==> StartPageOf(logger.Entries()).Some?
      modifies logger.store
      ensures this.logger == logger && this.config == config && this.takeLog == takeLog
      ensures book == config.bookPath && endPage == None
      ensures this.startPage - config.pageNumDiff ==
                if startPage != 0 then startPage else StartPageOf(old(logger.Entries())).value
      ensures startPage != 0 ==> unchanged(logger.store)
      ensures startPage == 0 ==> logger.store.ConnectionKept() && logger.store.ContainerReady(logger.store.contName)
    {
      var page := startPage;
      if startPage == 0 {
        var next := logger.CalStartPage();
        page := next.value;
      }
      this.startPage := page + config.pageNumDiff;
      this.takeLog := takeLog;
      this.logger := logger;
      this.config := config;
      this.book := config.bookPath;
      startTime := 0;
      endTime := 0;
      endPage := None;
    }

    /** `run`: the viewer runs from `startTime` to `endTime` (the clock
        readings around it); then the end page is looked up in the viewer
        log. A malformed page number raises ValueError. */
    method Run(startTime: int, endTime: int, viewerLog: Option<seq<string>>, file: string) returns (r: Outcome)
      modifies this
      ensures this.startTime == startTime && this.endTime == endTime && startPage == old(startPage)
      ensures var found := EndPageOf(viewerLog, file, config.pageNumDiff);
              if found.Err? then r == Fail(found.error) && endPage == old(endPage)
              else r == Pass && endPage == found.value
    {
      this.startTime := startTime;
      this.endTime := endTime;
      var found := GetEndPage(viewerLog, file, config.pageNumDiff);
      if found.Err? {
        return Fail(found.error);
      }
      endPage := found.value;
      r := Pass;
    }

    /** `__log`: unless logging is off, the session is saved under the
        decimal text of its start time. */
    method Log()
      modifies logger.store
      ensures !takeLog ==> unchanged(logger.store)
      ensures takeLog ==> logger.store.ConnectionKept()
      ensures takeLog ==>
                logger.store.root == old(logger.store.root)[logger.store.contName :=
                  old(logger.Entries())[IntToString(startTime) :=
                    EntryFor(config.bookName, startTime, endTime, startPage, config.pageNumDiff, endPage)]]
      ensures takeLog ==> logger.store.committed == logger.store.root
    {
      if !takeLog {
        return;
      }
      var e := EntryFor(config.bookName, startTime, endTime, startPage, config.pageNumDiff, endPage);
      logger.store.Save(IntToString(e.startTime), e, None);
    }

    /** `__view`: the session is recorded only when the viewer run found
        no malformed page (a ValueError propagates before `__log`). */
    method View(startTime: int, endTime: int, viewerLog: Option<seq<string>>, file: string) returns (r: Outcome)
      modifies this, logger.store
      ensures var found := EndPageOf(viewerLog, file, config.pageNumDiff);
              && (r.Fail? <==> found.Err?)
              && (found.Ok? && takeLog ==>
                    && logger.store.ConnectionKept()
                    && logger.store.root == old(logger.store.root)[logger.store.contName :=
                         old(logger.Entries())[IntToString(startTime) :=
                           EntryFor(config.bookName, startTime, endTime, old(startPage), config.pageNumDiff, found.value)]]
                    && logger.store.committed == logger.store.root)
              && (found.Err? || !takeLog ==> unchanged(logger.store))
    {
      r := Run(startTime, endTime, viewerLog, file);
      if r.Fail? {
        return;
      }
      Log();
    }
  }
}
