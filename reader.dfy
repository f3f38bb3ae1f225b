/** The command-line application (`App` in lib/reader.py): the parsing of
    the `read` arguments, the dispatch on the sub-command, the reading
    plan and today's statistics. */
module Reader {
  import opened Common
  import opened Decimal
  import opened Sorting
  import opened RecordStore
  import opened Settings
  import opened Logger

  // ---------------------------------------------------------------- read

  /** `list.remove(x)` where `x in list` has been checked: the first
      occurrence of `x` is taken out and the rest keep their order. */
  function RemoveFirst(s: seq<string>, x: string): (r: seq<string>)
    ensures x !in s ==> r == s
    ensures x in s ==> |r| == |s| - 1
  {
    if |s| == 0 then []
    else if s[0] == x then s[1..]
    else
      assert s == [s[0]] + s[1..];
      [s[0]] + RemoveFirst(s[1..], x)
  }

  /** Removing the first "nolog" takes away exactly one of them and
      keeps every other argument. */
  lemma {:induction false} RemoveFirstTakesOne(s: seq<string>, x: string)
    requires x in s
    ensures multiset(RemoveFirst(s, x)) + multiset{x} == multiset(s)
  {
    assert s == [s[0]] + s[1..];
    if s[0] != x {
      RemoveFirstTakesOne(s[1..], x);
    }
  }

  /** Only the first "nolog" goes; what precedes it is untouched. */
  lemma {:induction false} RemoveFirstAt(s: seq<string>, x: string, i: nat)
    requires i < |s| && s[i] == x && x !in s[..i]
    ensures RemoveFirst(s, x) == s[..i] + s[i + 1..]
    decreases i
  {
    if i > 0 {
      assert s[1..][..i - 1] == s[..i][1..];
      RemoveFirstAt(s[1..], x, i - 1);
      assert s[..i] == [s[0]] + s[1..][..i - 1];
    }
  }

  /** What `read [page] [nolog]` takes from its arguments: the first
      "nolog" turns logging off and is removed; the page is the first
      remaining argument if it consists of digits, 0 otherwise (0 means
      "continue where the log says"). */
  function ReadOptions(args: seq<string>): (r: (int, bool))
    ensures r.1 <==> "nolog" !in args
    ensures r.0 >= 0
  {
    var rest := RemoveFirst(args, "nolog");
    (if |rest| > 0 && IsDigits(rest[0]) then DigitsValue(rest[0]) else 0, "nolog" !in args)
  }

  /** A page number written as `str(n)` is read back as `n`, with or
      without a "nolog" on either side of it. */
  lemma {:induction false} ReadPageRoundTrip(n: nat)
    ensures ReadOptions([NatToString(n)]) == (n, true)
    ensures ReadOptions([NatToString(n), "nolog"]) == (n, false)
    ensures ReadOptions(["nolog", NatToString(n)]) == (n, false)
  {
    var s := NatToString(n);
    ParseShowsInverse(n);
    assert IntToString(n) == s;
    assert IsDigits(s);
    assert s != "nolog" by {
      assert IsDigit(s[0]);
    }
    assert Strip(s) == s by {
      StripUnchanged(s);
    }
    assert ParseInt(s) == Some(DigitsValue(s));
    assert RemoveFirst([s], "nolog") == [s];
    assert [s, "nolog"][1..] == ["nolog"];
    assert RemoveFirst([s, "nolog"], "nolog") == [s];
    assert RemoveFirst(["nolog", s], "nolog") == [s];
  }

  /** Anything but a run of digits first opens at the logged page. */
  lemma NonNumericPageIgnored(word: string, args: seq<string>)
    requires word != "nolog" && !IsDigits(word)
    ensures ReadOptions([word] + args).0 == 0
  {
    assert ([word] + args)[0] == word && ([word] + args)[1..] == args;
  }

  // ------------------------------------------------------------ dispatch

  /** The action `run` picks. Those that take arguments get `args[2:]`. */
  datatype Command =
    | Read(args: seq<string>) | Log | ClearLog | ListLog | ListSum | Note | Today | Dellast
    | Plan(args: seq<string>) | Errata | Sync(args: seq<string>) | Configure | Help

  const CommandNames := ["read", "log", "cl", "ll", "days", "note", "today", "dellast", "plan", "errata", "sync", "config"]

  /** `run(args)` with `args` the whole command line: the sub-command is
      `args[1]` (IndexError without one); an unknown one gets the help
      text. */
  function Dispatch(args: seq<string>): (r: Result<Command>)
    ensures r.Err? <==> |args| < 2
    ensures r.Err? ==> r.error == IndexError
    ensures r.Ok? ==> (r.value == Help <==> args[1] !in CommandNames)
    ensures r.Ok? && (r.value.Read? || r.value.Plan? || r.value.Sync?) ==> r.value.args == args[2..]
  {
    if |args| < 2 then Err(IndexError)
    else
      var rest := args[2..];
      Ok(match args[1]
         case "read" => Read(rest)
         case "log" => Log
         case "cl" => ClearLog
         case "ll" => ListLog
         case "days" => ListSum
         case "note" => Note
         case "today" => Today
         case "dellast" => Dellast
         case "plan" => Plan(rest)
         case "errata" => Errata
         case "sync" => Sync(rest)
         case "config" => Configure
         case _ => Help)
  }

  /** The position of a command's name in `CommandNames`; the help text
      comes after them all. */
  function Tag(c: Command): nat
  {
    match c
    case Read(_) => 0
    case Log => 1
    case ClearLog => 2
    case ListLog => 3
    case ListSum => 4
    case Note => 5
    case Today => 6
    case Dellast => 7
    case Plan(_) => 8
    case Errata => 9
    case Sync(_) => 10
    case Configure => 11
    case Help => 12
  }

  /** The i-th sub-command name reaches the i-th action. */
  lemma DispatchFindsName(prog: string, i: int)
    requires 0 <= i < |CommandNames|
    ensures Dispatch([prog, CommandNames[i]]).Ok?
    ensures Tag(Dispatch([prog, CommandNames[i]]).value) == i
  {
  }

  /** Every sub-command name reaches its own action. */
  lemma DispatchDistinguishesNames(prog: string, i: int, j: int)
    requires 0 <= i < j < |CommandNames|
    ensures Dispatch([prog, CommandNames[i]]) != Dispatch([prog, CommandNames[j]])
  {
    DispatchFindsName(prog, i);
    DispatchFindsName(prog, j);
  }

  // ---------------------------------------------------------------- plan

  /** One line of the plan: the day (as the time `second` falling in it)
      and the pages `first`-`last` to read that day. */
  datatype PlanLine = PlanLine(second: int, first: int, last: int)

  /** The `producer` generator stops: it advances by at least a page a
      day, or its very first chunk already passes `endPage`. */
  predicate Stops(first: int, endPage: int, ppd: int)
  {
    ppd >= 1 || first + ppd - 1 > endPage
  }

  /** With fewer than one page a day and a first chunk within the book,
      the generator yields a chunk and is in the same situation again:
      it never stops. */
  lemma ProducerRunsForever(first: int, endPage: int, ppd: int)
    requires !Stops(first, endPage, ppd)
    ensures first + ppd - 1 <= endPage
    ensures !Stops(first + ppd, endPage, ppd)
  {
  }

  /** What the `producer` generator yields: chunks of `ppd` pages from
      `first`, one day apart, until a chunk would pass `endPage`; that
      last chunk is cut at `endPage`. */
  function PlanFrom(second: int, first: int, endPage: int, ppd: int): (lines: seq<PlanLine>)
    requires Stops(first, endPage, ppd)
    ensures |lines| >= 1
    ensures lines[0].second == second && lines[0].first == first
    ensures lines[|lines| - 1].last == endPage
    decreases if first > endPage then 0 else endPage - first + 1
  {
    var last := first + ppd - 1;
    if last > endPage then [PlanLine(second, first, endPage)]
    else [PlanLine(second, first, last)] + PlanFrom(second + 86400, last + 1, endPage, ppd)
  }

  /** The generator's state part-way: the lines yielded so far, then
      those it will yield from `first` on the day of `day`, make the
      plan. */
  predicate Yielding(done: seq<PlanLine>, day: int, first: int, endPage: int, ppd: int, plan: seq<PlanLine>)
    requires Stops(first, endPage, ppd)
  {
    done + PlanFrom(day, first, endPage, ppd) == plan
  }

  /** A step of the generator that yields a full chunk leaves the rest
      of the plan to the next day, from the next page. */
  lemma ProducerStep(done: seq<PlanLine>, day: int, first: int, last: int, endPage: int, ppd: int, plan: seq<PlanLine>)
    requires ppd >= 1 && last == first + ppd - 1 && last <= endPage
    requires Yielding(done, day, first, endPage, ppd, plan)
    ensures Yielding(done + [PlanLine(day, first, last)], day + 86400, last + 1, endPage, ppd, plan)
  {
    var rest := PlanFrom(day + 86400, last + 1, endPage, ppd);
    assert PlanFrom(day, first, endPage, ppd) == [PlanLine(day, first, last)] + rest;
    assert done + ([PlanLine(day, first, last)] + rest) == (done + [PlanLine(day, first, last)]) + rest;
  }

  /** The step that passes the end page yields the last line. */
  lemma ProducerLastStep(done: seq<PlanLine>, day: int, first: int, endPage: int, ppd: int, plan: seq<PlanLine>)
    requires first + ppd - 1 > endPage
    requires Yielding(done, day, first, endPage, ppd, plan)
    ensures done + [PlanLine(day, first, endPage)] == plan
  {
  }

  /** Line `i` of a plan that starts on the day of `second`: on the i-th
      day after it, no longer than a day's chunk, and, unless it is the
      last, a full chunk ending within the book, followed by the line
      that starts on the next page. */
  predicate DayChunk(lines: seq<PlanLine>, i: int, second: int, endPage: int, ppd: int)
    requires 0 <= i < |lines|
  {
    && lines[i].second == second + 86400 * i
    && lines[i].last - lines[i].first + 1 <= ppd
    && (i < |lines| - 1 ==>
          lines[i].last - lines[i].first + 1 == ppd && lines[i].last <= endPage
          && lines[i + 1].first == lines[i].last + 1)
  }

  /** Every line but the last is a full day's chunk ending within the
      book; each line starts where the previous one stopped, one day
      later; no line is longer than a day's chunk. */
  predicate Chunked(lines: seq<PlanLine>, second: int, endPage: int, ppd: int)
  {
    forall i :: 0 <= i < |lines| ==> DayChunk(lines, i, second, endPage, ppd)
  }

  /** A full chunk ending within the book, followed by a chunked plan
      that starts on the next page one day later, is chunked. */
  lemma ChunkedCons(x: PlanLine, tail: seq<PlanLine>, second: int, endPage: int, ppd: int)
    requires x.second == second && x.last - x.first + 1 == ppd && x.last <= endPage
    requires |tail| >= 1 && tail[0].first == x.last + 1
    requires Chunked(tail, second + 86400, endPage, ppd)
    ensures Chunked([x] + tail, second, endPage, ppd)
  {
    var lines := [x] + tail;
    forall i | 1 <= i < |lines|
      ensures DayChunk(lines, i, second, endPage, ppd)
    {
      assert DayChunk(tail, i - 1, second + 86400, endPage, ppd);
      assert lines[i] == tail[i - 1];
      if i < |lines| - 1 {
        assert lines[i + 1] == tail[i];
      }
    }
    assert DayChunk(lines, 0, second, endPage, ppd);
  }

  lemma {:induction false} PlanChunks(second: int, first: int, endPage: int, ppd: int)
    requires Stops(first, endPage, ppd)
    ensures Chunked(PlanFrom(second, first, endPage, ppd), second, endPage, ppd)
    decreases if first > endPage then 0 else endPage - first + 1
  {
    var last := first + ppd - 1;
    if last <= endPage {
      var tail := PlanFrom(second + 86400, last + 1, endPage, ppd);
      PlanChunks(second + 86400, last + 1, endPage, ppd);
      ChunkedCons(PlanLine(second, first, last), tail, second, endPage, ppd);
      assert PlanFrom(second, first, endPage, ppd) == [PlanLine(second, first, last)] + tail;
    } else {
      assert PlanFrom(second, first, endPage, ppd) == [PlanLine(second, first, endPage)];
    }
  }

  /** How many lines the plan has, counting from a start within the book
      or just past its end. */
  lemma {:induction false} PlanLength(second: int, first: int, endPage: int, ppd: int)
    requires ppd >= 1 && first <= endPage + 1
    ensures |PlanFrom(second, first, endPage, ppd)| == (endPage - first + 1) / ppd + 1
    decreases endPage - first + 1
  {
    var last := first + ppd - 1;
    var n := endPage - first + 1;
    if last <= endPage {
      PlanLength(second + 86400, last + 1, endPage, ppd);
      DivStep(n - ppd, ppd);
    } else {
      DivUnique(n, ppd, 0, n);
    }
  }

  /** The generator stops only once a chunk passes the end page strictly:
      when the remaining pages are a whole number of days, one more line
      is yielded, from the page after the end back to the end page. */
  lemma {:induction false} PlanExactFitExtraLine(second: int, first: int, endPage: int, ppd: int)
    requires ppd >= 1 && first <= endPage && (endPage - first + 1) % ppd == 0
    ensures var lines := PlanFrom(second, first, endPage, ppd);
            lines[|lines| - 1].first == endPage + 1 && lines[|lines| - 1].last == endPage
    decreases endPage - first + 1
  {
    var last := first + ppd - 1;
    var n := endPage - first + 1;
    if n < ppd {
      DivUnique(n, ppd, 0, n);
    }
    if last + 1 <= endPage {
      DivStep(n - ppd, ppd);
      PlanExactFitExtraLine(second + 86400, last + 1, endPage, ppd);
    }
  }

  /** With fewer than one page a day, a plan that stops is the one line
      from the start page back to the end page. */
  lemma NoDailyPagesOneLine(second: int, first: int, endPage: int, ppd: int)
    requires ppd <= 0 && Stops(first, endPage, ppd)
    ensures PlanFrom(second, first, endPage, ppd) == [PlanLine(second, first, endPage)]
    ensures endPage < first
  {
  }

  /** The settings `plan` runs with: the day's time, the start page (if
      one could be had), the end page and the pages per day. */
  datatype PlanSettings = PlanSettings(second: int, first: Option<int>, endPage: int, ppd: int)

  /** `plan(*args[2:])`: at most four positional arguments (a fifth is a
      TypeError); an absent or empty argument takes its default: now, the
      next start page from the log (`calStart`), the configured end page
      and pages per day. A date `dateSecond` cannot read, or a page that
      is not an integer, is a ValueError, checked in argument order. */
  function PlanArgs(args: seq<string>, config: Config, calStart: Option<int>, now: int,
                    dateSecond: string -> Option<int>): (r: Result<PlanSettings>)
    ensures |args| > 4 ==> r == Err(TypeError)
    ensures r.Err? ==> r.error == TypeError || r.error == ValueError
    ensures r.Ok? && (|args| < 2 || args[1] == "") ==> r.value.first == calStart
    ensures r.Ok? && (|args| < 3 || args[2] == "") ==> r.value.endPage == config.endPage
    ensures r.Ok? && (|args| < 4 || args[3] == "") ==> r.value.ppd == config.pagePerDay
  {
    if |args| > 4 then Err(TypeError)
    else
      var day := if |args| > 0 && args[0] != "" then dateSecond(args[0]) else Some(now);
      var first := if |args| > 1 && args[1] != "" then Some(ParseInt(args[1])) else None;
      var end := if |args| > 2 && args[2] != "" then ParseInt(args[2]) else Some(config.endPage);
      var ppd := if |args| > 3 && args[3] != "" then ParseInt(args[3]) else Some(config.pagePerDay);
      if day.None? then Err(ValueError)
      else if first.Some? && first.value.None? then Err(ValueError)
      else if end.None? || ppd.None? then Err(ValueError)
      else Ok(PlanSettings(day.value, if first.Some? then first.value else calStart, end.value, ppd.value))
  }

  /** Explicit arguments are used as given. */
  lemma PlanExplicitArgs(day: string, first: int, endPage: int, ppd: int, config: Config, calStart: Option<int>,
                         now: int, dateSecond: string -> Option<int>)
    requires day != "" && dateSecond(day).Some?
    ensures PlanArgs([day, IntToString(first), IntToString(endPage), IntToString(ppd)], config, calStart, now, dateSecond)
              == Ok(PlanSettings(dateSecond(day).value, Some(first), endPage, ppd))
  {
    ParseShowsInverse(first);
    ParseShowsInverse(endPage);
    ParseShowsInverse(ppd);
    IntToStringNonEmpty(first);
    IntToStringNonEmpty(endPage);
    IntToStringNonEmpty(ppd);
  }

  lemma IntToStringNonEmpty(n: int)
    ensures IntToString(n) != ""
  {
    if n >= 0 {
      assert |NatToString(n)| >= 1;
    }
  }

  /** `plan` stops once it has a start page: see Stops and
      ProducerRunsForever. */
  predicate PlanEnds(settings: Result<PlanSettings>)
  {
    settings.Ok? && settings.value.first.Some? ==>
      Stops(settings.value.first.value, settings.value.endPage, settings.value.ppd)
  }

  // --------------------------------------------------------------- today

  /** The keys `today` takes: those of complete entries whose integer
      value lies between the day's first second and 86400 seconds later,
      both ends included. Every key is read as an integer first, so any
      key that is not one raises ValueError. */
  function TodayKeys(cont: Log, firstSecond: int): (r: Result<set<string>>)
    ensures r.Err? <==> exists k :: k in cont && ParseInt(k).None?
    ensures r.Err? ==> r.error == ValueError
    ensures r.Ok? ==> forall k :: k in r.value <==>
                        k in cont && cont[k].complete && firstSecond <= IntValue(k) <= firstSecond + 86400
  {
    if exists k :: k in cont && ParseInt(k).None? then Err(ValueError)
    else Ok(set k | k in cont && cont[k].complete && firstSecond <= IntValue(k) <= firstSecond + 86400)
  }

  /** A session saved under its start time counts for the day exactly when
      it is complete and starts within the window. */
  lemma SessionCountsToday(cont: Log, firstSecond: int, t: int)
    requires forall k :: k in cont ==> ParseInt(k).Some?
    requires IntToString(t) in cont
    ensures TodayKeys(cont, firstSecond).Ok?
    ensures IntToString(t) in TodayKeys(cont, firstSecond).value <==>
              cont[IntToString(t)].complete && firstSecond <= t <= firstSecond + 86400
  {
    ParseShowsInverse(t);
  }

  /** A session saved at the first second of the next day counts for both
      days. */
  lemma MidnightCountsTwice(cont: Log, firstSecond: int)
    requires forall k :: k in cont ==> ParseInt(k).Some?
    requires IntToString(firstSecond + 86400) in cont && cont[IntToString(firstSecond + 86400)].complete
    ensures IntToString(firstSecond + 86400) in TodayKeys(cont, firstSecond).value
    ensures IntToString(firstSecond + 86400) in TodayKeys(cont, firstSecond + 86400).value
  {
    SessionCountsToday(cont, firstSecond, firstSecond + 86400);
    SessionCountsToday(cont, firstSecond + 86400, firstSecond + 86400);
  }

  /** Seconds spent in the sessions `ks`. */
  function SpentIn(cont: Log, ks: seq<string>): int
    requires forall k :: k in ks ==> k in cont
  {
    if |ks| == 0 then 0
    else
      var e := cont[ks[|ks| - 1]];
      SpentIn(cont, ks[..|ks| - 1]) + (e.endTime - e.startTime)
  }

  /** Pages read in the sessions `ks`; None if one of them has no end page
      (the subtraction raises TypeError). */
  function PagesIn(cont: Log, ks: seq<string>): (r: Option<int>)
    requires forall k :: k in ks ==> k in cont
    ensures r.None? <==> exists i :: 0 <= i < |ks| && cont[ks[i]].endPage.None?
  {
    if |ks| == 0 then Some(0)
    else
      var e := cont[ks[|ks| - 1]];
      var before := PagesIn(cont, ks[..|ks| - 1]);
      if before.None? || e.endPage.None? then None
      else Some(before.value + (e.endPage.value - e.startPage))
  }

  /** What `today` prints: the target range (`Task:`), the pages per day, the pages
      read, whether the target is met, and the time spent. */
  datatype TodayStats = TodayStats(taskStart: int, taskEnd: int, pagePerDay: int, pages: int, done: bool,
                                   spent: Duration)

  /** The statistics of `today` over the sessions `ks`, when the next
      reading starts at `start`: the target is the day's chunk that ends
      the pages read today. */
  function StatsOf(cont: Log, ks: seq<string>, start: Option<int>, ppd: int): (r: Result<TodayStats>)
    requires forall k :: k in ks ==> k in cont
    ensures r.Err? <==> start.None? || PagesIn(cont, ks).None?
    ensures r.Err? ==> r.error == TypeError
    ensures r.Ok? ==> var s := r.value;
              && s.taskEnd == s.taskStart + ppd && s.pagePerDay == ppd
              && (s.done <==> s.pages >= ppd)
              && start == Some(s.taskStart + s.pages)
              && PagesIn(cont, ks) == Some(s.pages)
  {
    var pages := PagesIn(cont, ks);
    if pages.None? || start.None? then Err(TypeError)
    else
      var taskStart := start.value - pages.value;
      Ok(TodayStats(taskStart, taskStart + ppd, ppd, pages.value, pages.value >= ppd,
                    SplitDuration(SpentIn(cont, ks))))
  }

  /** `today` on the log `cont` for the day starting at `firstSecond`:
      the sessions counted in key order, and the start page
      `cal_start_page` computes from the same log. */
  function TodayOf(cont: Log, firstSecond: int, ppd: int): (r: Result<TodayStats>)
    ensures r.Err? ==> r.error == ValueError || r.error == TypeError
  {
    var keys := TodayKeys(cont, firstSecond);
    if keys.Err? then Err(keys.error)
    else StatsOf(cont, SortKeys(keys.value, ByName), StartPageOf(cont), ppd)
  }

  /** The time shown is the total of the sessions counted, split into
      hours, minutes and seconds. */
  lemma TodaySpent(cont: Log, firstSecond: int, ppd: int)
    requires TodayOf(cont, firstSecond, ppd).Ok?
    ensures var d := TodayOf(cont, firstSecond, ppd).value.spent;
            var ks := SortKeys(TodayKeys(cont, firstSecond).value, ByName);
            d.hours * 3600 + d.minutes * 60 + d.seconds == SpentIn(cont, ks)
  {
  }

  /** With no session counted today the target is the day's chunk from the
      next start page, not done unless nothing is due. */
  lemma {:induction false} NothingReadToday(cont: Log, firstSecond: int, ppd: int)
    requires TodayOf(cont, firstSecond, ppd).Ok? && TodayKeys(cont, firstSecond).value == {}
    ensures var s := TodayOf(cont, firstSecond, ppd).value;
            && s.pages == 0 && s.taskStart == StartPageOf(cont).value
            && (s.done <==> ppd <= 0)
            && s.spent == Duration(0, 0, 0)
  {
    var ks := SortKeys(TodayKeys(cont, firstSecond).value, ByName);
    assert |ks| == 0;
  }

  // ----------------------------------------------------------------- App

  class App {
    const logger: Logger
    const config: Config

    constructor (logger: Logger, config: Config)
      ensures this.logger == logger && this.config == config
    {
      this.logger := logger;
      this.config := config;
    }

    /** The argument handling of `read`; the viewer is then started with
        the result in a child process. */
    method ReadArgs(args: seq<string>) returns (startPage: int, takeLog: bool)
      ensures (startPage, takeLog) == ReadOptions(args)
    {
      var rest := args;
      takeLog := true;
      startPage := 0;
      if |rest| > 0 {
        if "nolog" in rest {
          takeLog := false;
          rest := RemoveFirst(rest, "nolog");
        }
        if |rest| > 0 && IsDigits(rest[0]) {
          startPage := DigitsValue(rest[0]);
        }
      }
    }

    /** The `producer` generator, run to the end. */
    static method Producer(second: int, first: int, endPage: int, ppd: int) returns (lines: seq<PlanLine>)
      requires Stops(first, endPage, ppd)
      ensures lines == PlanFrom(second, first, endPage, ppd)
    {
      lines := [];
      var firstOfDay := first;
      var day := second;
      var end := false;
      ghost var plan := PlanFrom(second, first, endPage, ppd);
      assert [] + plan == plan;
      while !end
        invariant !end ==> Stops(firstOfDay, endPage, ppd) && Yielding(lines, day, firstOfDay, endPage, ppd, plan)
        invariant end ==> lines == plan
        decreases if end then 0 else if firstOfDay > endPage then 1 else endPage - firstOfDay + 2
      {
        var lastOfDay := firstOfDay + ppd - 1;
        if lastOfDay > endPage {
          lastOfDay := endPage;
          end := true;
          ProducerLastStep(lines, day, firstOfDay, endPage, ppd, plan);
          lines := lines + [PlanLine(day, firstOfDay, lastOfDay)];
        } else {
          ProducerStep(lines, day, firstOfDay, lastOfDay, endPage, ppd, plan);
          lines := lines + [PlanLine(day, firstOfDay, lastOfDay)];
          firstOfDay := lastOfDay + 1;
          day := day + 86400;
        }
      }
    }

    /** `plan` reads the log for its start page exactly when its
        arguments get that far and leave the start page to the log: at
        most four of them, the date absent, empty or readable, and the
        start page absent or empty. */
    static predicate PlanReadsLog(args: seq<string>, dateSecond: string -> Option<int>)
    {
      |args| <= 4 && (|args| == 0 || args[0] == "" || dateSecond(args[0]).Some?) && (|args| < 2 || args[1] == "")
    }

    /** `plan(*args[2:])`: the settings, then the generator. Without a
        start page (a complete entry without an end page) the generator's
        first addition raises TypeError. The log is read only for a
        default start page, after the date has been read. */
    method Plan(args: seq<string>, now: int, dateSecond: string -> Option<int>) returns (r: Result<seq<PlanLine>>)
      requires PlanEnds(PlanArgs(args, config, StartPageOf(logger.Entries()), now, dateSecond))
      modifies logger.store
      ensures var s := PlanArgs(args, config, StartPageOf(old(logger.Entries())), now, dateSecond);
              && (s.Err? ==> r == Err(s.error))
              && (s.Ok? && s.value.first.None? ==> r == Err(TypeError))
              && (s.Ok? && s.value.first.Some? ==>
                    r == Ok(PlanFrom(s.value.second, s.value.first.value, s.value.endPage, s.value.ppd)))
      ensures PlanReadsLog(args, dateSecond) ==>
                logger.store.ConnectionKept() && logger.store.ContainerReady(logger.store.contName)
      ensures !PlanReadsLog(args, dateSecond) ==> unchanged(logger.store)
    {
      var calStart := StartPageOf(logger.Entries());
      if PlanReadsLog(args, dateSecond) {
        calStart := logger.CalStartPage();
      }
      r := PlanWith(args, config, calStart, now, dateSecond);
    }

    /** `plan` once the start page the log gives is known. */
    static method PlanWith(args: seq<string>, config: Config, calStart: Option<int>, now: int,
                           dateSecond: string -> Option<int>)
      returns (r: Result<seq<PlanLine>>)
      requires PlanEnds(PlanArgs(args, config, calStart, now, dateSecond))
      ensures var s := PlanArgs(args, config, calStart, now, dateSecond);
              && (s.Err? ==> r == Err(s.error))
              && (s.Ok? && s.value.first.None? ==> r == Err(TypeError))
              && (s.Ok? && s.value.first.Some? ==>
                    r == Ok(PlanFrom(s.value.second, s.value.first.value, s.value.endPage, s.value.ppd)))
    {
      var s := PlanArgs(args, config, calStart, now, dateSecond);
      if s.Err? {
        return Err(s.error);
      }
      if s.value.first.None? {
        return Err(TypeError);
      }
      var lines := Producer(s.value.second, s.value.first.value, s.value.endPage, s.value.ppd);
      r := Ok(lines);
    }

    /** The loop of `today` over the keys counted: the seconds spent and
        the pages read, or TypeError at a session without an end page. */
    static method Tally(cont: Log, ks: seq<string>) returns (r: Result<(int, int)>)
      requires forall k :: k in ks ==> k in cont
      ensures var pages := PagesIn(cont, ks);
              if pages.None? then r == Err(TypeError) else r == Ok((SpentIn(cont, ks), pages.value))
    {
      var spent := 0;
      var pages := 0;
      for i := 0 to |ks|
        invariant spent == SpentIn(cont, ks[..i])
        invariant PagesIn(cont, ks[..i]) == Some(pages)
      {
        var e := cont[ks[i]];
        assert ks[..i + 1][..i] == ks[..i];
        if e.endPage.None? {
          assert PagesIn(cont, ks[..i + 1]).None?;
          PagesMissing(cont, ks, i + 1);
          return Err(TypeError);
        }
        spent := spent + (e.endTime - e.startTime);
        pages := pages + (e.endPage.value - e.startPage);
      }
      assert ks[..|ks|] == ks;
      r := Ok((spent, pages));
    }

    /** `today`, for the day whose first second is `firstSecond`. */
    method Today(firstSecond: int) returns (r: Result<TodayStats>)
      modifies logger.store
      ensures logger.store.ConnectionKept() && logger.store.ContainerReady(logger.store.contName)
      ensures r == TodayOf(old(logger.Entries()), firstSecond, config.pagePerDay)
    {
      var t := logger.store.OpenDb(None);
      var cont := logger.store.root[t];
      var keys := TodayKeys(cont, firstSecond);
      if keys.Err? {
        return Err(keys.error);
      }
      var ks := SortKeys(keys.value, ByName);
      // `cal_start_page` reuses the connection and container opened above.
      r := Stats(cont, ks, StartPageOf(cont), config.pagePerDay);
    }

    /** The figures `today` prints for the sessions `ks` of `cont`. */
    static method Stats(cont: Log, ks: seq<string>, start: Option<int>, ppd: int) returns (r: Result<TodayStats>)
      requires forall k :: k in ks ==> k in cont
      ensures r == StatsOf(cont, ks, start, ppd)
    {
      var tally := Tally(cont, ks);
      if tally.Err? {
        return Err(tally.error);
      }
      if start.None? {
        return Err(TypeError);
      }
      var spent, pages := tally.value.0, tally.value.1;
      var taskStart := start.value - pages;
      r := Ok(TodayStats(taskStart, taskStart + ppd, ppd, pages, pages >= ppd, SplitDuration(spent)));
    }
  }

  /** A session without an end page makes every longer run fail too. */
  lemma PagesMissing(cont: Log, ks: seq<string>, n: nat)
    requires forall k :: k in ks ==> k in cont
    requires n <= |ks| && PagesIn(cont, ks[..n]).None?
    ensures PagesIn(cont, ks).None?
  {
    var i :| 0 <= i < n && cont[ks[..n][i]].endPage.None?;
    assert ks[i] == ks[..n][i];
  }
}
