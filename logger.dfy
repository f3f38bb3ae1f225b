/** The reading log (lib/logger.py): a record store of log entries keyed
    by the decimal text of their start time. An entry is temporary while
    its end page is unknown and complete once it is filled in. */
module Logger {
  import opened Common
  import opened Strings
  import opened Decimal
  import opened Sorting
  import opened RecordStore

  datatype LogEntry = LogEntry(
    bookName: string,
    startTime: int,
    endTime: int,
    startPage: int,
    endPage: Option<int>,
    complete: bool)

  /** A log container: key to entry. */
  type Log = map<string, LogEntry>

  /** `make_log`: the arguments are stored as given; a temporary entry is
      made when the end page and the completion flag are omitted. */
  function MakeLog(bookName: string, startTime: int, endTime: int, startPage: int,
                   endPage: Option<int> := None, complete: bool := false): (e: LogEntry)
    ensures e.bookName == bookName && e.startTime == startTime && e.endTime == endTime
    ensures e.startPage == startPage && e.endPage == endPage && e.complete == complete
  {
    LogEntry(bookName, startTime, endTime, startPage, endPage, complete)
  }

  /** A duration as hours, minutes and seconds. */
  datatype Duration = Duration(hours: int, minutes: int, seconds: int)

  /** The `h:m:s` split of a duration in seconds (Python's `//` and `%`,
      which floor, agree with Dafny's for a positive divisor). */
  function SplitDuration(seconds: int): (d: Duration)
    ensures d.hours * 3600 + d.minutes * 60 + d.seconds == seconds
    ensures 0 <= d.minutes < 60 && 0 <= d.seconds < 60
  {
    var rest := seconds % 3600;
    assert seconds == seconds / 3600 * 3600 + rest;
    assert rest == rest / 60 * 60 + rest % 60;
    assert rest % 60 == seconds % 60 by {
      assert seconds == (seconds / 3600 * 60 + rest / 60) * 60 + rest % 60;
    }
    Duration(seconds / 3600, rest / 60, seconds % 60)
  }

  /** The split is the only one with minutes and seconds below 60, so a
      duration read back from its parts is split into the same parts. */
  lemma SplitDurationUnique(d: Duration)
    requires 0 <= d.minutes < 60 && 0 <= d.seconds < 60
    ensures SplitDuration(d.hours * 3600 + d.minutes * 60 + d.seconds) == d
  {
    var total := d.hours * 3600 + d.minutes * 60 + d.seconds;
    var r := d.minutes * 60 + d.seconds;
    assert 0 <= r < 3600;
    assert total == d.hours * 3600 + r;
    assert total / 3600 == d.hours && total % 3600 == r;
    assert r / 60 == d.minutes && r % 60 == d.seconds;
  }

  /** The figures `detail()` prints besides the times. */
  datatype Detail = Detail(minutes: int, pages: int)

  /** `detail()`: whole minutes spent (rounded down) and pages read. */
  function DetailOf(e: LogEntry): (d: Detail)
    requires e.endPage.Some?
    ensures d.minutes * 60 <= e.endTime - e.startTime < d.minutes * 60 + 60
    ensures e.startPage + d.pages == e.endPage.value
  {
    Detail((e.endTime - e.startTime) / 60, e.endPage.value - e.startPage)
  }

  /** Every key is the decimal text of its entry's start time, as every
      writer of the log arranges. */
  predicate KeyedByStart(cont: Log)
  {
    forall k :: k in cont ==> k == IntToString(cont[k].startTime)
  }

  /** `int(x.start_time)`, the sort key of the log listings. */
  function StartRank(cont: Log): string -> int
  {
    k => if k in cont then cont[k].startTime else 0
  }

  /** The keys of the temporary (`complete == false`) or complete entries,
      in the order `sorted(..., key=lambda x: int(x.start_time))` leaves
      them: by start time, equal start times in key order. */
  function KeysWhere(cont: Log, complete: bool): (ks: seq<string>)
    ensures forall k :: k in ks <==> k in cont && cont[k].complete == complete
    ensures SortedBy(StartRank(cont), ks)
  {
    SortKeys(KeySet(cont, complete), StartRank(cont))
  }

  function KeySet(cont: Log, complete: bool): set<string>
  {
    set k | k in cont && cont[k].complete == complete
  }

  /** `fetch_tmplogs` (complete == false) and `fetch_complete`
      (complete == true): exactly the entries of that kind, ascending by
      start time. */
  function Fetch(cont: Log, complete: bool): (logs: seq<LogEntry>)
    ensures var ks := KeysWhere(cont, complete);
            |logs| == |ks| && forall i :: 0 <= i < |ks| ==> logs[i] == cont[ks[i]]
    ensures forall i :: 0 <= i < |logs| ==> logs[i].complete == complete
    ensures forall i, j :: 0 <= i < j < |logs| ==> logs[i].startTime <= logs[j].startTime
  {
    var ks := KeysWhere(cont, complete);
    var logs := seq(|ks|, i requires 0 <= i < |ks| => cont[ks[i]]);
    FetchedInOrder(cont, complete, ks, logs);
    logs
  }

  /** The entries of keys sorted by start time come in start-time order. */
  lemma FetchedInOrder(cont: Log, complete: bool, ks: seq<string>, logs: seq<LogEntry>)
    requires forall k :: k in ks <==> k in cont && cont[k].complete == complete
    requires SortedBy(StartRank(cont), ks)
    requires |logs| == |ks| && forall i :: 0 <= i < |ks| ==> logs[i] == cont[ks[i]]
    ensures forall i :: 0 <= i < |logs| ==> logs[i].complete == complete
    ensures forall i, j :: 0 <= i < j < |logs| ==> logs[i].startTime <= logs[j].startTime
  {
    forall i, j | 0 <= i < j < |logs|
      ensures logs[i].startTime <= logs[j].startTime
    {
      assert Before(StartRank(cont), ks[i], ks[j]);
    }
  }

  /** `k` holds the complete entry that sorts last: the latest one. */
  predicate IsLatestComplete(cont: Log, k: string)
  {
    && k in cont && cont[k].complete
    && forall j :: j in cont && cont[j].complete && j != k ==> Before(StartRank(cont), j, k)
  }

  lemma LatestCompleteUnique(cont: Log, k1: string, k2: string)
    requires IsLatestComplete(cont, k1) && IsLatestComplete(cont, k2)
    ensures k1 == k2
  {
    BeforeAsymmetric(StartRank(cont));
  }

  /** The key of the last element of `fetch_complete()`, if any. */
  function LatestCompleteKey(cont: Log): (r: Option<string>)
    ensures r.None? <==> forall k :: k in cont ==> !cont[k].complete
    ensures r.Some? ==> IsLatestComplete(cont, r.value)
  {
    var ks := KeysWhere(cont, true);
    if |ks| == 0 then None
    else
      var last := ks[|ks| - 1];
      assert forall j :: j in cont && cont[j].complete && j != last ==> Before(StartRank(cont), j, last) by {
        forall j | j in cont && cont[j].complete && j != last
          ensures Before(StartRank(cont), j, last)
        {
          SortedLastIsGreatest(StartRank(cont), ks, j);
        }
      }
      Some(last)
  }

  /** `last_complete_log`: the latest complete entry, or None when there
      is none. */
  function LastCompleteOf(cont: Log): (r: Option<LogEntry>)
    ensures r.None? <==> forall k :: k in cont ==> !cont[k].complete
    ensures forall k :: IsLatestComplete(cont, k) ==> r == Some(cont[k])
  {
    var key := LatestCompleteKey(cont);
    if key.None? then None
    else
      assert forall k :: IsLatestComplete(cont, k) ==> k == key.value by {
        forall k | IsLatestComplete(cont, k) ensures k == key.value {
          LatestCompleteUnique(cont, k, key.value);
        }
      }
      Some(cont[key.value])
  }

  /** `cal_start_page`: where the next reading starts, the end page of the
      latest complete entry, or page 1 when nothing is complete yet. The
      end page is passed on as stored, so a complete entry without one
      yields None. */
  function StartPageOf(cont: Log): (p: Option<int>)
    ensures (forall k :: k in cont ==> !cont[k].complete) ==> p == Some(1)
    ensures forall k :: IsLatestComplete(cont, k) ==> p == cont[k].endPage
  {
    var log := LastCompleteOf(cont);
    if log.Some? then log.value.endPage else Some(1)
  }

  /** Every complete entry has an end page. Whoever marks an entry
      complete supplies one (the viewer only when it found the page, the
      manual log always), so `cal_start_page` never yields None. */
  predicate Consistent(cont: Log)
  {
    forall k :: k in cont && cont[k].complete ==> cont[k].endPage.Some?
  }

  lemma ConsistentStartPage(cont: Log)
    requires Consistent(cont)
    ensures StartPageOf(cont).Some?
  {
    var key := LatestCompleteKey(cont);
    if key.Some? {
      assert IsLatestComplete(cont, key.value);
    }
  }

  /** A session completed after every other complete one decides where
      the next reading starts. */
  lemma {:induction false} StartPageAfterNewestSession(cont: Log, key: string, e: LogEntry)
    requires e.complete
    requires forall k :: k in cont && k != key && cont[k].complete ==> cont[k].startTime < e.startTime
    ensures StartPageOf(cont[key := e]) == e.endPage
  {
    var c := cont[key := e];
    forall j | j in c && c[j].complete && j != key
      ensures Before(StartRank(c), j, key)
    {
      assert c[j] == cont[j];
    }
    assert IsLatestComplete(c, key);
  }

  /** What `clear_tmp_log` leaves: the complete entries, unchanged. */
  function CompleteOnly(cont: Log): (r: Log)
    ensures forall k :: k in r <==> k in cont && cont[k].complete
    ensures forall k :: k in r ==> r[k] == cont[k]
  {
    map k | k in cont && cont[k].complete :: cont[k]
  }

  lemma CompleteKeysKept(cont: Log)
    ensures KeysWhere(CompleteOnly(cont), true) == KeysWhere(cont, true)
    ensures KeysWhere(CompleteOnly(cont), false) == []
  {
    var c := CompleteOnly(cont);
    var s := KeySet(cont, true);
    assert KeySet(c, true) == s;
    assert forall k :: k in s ==> StartRank(c)(k) == StartRank(cont)(k) by {
      forall k | k in s ensures StartRank(c)(k) == StartRank(cont)(k) {
        assert k in c && c[k] == cont[k];
      }
    }
    SortKeysRanksAgree(s, StartRank(c), StartRank(cont));
    assert KeySet(c, false) == {};
  }

  /** After clearing, nothing temporary is left and the complete listing
      is the same as before. */
  lemma ClearingKeepsCompleteListing(cont: Log)
    ensures Fetch(CompleteOnly(cont), false) == []
    ensures Fetch(CompleteOnly(cont), true) == Fetch(cont, true)
  {
    var c := CompleteOnly(cont);
    CompleteKeysKept(cont);
    var ks := KeysWhere(cont, true);
    var a, b := Fetch(c, true), Fetch(cont, true);
    forall i | 0 <= i < |a| ensures a[i] == b[i] {
      assert ks[i] in c;
    }
  }

  /** The key `dellast` would delete: the greatest key among the complete
      entries in STRING order (`sorted(keys)[-1]`). */
  function DellastKey(cont: Log): (r: Option<string>)
    ensures r.None? <==> forall k :: k in cont ==> !cont[k].complete
    ensures r.Some? ==> r.value in cont && cont[r.value].complete
    ensures r.Some? ==> forall k :: k in cont && cont[k].complete && k != r.value ==> StrLt(k, r.value)
  {
    var keys := set k | k in cont && cont[k].complete;
    if keys == {} then
      assert forall k :: k in cont ==> !cont[k].complete by {
        forall k | k in cont ensures !cont[k].complete {
          assert cont[k].complete ==> k in keys;
        }
      }
      None
    else
      var sorted := SortKeys(keys, ByName);
      var last := sorted[|sorted| - 1];
      assert last in keys;
      assert forall k :: k in keys && k != last ==> StrLt(k, last) by {
        forall k | k in keys && k != last ensures StrLt(k, last) {
          SortedLastIsGreatest(ByName, sorted, k);
          assert ByName(k) == ByName(last);
        }
      }
      Some(last)
  }

  /** While all keys are time stamps of one length (every Unix time from
      2001 to 2286 has ten digits), the string-greatest key `dellast`
      deletes is the latest complete entry. */
  lemma DellastDeletesLatest(cont: Log, width: nat)
    requires KeyedByStart(cont)
    requires forall k :: k in cont ==> cont[k].startTime >= 0 && |k| == width
    requires exists k :: k in cont && cont[k].complete
    ensures DellastKey(cont) == LatestCompleteKey(cont)
  {
    var w :| w in cont && cont[w].complete;
    var r := DellastKey(cont);
    assert r.Some?;
    var d := r.value;
    forall j | j in cont && cont[j].complete && j != d
      ensures Before(StartRank(cont), j, d)
    {
      assert StrLt(j, d);
      StrLtIsNumericLt(j, d);
    }
    assert IsLatestComplete(cont, d);
    LatestCompleteUnique(cont, d, LatestCompleteKey(cont).value);
  }

  /** Once the keys differ in length, string order is not time order:
      of the sessions started at second 999 and second 1000, `dellast`
      picks the earlier one. */
  lemma DellastStringOrderQuirk(early: LogEntry, late: LogEntry)
    requires early.startTime == 999 && late.startTime == 1000
    requires early.complete && late.complete
    ensures var cont := map["999" := early, "1000" := late];
            DellastKey(cont) == Some("999") && LatestCompleteKey(cont) == Some("1000")
  {
    var cont := map["999" := early, "1000" := late];
    assert cont["999"].complete;
    var r := DellastKey(cont);
    assert r.Some?;
    assert StrLt("1000", "999");
    assert !StrLt("999", "1000");
    assert r.value == "999";
    assert Before(StartRank(cont), "999", "1000");
    assert IsLatestComplete(cont, "1000");
    var l := LatestCompleteKey(cont);
    assert l.Some?;
    LatestCompleteUnique(cont, l.value, "1000");
  }

  /** Per-day figures of `list_sum`. */
  datatype Totals = Totals(minutes: int, pages: int)

  /** Total minutes of the entries of `logs` that started on day `d`. */
  function MinutesOn(logs: seq<LogEntry>, dayOf: int -> string, d: string): int
    requires forall i :: 0 <= i < |logs| ==> logs[i].endPage.Some?
  {
    if |logs| == 0 then 0
    else
      var e := logs[|logs| - 1];
      MinutesOn(logs[..|logs| - 1], dayOf, d) + (if dayOf(e.startTime) == d then DetailOf(e).minutes else 0)
  }

  /** Total pages of the entries of `logs` that started on day `d`. */
  function PagesOn(logs: seq<LogEntry>, dayOf: int -> string, d: string): int
    requires forall i :: 0 <= i < |logs| ==> logs[i].endPage.Some?
  {
    if |logs| == 0 then 0
    else
      var e := logs[|logs| - 1];
      PagesOn(logs[..|logs| - 1], dayOf, d) + (if dayOf(e.startTime) == d then DetailOf(e).pages else 0)
  }

  /** The days on which some entry of `logs` started. */
  function DaysOf(logs: seq<LogEntry>, dayOf: int -> string): set<string>
  {
    set i | 0 <= i < |logs| :: dayOf(logs[i].startTime)
  }

  /** The totals `list_sum` reports: for each day with a session, the
      minutes and pages of that day's sessions. */
  function DayTotals(logs: seq<LogEntry>, dayOf: int -> string): (totals: map<string, Totals>)
    requires forall i :: 0 <= i < |logs| ==> logs[i].endPage.Some?
    ensures totals.Keys == DaysOf(logs, dayOf)
  {
    map d | d in DaysOf(logs, dayOf) :: Totals(MinutesOn(logs, dayOf, d), PagesOn(logs, dayOf, d))
  }

  /** The totals are right for the sessions `logs`: one per day on which
      one of them started, holding that day's minutes and pages. */
  predicate Accumulated(result: map<string, Totals>, logs: seq<LogEntry>, dayOf: int -> string)
    requires forall i :: 0 <= i < |logs| ==> logs[i].endPage.Some?
  {
    && result.Keys == DaysOf(logs, dayOf)
    && forall d :: d in result ==> result[d] == Totals(MinutesOn(logs, dayOf, d), PagesOn(logs, dayOf, d))
  }

  /** One more session adds its own day to the days with sessions. */
  lemma DaysOfAppend(logs: seq<LogEntry>, e: LogEntry, dayOf: int -> string)
    ensures DaysOf(logs + [e], dayOf) == DaysOf(logs, dayOf) + {dayOf(e.startTime)}
  {
    var all := logs + [e];
    forall x | x in DaysOf(all, dayOf)
      ensures x in DaysOf(logs, dayOf) + {dayOf(e.startTime)}
    {
      var i :| 0 <= i < |all| && x == dayOf(all[i].startTime);
      if i < |logs| {
        assert all[i] == logs[i];
      }
    }
    forall x | x in DaysOf(logs, dayOf)
      ensures x in DaysOf(all, dayOf)
    {
      var i :| 0 <= i < |logs| && x == dayOf(logs[i].startTime);
      assert all[i] == logs[i];
    }
    assert all[|logs|] == e;
  }

  /** One more session: added to its day's totals if that day has them,
      otherwise starting them. */
  lemma AccumulateStep(result: map<string, Totals>, logs: seq<LogEntry>, e: LogEntry, dayOf: int -> string)
    requires forall i :: 0 <= i < |logs| ==> logs[i].endPage.Some?
    requires e.endPage.Some? && Accumulated(result, logs, dayOf)
    ensures var day, t := dayOf(e.startTime), DetailOf(e);
            Accumulated(if day in result then result[day := Totals(result[day].minutes + t.minutes, result[day].pages + t.pages)]
                        else result[day := Totals(t.minutes, t.pages)], logs + [e], dayOf)
  {
    var day := dayOf(e.startTime);
    var all := logs + [e];
    assert all[..|all| - 1] == logs;
    DaysOfAppend(logs, e, dayOf);
    if day !in result {
      NothingOnOtherDays(logs, dayOf, day);
    }
  }

  /** The accumulation loop of `list_sum`: one total per day on which some
      session started, summing `(end_time - start_time) // 60` and
      `end_page - start_page` over that day's sessions. A session without
      an end page raises TypeError. */
  method Accumulate(logs: seq<LogEntry>, dayOf: int -> string) returns (r: Result<map<string, Totals>>)
    ensures r.Err? <==> exists i :: 0 <= i < |logs| && logs[i].endPage.None?
    ensures r.Err? ==> r.error == TypeError
    ensures r.Ok? ==> r.value.Keys == DaysOf(logs, dayOf)
    ensures r.Ok? ==> forall d :: d in r.value ==>
              r.value[d] == Totals(MinutesOn(logs, dayOf, d), PagesOn(logs, dayOf, d))
    ensures r.Ok? ==> r.value == DayTotals(logs, dayOf)
  {
    var result: map<string, Totals> := map[];
    var i := 0;
    while i < |logs|
      invariant 0 <= i <= |logs|
      invariant forall j :: 0 <= j < i ==> logs[j].endPage.Some?
      invariant Accumulated(result, logs[..i], dayOf)
    {
      var log := logs[i];
      if log.endPage.None? {
        return Err(TypeError);
      }
      var day := dayOf(log.startTime);
      var detail := DetailOf(log);
      AccumulateStep(result, logs[..i], log, dayOf);
      assert logs[..i + 1] == logs[..i] + [log];
      if day in result {
        result := result[day := Totals(result[day].minutes + detail.minutes, result[day].pages + detail.pages)];
      } else {
        result := result[day := Totals(detail.minutes, detail.pages)];
      }
      i := i + 1;
    }
    assert logs[..i] == logs;
    r := Ok(result);
  }

  lemma {:induction false} NothingOnOtherDays(logs: seq<LogEntry>, dayOf: int -> string, d: string)
    requires forall i :: 0 <= i < |logs| ==> logs[i].endPage.Some?
    requires d !in DaysOf(logs, dayOf)
    ensures MinutesOn(logs, dayOf, d) == 0 && PagesOn(logs, dayOf, d) == 0
    decreases |logs|
  {
    if |logs| > 0 {
      var init := logs[..|logs| - 1];
      assert DaysOf(init, dayOf) <= DaysOf(logs, dayOf) by {
        forall x | x in DaysOf(init, dayOf) ensures x in DaysOf(logs, dayOf) {
          var j :| 0 <= j < |init| && dayOf(init[j].startTime) == x;
          assert logs[j] == init[j];
        }
      }
      NothingOnOtherDays(init, dayOf, d);
    }
  }

  /** The example of a summary: two sessions of one day, of 30 and 45
      minutes and of 10 and 5 pages, add up to 75 minutes and 15 pages. */
  lemma TwoSessionsOneDay(dayOf: int -> string, a: LogEntry, b: LogEntry)
    requires a.endTime - a.startTime == 30 * 60 && b.endTime - b.startTime == 45 * 60
    requires a.endPage == Some(a.startPage + 10) && b.endPage == Some(b.startPage + 5)
    requires dayOf(a.startTime) == dayOf(b.startTime)
    ensures var d := dayOf(a.startTime);
            MinutesOn([a, b], dayOf, d) == 75 && PagesOn([a, b], dayOf, d) == 15
  {
    var d := dayOf(a.startTime);
    assert DetailOf(a) == Detail(30, 10) && DetailOf(b) == Detail(45, 5);
    assert [a, b][..1] == [a];
    assert [a][..0] == [];
    assert MinutesOn([a], dayOf, d) == 30 && PagesOn([a], dayOf, d) == 10;
  }

  /** The container part-way through clearing: the keys still to be
      visited and the complete entries. */
  ghost function Kept(before: Log, pending: set<string>): Log
  {
    map k | k in before && (k in pending || before[k].complete) :: before[k]
  }

  /** The report `list_sum` prints: each day once, ascending by its text. */
  function Report(totals: map<string, Totals>): (lines: seq<(string, Totals)>)
    ensures forall d :: d in totals <==> exists i :: 0 <= i < |lines| && lines[i].0 == d
    ensures forall i :: 0 <= i < |lines| ==> lines[i].0 in totals && lines[i].1 == totals[lines[i].0]
    ensures forall i, j :: 0 <= i < j < |lines| ==> StrLt(lines[i].0, lines[j].0)
  {
    var days := SortKeys(totals.Keys, ByName);
    var lines := seq(|days|, i requires 0 <= i < |days| => (days[i], totals[days[i]]));
    ReportRows(totals, days, lines);
    lines
  }

  /** A row per day of `days`, the days sorted by name, gives every day
      once and in ascending order. */
  lemma ReportRows(totals: map<string, Totals>, days: seq<string>, lines: seq<(string, Totals)>)
    requires forall k :: k in days <==> k in totals
    requires SortedBy(ByName, days)
    requires |lines| == |days| && forall i :: 0 <= i < |days| ==> lines[i] == (days[i], totals[days[i]])
    ensures forall d :: d in totals <==> exists i :: 0 <= i < |lines| && lines[i].0 == d
    ensures forall i :: 0 <= i < |lines| ==> lines[i].0 in totals && lines[i].1 == totals[lines[i].0]
    ensures forall i, j :: 0 <= i < j < |lines| ==> StrLt(lines[i].0, lines[j].0)
  {
    forall d | d in totals
      ensures exists i :: 0 <= i < |lines| && lines[i].0 == d
    {
      var i :| 0 <= i < |days| && days[i] == d;
      assert lines[i].0 == d;
    }
    forall i, j | 0 <= i < j < |lines|
      ensures StrLt(lines[i].0, lines[j].0)
    {
      assert Before(ByName, days[i], days[j]);
      assert ByName(days[i]) == ByName(days[j]);
    }
  }

  /** The `Logger` of a log database: a recorder of log entries. Each
      operation opens the database (reusing an open connection) and works
      on the recorder's own container. */
  class Logger {
    const store: Recorder<LogEntry>

    constructor (store: Recorder<LogEntry>)
      ensures this.store == store
    {
      this.store := store;
    }

    /** The log container as it is now (empty if not yet created). */
    function Entries(): Log
      reads store
    {
      ContainerOf(store.root, store.contName)
    }

    method FetchTmpLogs() returns (logs: seq<LogEntry>)
      modifies store
      ensures store.ConnectionKept() && store.ContainerReady(store.contName)
      ensures logs == Fetch(old(Entries()), false)
    {
      var t := store.OpenDb(None);
      logs := Fetch(store.root[t], false);
    }

    method FetchComplete() returns (logs: seq<LogEntry>)
      modifies store
      ensures store.ConnectionKept() && store.ContainerReady(store.contName)
      ensures logs == Fetch(old(Entries()), true)
    {
      var t := store.OpenDb(None);
      logs := Fetch(store.root[t], true);
    }

    method LastCompleteLog() returns (log: Option<LogEntry>)
      modifies store
      ensures store.ConnectionKept() && store.ContainerReady(store.contName)
      ensures log == LastCompleteOf(old(Entries()))
    {
      var t := store.OpenDb(None);
      log := LastCompleteOf(store.root[t]);
    }

    method CalStartPage() returns (page: Option<int>)
      modifies store
      ensures store.ConnectionKept() && store.ContainerReady(store.contName)
      ensures page == StartPageOf(old(Entries()))
    {
      var log := LastCompleteLog();
      page := if log.Some? then log.value.endPage else Some(1);
    }

    /** `list_sum`: the per-day report of the complete entries, with each
        session's day given by `dayOf` (local calendar day of a time). */
    method ListSum(dayOf: int -> string) returns (r: Result<seq<(string, Totals)>>)
      modifies store
      ensures store.ConnectionKept() && store.ContainerReady(store.contName)
      ensures var logs := Fetch(old(Entries()), true);
              && (r.Err? <==> exists i :: 0 <= i < |logs| && logs[i].endPage.None?)
              && (r.Ok? ==>
                    && (forall i :: 0 <= i < |logs| ==> logs[i].endPage.Some?)
                    && r.value == Report(DayTotals(logs, dayOf)))
    {
      var logs := FetchComplete();
      var totals := Accumulate(logs, dayOf);
      if totals.Err? {
        return Err(totals.error);
      }
      r := Ok(Report(totals.value));
    }

    /** `clear_tmp_log`: every temporary entry is deleted, every complete
        one is kept unchanged, and the result is committed. */
    method ClearTmpLog()
      modifies store
      ensures store.ConnectionKept()
      ensures store.root == old(store.root)[store.contName := CompleteOnly(old(Entries()))]
      ensures store.committed == store.root
    {
      var t := store.OpenDb(None);
      ghost var cont := store.root[t];
      DropTemporary(t);
      UpdateTwice(old(store.root), t, cont, CompleteOnly(cont));
    }

    /** The loop of `clear_tmp_log` over the open container `t`: deletes the
        temporary entries one key at a time, then commits. */
    method DropTemporary(t: string)
      requires t in store.root
      modifies store`root, store`committed
      ensures store.root == old(store.root)[t := CompleteOnly(old(store.root[t]))]
      ensures store.committed == store.root
    {
      ghost var before := store.root[t];
      ghost var start := store.root;
      var pending := store.root[t].Keys;
      assert Kept(before, pending) == before;
      while pending != {}
        invariant t in store.root
        invariant pending <= before.Keys
        invariant store.root == start[t := Kept(before, pending)]
        decreases pending
      {
        var k :| k in pending;
        if !store.root[t][k].complete {
          assert Kept(before, pending) - {k} == Kept(before, pending - {k});
          store.root := store.root[t := store.root[t] - {k}];
        } else {
          assert Kept(before, pending) == Kept(before, pending - {k});
        }
        pending := pending - {k};
      }
      assert Kept(before, {}) == CompleteOnly(before);
      store.Persist();
    }

    /** `dellast`: with a complete entry present and the answer 'y' or 'Y',
        deletes the complete entry with the greatest key (see DellastKey)
        and commits; otherwise changes nothing. */
    method Dellast(answer: string)
      modifies store
      ensures store.ConnectionKept()
      ensures var key := DellastKey(old(Entries()));
              if key.Some? && IsYes(answer) then
                store.root == old(store.root)[store.contName := old(Entries()) - {key.value}]
                && store.committed == store.root
              else
                store.ContainerReady(store.contName)
    {
      var t := store.OpenDb(None);
      var key := DellastKey(store.root[t]);
      if key.None? {
        return;
      }
      if !IsYes(answer) {
        return;
      }
      store.root := store.root[t := store.root[t] - {key.value}];
      store.Persist();
    }
  }
}
