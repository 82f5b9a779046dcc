/** Storing the list and fetching it again is a round trip. */
module HistoryReload {
  import opened Calendar
  import opened Collections
  import opened HistoryDb
  import opened HistoryUi
  import opened HistorySync
  import opened HistoryProtocol
  import opened HistoryConsistency
  import opened HistoryRuns

  ghost predicate VisitedNewestFirst(entries: seq<Entry>) {
    forall i, j :: 0 <= i < j < |entries| ==> entries[i].lastVisit >= entries[j].lastVisit
  }

  ghost predicate SecondsDistinct(entries: seq<Entry>) {
    forall i, j :: 0 <= i < j < |entries| ==> SecondsOf(entries[i].lastVisit) != SecondsOf(entries[j].lastVisit)
  }

  /** An entry as it comes back from the database: the last visit cut to a whole second. */
  function Cut(e: Entry): Entry {
    e.(lastVisit := SecondsOf(e.lastVisit) * 1000)
  }

  function Truncated(entries: seq<Entry>): (out: seq<Entry>)
    ensures |out| == |entries|
    ensures forall i :: 0 <= i < |entries| ==> out[i] == Cut(entries[i])
  {
    seq(|entries|, i requires 0 <= i < |entries| => Cut(entries[i]))
  }

  /** Dropping the list and fetching the file. */
  function Reloaded(ui: Ui, db: Db): Ui {
    ReceivedAll(ui.(entries := [], hiddenEntries := {}), FetchEvents(db))
  }

  lemma SameHead(a: seq<Row>, b: seq<Row>)
    requires SameElements(a, b) && a != [] && b != [] && NewestFirst(b)
    requires forall i, j :: 0 <= i < j < |a| ==> a[i].lastVisit > a[j].lastVisit
    ensures a[0] == b[0]
  {
    assert a[0] in b && b[0] in a;
    var j :| 0 <= j < |b| && b[j] == a[0];
    var k :| 0 <= k < |a| && a[k] == b[0];
    assert j == 0 || b[0].lastVisit >= b[j].lastVisit;
  }

  lemma {:induction false} StrictOrderIsUnique(a: seq<Row>, b: seq<Row>)
    requires multiset(a) == multiset(b)
    requires forall i, j :: 0 <= i < j < |a| ==> a[i].lastVisit > a[j].lastVisit
    requires NewestFirst(b)
    ensures a == b
  {
    PermutedElements(a, b);
    if a != [] {
      SameHead(a, b);
      TailCount(a);
      TailCount(b);
      StrictOrderIsUnique(a[1..], b[1..]);
      assert a == [a[0]] + a[1..] && b == [b[0]] + b[1..];
    }
  }

  lemma DistinctByUrl(entries: seq<Entry>)
    requires DistinctUrls(RowsOf(entries))
    ensures Distinct(entries) && Distinct(RowsOf(entries))
  {
    forall i, j | 0 <= i < j < |entries| ensures entries[i] != entries[j] && RowsOf(entries)[i] != RowsOf(entries)[j] {
      assert RowsOf(entries)[i].url != RowsOf(entries)[j].url;
    }
  }

  /** Entries that store the same row and carry the same flag come back as the same entry. */
  lemma SameRowSameCut(a: Entry, b: Entry)
    requires RowOf(a) == RowOf(b) && a.hidden == b.hidden
    ensures Cut(a) == Cut(b)
  {
  }

  lemma CutStoresSameRow(entries: seq<Entry>)
    ensures RowsOf(Truncated(entries)) == RowsOf(entries)
    ensures Truncated(Truncated(entries)) == Truncated(entries)
  {
    forall i | 0 <= i < |entries| ensures RowOf(Cut(entries[i])) == RowOf(entries[i]) && Cut(Cut(entries[i])) == Cut(entries[i]) {
      assert SecondsOf(SecondsOf(entries[i].lastVisit) * 1000) == SecondsOf(entries[i].lastVisit);
    }
  }

  /** What a fetch delivers is already cut to whole seconds. */
  lemma {:induction false} ArrivalsAreCut(ui: Ui, events: seq<UiEvent>)
    requires Truncated(ui.entries) == ui.entries
    ensures Truncated(ReceivedAll(ui, events).entries) == ReceivedAll(ui, events).entries
    decreases |events|
  {
    if events != [] {
      var ui' := Received(ui, events[0], "");
      forall i | 0 <= i < |ui'.entries| ensures Cut(ui'.entries[i]) == ui'.entries[i] {
        if i < |ui.entries| {
          assert Truncated(ui.entries)[i] == ui.entries[i];
        } else {
          var row := events[0].row;
          assert SecondsOf(row.lastVisit * 1000) == row.lastVisit;
        }
      }
      assert Truncated(ui'.entries) == ui'.entries;
      ArrivalsAreCut(ui', events[1..]);
    }
  }

  /** Lists over the same rows with matching flags hold the same entries up to the cut. */
  lemma SameRowsSameCuts(a: Ui, b: Ui)
    requires SameElements(RowsOf(a.entries), RowsOf(b.entries)) && a.hiddenEntries == b.hiddenEntries
    requires FlagsMatch(a) && FlagsMatch(b)
    ensures forall e :: e in Truncated(a.entries) ==> e in Truncated(b.entries)
  {
    forall e | e in Truncated(a.entries) ensures e in Truncated(b.entries) {
      var i :| 0 <= i < |a.entries| && Cut(a.entries[i]) == e;
      assert RowsOf(a.entries)[i] in RowsOf(b.entries);
      var j :| 0 <= j < |b.entries| && RowsOf(b.entries)[j] == RowsOf(a.entries)[i];
      SameRowSameCut(a.entries[i], b.entries[j]);
      assert Truncated(b.entries)[j] == e;
    }
  }

  lemma ReloadedRows(ui: Ui, db: Db)
    requires InStep(ui, db)
    ensures
      var ui' := Reloaded(ui, db);
      && RowsOf(ui'.entries) == SortByVisit(db.history)
      && multiset(RowsOf(ui.entries)) == multiset(RowsOf(ui'.entries))
      && GoodRows(RowsOf(ui'.entries))
      && ui'.hiddenEntries == ui.hiddenEntries && FlagsMatch(ui')
      && Truncated(ui'.entries) == ui'.entries
  {
    var empty := ui.(entries := [], hiddenEntries := {});
    FetchArrives(empty, db);
    ArrivalsAreCut(empty, FetchEvents(db));
    PermutedUrls(db.history, SortByVisit(db.history));
    DistinctByUrl(ui.entries);
    DistinctByUrl(Reloaded(ui, db).entries);
    SameElementsPermute(RowsOf(ui.entries), SortByVisit(db.history));
  }

  /** Storing, dropping and fetching again gives the same entries with times cut to seconds, newest first, with
      the same hidden flags; when the list was newest first and no two seconds coincide, in the same order. */
  lemma ReloadRoundTrip(ui: Ui, db: Db)
    requires InStep(ui, db)
    ensures
      var ui' := Reloaded(ui, db);
      && multiset(ui'.entries) == multiset(Truncated(ui.entries))
      && ui'.hiddenEntries == ui.hiddenEntries
      && VisitedNewestFirst(ui'.entries)
      && (VisitedNewestFirst(ui.entries) && SecondsDistinct(ui.entries) ==> ui'.entries == Truncated(ui.entries))
  {
    var ui' := Reloaded(ui, db);
    ReloadedRows(ui, db);
    PermutedElements(RowsOf(ui.entries), RowsOf(ui'.entries));
    SameRowsSameCuts(ui, ui');
    SameRowsSameCuts(ui', ui);
    CutStoresSameRow(ui.entries);
    DistinctByUrl(ui'.entries);
    DistinctByUrl(Truncated(ui.entries));
    SameElementsPermute(ui'.entries, Truncated(ui.entries));
    SortedRowsSortedEntries(ui'.entries);
    if VisitedNewestFirst(ui.entries) && SecondsDistinct(ui.entries) {
      OrderDetermined(ui, ui');
    }
  }

  lemma SortedRowsSortedEntries(entries: seq<Entry>)
    requires NewestFirst(RowsOf(entries)) && Truncated(entries) == entries
    ensures VisitedNewestFirst(entries)
  {
    forall i, j | 0 <= i < j < |entries| ensures entries[i].lastVisit >= entries[j].lastVisit {
      assert RowsOf(entries)[i].lastVisit >= RowsOf(entries)[j].lastVisit;
      assert Cut(entries[i]) == entries[i] && Cut(entries[j]) == entries[j];
    }
  }

  lemma OrderDetermined(ui: Ui, ui': Ui)
    requires VisitedNewestFirst(ui.entries) && SecondsDistinct(ui.entries)
    requires NewestFirst(RowsOf(ui'.entries)) && multiset(RowsOf(ui.entries)) == multiset(RowsOf(ui'.entries))
    requires ui'.hiddenEntries == ui.hiddenEntries && FlagsMatch(ui) && FlagsMatch(ui')
    requires Truncated(ui'.entries) == ui'.entries
    ensures ui'.entries == Truncated(ui.entries)
  {
    var stored := RowsOf(ui.entries);
    forall i, j | 0 <= i < j < |stored| ensures stored[i].lastVisit > stored[j].lastVisit {
      assert ui.entries[i].lastVisit >= ui.entries[j].lastVisit;
    }
    StrictOrderIsUnique(stored, RowsOf(ui'.entries));
    forall i | 0 <= i < |ui.entries| ensures ui'.entries[i] == Truncated(ui.entries)[i] {
      assert stored[i] == RowsOf(ui'.entries)[i];
      SameRowSameCut(ui'.entries[i], ui.entries[i]);
      assert Truncated(ui'.entries)[i] == ui'.entries[i];
    }
  }

  // ---- A second session ----

  ghost predicate OnlyQuiet(steps: seq<Step>) {
    forall i :: 0 <= i < |steps| ==> !steps[i].Act?
  }

  lemma {:induction false} NeverRunsAgain(w: World, steps: seq<Step>)
    requires IsRun(w, steps) && w.stage != Running
    ensures End(w, steps).stage != Running
    decreases |steps|
  {
    if steps != [] {
      NeverRunsAgain(Next(w, steps[0]), steps[1..]);
    }
  }

  /** While nothing is edited, the threads bring the list what is on its way to it and nothing else. */
  lemma {:induction false} QuietRun(w: World, steps: seq<Step>)
    requires Wired(w) && PhaseHolds(w) && GoodRows(RowsOf(ArrivedUi(w).entries))
    requires IsRun(w, steps) && OnlyQuiet(steps) && End(w, steps).stage == Running
    ensures
      var w' := End(w, steps);
      && PhaseHolds(w') && w'.ui.path == w.ui.path
      && ArrivedUi(w').entries == ArrivedUi(w).entries && ArrivedUi(w').hiddenEntries == ArrivedUi(w).hiddenEntries
    decreases |steps|
  {
    if steps != [] {
      var w' := Next(w, steps[0]);
      if steps[0].WorkerEnds? || steps[0].Quit? {
        NeverRunsAgain(w', steps[1..]);
      } else {
        StepIsWriteThrough(w, steps[0]);
        QuietStep(w, steps[0]);
        WaitingStep(w, steps[0]);
        QuietRun(w', steps[1..]);
      }
    }
  }

  lemma ReloadedAlike(a: Ui, b: Ui, db: Db)
    ensures Reloaded(a, db).entries == Reloaded(b, db).entries
    ensures Reloaded(a, db).hiddenEntries == Reloaded(b, db).hiddenEntries
  {
    ArrivalsAppend(a.(entries := [], hiddenEntries := {}), FetchEvents(db));
    ArrivalsAppend(b.(entries := [], hiddenEntries := {}), FetchEvents(db));
  }

  lemma SessionOpens(utcOffset: int, disk: map<string, Db>, path: string)
    requires IsFile(path) && path in disk && GoodRows(disk[path].history)
    ensures
      var w := Next(Start(utcOffset, disk), Act(SwitchTo(path)));
      && Wired(w) && PhaseHolds(w) && w.ui.path == path
      && ArrivedUi(w) == Reloaded(w.ui, disk[path]) && GoodRows(RowsOf(ArrivedUi(w).entries))
  {
    var start, w := Start(utcOffset, disk), Next(Start(utcOffset, disk), Act(SwitchTo(path)));
    SwitchSettles(start, path);
    WaitingStep(start, Act(SwitchTo(path)));
    SessionIncoming(utcOffset, disk, path);
    FetchInStep(w.ui, disk[path]);
  }

  lemma SessionIncoming(utcOffset: int, disk: map<string, Db>, path: string)
    requires IsFile(path) && path in disk
    ensures Incoming(Next(Start(utcOffset, disk), Act(SwitchTo(path)))) == FetchEvents(disk[path])
  {
    SwitchSettles(Start(utcOffset, disk), path);
    assert [] + FetchEvents(disk[path]) == FetchEvents(disk[path]);
  }

  /** A run of both threads that opens a file and edits nothing: once loaded, the list is what a fetch delivers. */
  lemma SessionLoads(utcOffset: int, disk: map<string, Db>, path: string, steps: seq<Step>)
    requires IsFile(path) && path in disk && GoodRows(disk[path].history)
    requires
      var w := Next(Start(utcOffset, disk), Act(SwitchTo(path)));
      IsRun(w, steps) && OnlyQuiet(steps) && End(w, steps).stage == Running && End(w, steps).ui.phase == Ready
    ensures
      var ui := End(Next(Start(utcOffset, disk), Act(SwitchTo(path))), steps).ui;
      && ui.path == path
      && ui.entries == Reloaded(NewUi(utcOffset), disk[path]).entries
      && ui.hiddenEntries == Reloaded(NewUi(utcOffset), disk[path]).hiddenEntries
  {
    var w := Next(Start(utcOffset, disk), Act(SwitchTo(path)));
    SessionOpens(utcOffset, disk, path);
    QuietRun(w, steps);
    NothingIncoming(End(w, steps));
    ReloadedAlike(w.ui, NewUi(utcOffset), disk[path]);
  }

  /** A session that ended with everything delivered: a path was set, and nothing was on its way or still posted. */
  ghost predicate EndedWhole(w: World) {
    w.stage == Ended && w.ui.phase != NoDatabase && IsFile(w.ui.path) && w.worker.posted == [] && w.ui.posted == []
  }

  lemma WholeFile(w: World)
    requires Consistent(w) && EndedWhole(w)
    ensures w.ui.path in w.worker.disk && InStep(w.ui, w.worker.disk[w.ui.path])
  {
    assert w.worker.pending + Operations(w.ui.posted) == [];
  }

  /** Over every run of harmless edits that ends with everything delivered, and every second run of both threads that
      starts from the files left behind and only opens the same path: the loaded list is the list at the end of the
      first run, with times cut to seconds, newest first, and the same hidden urls; its order is that of the first
      run when that was newest first and no two seconds coincide. */
  lemma RestartRoundTrip(utcOffset: int, disk: map<string, Db>, steps: seq<Step>, utcOffset': int, again: seq<Step>)
    requires GoodDisk(disk) && AllowedRun(Start(utcOffset, disk), steps)
    requires EndedWhole(EndOf(Start(utcOffset, disk), steps))
    requires
      var first := EndOf(Start(utcOffset, disk), steps);
      var second := Next(Start(utcOffset', first.worker.disk), Act(SwitchTo(first.ui.path)));
      IsRun(second, again) && OnlyQuiet(again) &&
      End(second, again).stage == Running && End(second, again).ui.phase == Ready
    ensures
      var first := EndOf(Start(utcOffset, disk), steps);
      var second := Next(Start(utcOffset', first.worker.disk), Act(SwitchTo(first.ui.path)));
      var ui, ui' := first.ui, End(second, again).ui;
      && ui'.path == ui.path
      && multiset(ui'.entries) == multiset(Truncated(ui.entries))
      && ui'.hiddenEntries == ui.hiddenEntries
      && VisitedNewestFirst(ui'.entries)
      && (VisitedNewestFirst(ui.entries) && SecondsDistinct(ui.entries) ==> ui'.entries == Truncated(ui.entries))
  {
    var first := EndOf(Start(utcOffset, disk), steps);
    RunConsistent(Start(utcOffset, disk), steps);
    WholeFile(first);
    var file := first.worker.disk[first.ui.path];
    ReloadRoundTrip(first.ui, file);
    SessionLoads(utcOffset', first.worker.disk, first.ui.path, again);
    ReloadedAlike(first.ui, NewUi(utcOffset'), file);
  }

  // ---- Files of older versions ----

  /** Delivering signals with the domain computed for each url. */
  function DeliveredAll(ui: Ui, events: seq<UiEvent>, domainOf: string -> string): Ui
    decreases |events|
  {
    if events == [] then ui
    else
      var url := if events[0].EntryFetched? then events[0].row.url else "";
      DeliveredAll(Received(ui, events[0], domainOf(url)), events[1..], domainOf)
  }

  /** The row the list shows for a stored row. */
  function Shown(row: Row, domainOf: string -> string): Row {
    row.(domain := if row.domain == "" then domainOf(row.url) else row.domain)
  }

  function ShownRows(rows: seq<Row>, domainOf: string -> string): (shown: seq<Row>)
    ensures |shown| == |rows| && forall i :: 0 <= i < |rows| ==> shown[i] == Shown(rows[i], domainOf)
  {
    seq(|rows|, i requires 0 <= i < |rows| => Shown(rows[i], domainOf))
  }

  lemma {:induction false} DeliveredAppend(ui: Ui, a: seq<UiEvent>, b: seq<UiEvent>, domainOf: string -> string)
    ensures DeliveredAll(ui, a + b, domainOf) == DeliveredAll(DeliveredAll(ui, a, domainOf), b, domainOf)
    decreases |a|
  {
    if a == [] {
      assert a + b == b;
    } else {
      var url := if a[0].EntryFetched? then a[0].row.url else "";
      assert (a + b)[1..] == a[1..] + b;
      DeliveredAppend(Received(ui, a[0], domainOf(url)), a[1..], b, domainOf);
    }
  }

  lemma {:induction false} HiddenDelivered(ui: Ui, urls: seq<string>, domainOf: string -> string)
    ensures DeliveredAll(ui, HiddenEvents(urls), domainOf).entries == ui.entries
    decreases |urls|
  {
    if urls != [] {
      assert HiddenEvents(urls)[1..] == HiddenEvents(urls[1..]);
      HiddenDelivered(Received(ui, HiddenFetched(urls[0]), domainOf("")), urls[1..], domainOf);
    }
  }

  lemma {:induction false} RowsDelivered(ui: Ui, rows: seq<Row>, domainOf: string -> string)
    ensures
      RowsOf(DeliveredAll(ui, EntryEvents(rows), domainOf).entries) == RowsOf(ui.entries) + ShownRows(rows, domainOf)
    decreases |rows|
  {
    if rows != [] {
      var rest := rows[1..];
      var ui' := Received(ui, EntryFetched(rows[0]), domainOf(rows[0].url));
      assert EntryEvents(rows)[1..] == EntryEvents(rest);
      assert ShownRows(rows, domainOf) == [Shown(rows[0], domainOf)] + ShownRows(rest, domainOf);
      assert RowsOf(ui'.entries) == RowsOf(ui.entries) + [Shown(rows[0], domainOf)];
      RowsDelivered(ui', rest, domainOf);
    }
  }

  lemma FetchDelivered(ui: Ui, db: Db, domainOf: string -> string)
    requires ui.entries == []
    ensures RowsOf(DeliveredAll(ui, FetchEvents(db), domainOf).entries) == ShownRows(SortByVisit(db.history), domainOf)
  {
    var rows := SortByVisit(db.history);
    HiddenDelivered(ui, db.hidden, domainOf);
    RowsDelivered(DeliveredAll(ui, HiddenEvents(db.hidden), domainOf), rows, domainOf);
    DeliveredAppend(ui, HiddenEvents(db.hidden), EntryEvents(rows), domainOf);
    DeliveredAppend(ui, HiddenEvents(db.hidden) + EntryEvents(rows), [Loaded], domainOf);
  }

  lemma {:induction false} ShownAsStored(rows: seq<Row>, domainOf: string -> string)
    requires forall url :: domainOf(url) != ""
    ensures ShownRows(rows, domainOf) == rows <==> forall row :: row in rows ==> row.domain != ""
  {
    if row :| row in rows && row.domain == "" {
      var i :| 0 <= i < |rows| && rows[i] == row;
      assert ShownRows(rows, domainOf)[i] != rows[i];
    }
  }

  /** A file of an older version can hold rows without a domain, which are shown with the computed one: a fetch shows
      what the file stores exactly when every row names its domain. */
  lemma LegacyRowsDiffer(ui: Ui, db: Db, domainOf: string -> string)
    requires ui.entries == [] && forall url :: domainOf(url) != ""
    ensures RowsOf(DeliveredAll(ui, FetchEvents(db), domainOf).entries) == SortByVisit(db.history)
       <==> forall row :: row in db.history ==> row.domain != ""
  {
    FetchDelivered(ui, db, domainOf);
    ShownAsStored(SortByVisit(db.history), domainOf);
    PermutedElements(SortByVisit(db.history), db.history);
  }
}
