/** What it means that the list, the queues and the database file describe the same history. */
module HistoryConsistency {
  import opened Calendar
  import opened Collections
  import opened HistoryDb
  import opened HistoryUi
  import opened HistorySync
  import opened HistoryProtocol

  /** Delivering signals to the UI thread one after the other. */
  function ReceivedAll(ui: Ui, events: seq<UiEvent>): Ui
    decreases |events|
  {
    if events == [] then ui else ReceivedAll(Received(ui, events[0], ""), events[1..])
  }

  /** The signals still to come: those on their way and those of a fetch not handled yet. */
  function Incoming(w: World): seq<UiEvent> {
    w.worker.posted + SignalsAfter(Abstract(w.worker), w.ui.posted)
  }

  /** The list once everything on its way has arrived. */
  function ArrivedUi(w: World): Ui {
    ReceivedAll(w.ui, Incoming(w))
  }

  /** Nothing is on its way to the list. */
  ghost predicate AllArrived(w: World) {
    w.worker.posted == [] && OnlyOperations(w.ui.posted)
  }

  ghost predicate GoodDisk(disk: map<string, Db>) {
    forall name :: name in disk ==> GoodRows(disk[name].history)
  }

  /** The settled database file of the current path holds what the list will hold when all signals arrived. */
  ghost predicate SettledInStep(w: World) {
    var s := Settled(w);
    s.current == Some(DatabaseName(w.ui.path)) && s.current.value in s.disk &&
    InStep(ArrivedUi(w), s.disk[s.current.value])
  }

  predicate IsFile(path: string) {
    path != "" && path != MEMORY
  }

  /** No path was ever set, so there is no database. */
  ghost predicate NoPathYet(w: World) {
    w.ui.path == "" && Settled(w).current == None && AllArrived(w)
  }

  /** The file of the current path with the operations queued, and then those posted, applied to it. */
  function Recovered(w: World): Db
    requires OnlyOperations(w.ui.posted)
  {
    ApplyAll(FileOf(w.worker.disk, DatabaseName(w.ui.path)), w.worker.pending + Operations(w.ui.posted))
  }

  ghost predicate Consistent(w: World) {
    if w.stage == Ended then
      && w.worker.pending == []
      && (w.ui.phase != NoDatabase && OnlyOperations(w.ui.posted) && IsFile(w.ui.path) ==>
            w.ui.path in w.worker.disk && InStep(ReceivedAll(w.ui, w.worker.posted), Recovered(w)))
    else
      && Wired(w)
      && GoodDisk(Settled(w).disk)
      && if w.ui.phase == NoDatabase then NoPathYet(w) else SettledInStep(w)
  }

  // ---- A fetch brings the list in step with the file ----

  lemma {:induction false} ReceivedAllAppend(ui: Ui, a: seq<UiEvent>, b: seq<UiEvent>)
    ensures ReceivedAll(ui, a + b) == ReceivedAll(ReceivedAll(ui, a), b)
    decreases |a|
  {
    if a == [] {
      assert a + b == b;
    } else {
      assert (a + b)[1..] == a[1..] + b;
      ReceivedAllAppend(Received(ui, a[0], ""), a[1..], b);
    }
  }

  lemma {:induction false} HiddenArrive(ui: Ui, urls: seq<string>)
    ensures ReceivedAll(ui, HiddenEvents(urls)) == ui.(hiddenEntries := ui.hiddenEntries + set url | url in urls)
    decreases |urls|
  {
    if urls == [] {
      assert ui.hiddenEntries + (set url | url in urls) == ui.hiddenEntries;
    } else {
      assert HiddenEvents(urls)[1..] == HiddenEvents(urls[1..]);
      HiddenArrive(ui.(hiddenEntries := ui.hiddenEntries + {urls[0]}), urls[1..]);
      assert (set url | url in urls) == {urls[0]} + set url | url in urls[1..];
    }
  }

  /** A list entry stores the very row it was made from, provided the row names its domain. */
  lemma EntryStoresRow(row: Row, hidden: bool, computedDomain: string)
    ensures RowOf(EntryOf(row, hidden, computedDomain)) == row <==> row.domain != "" || computedDomain == ""
  {
  }

  lemma {:induction false} EntriesArrive(ui: Ui, rows: seq<Row>)
    requires FlagsMatch(ui)
    ensures
      var ui' := ReceivedAll(ui, EntryEvents(rows));
      && FlagsMatch(ui')
      && ui' == ui.(entries := ui'.entries)
      && RowsOf(ui'.entries) == RowsOf(ui.entries) + rows
    decreases |rows|
  {
    if rows != [] {
      assert EntryEvents(rows)[1..] == EntryEvents(rows[1..]);
      var first := Received(ui, EntryFetched(rows[0]), "");
      EntryStoresRow(rows[0], rows[0].url in ui.hiddenEntries, "");
      assert RowsOf(first.entries) == RowsOf(ui.entries) + [rows[0]];
      EntriesArrive(first, rows[1..]);
      assert RowsOf(ui.entries) + [rows[0]] + rows[1..] == RowsOf(ui.entries) + rows;
    }
  }

  /** The list after a complete fetch into an empty list. */
  lemma FetchArrives(ui: Ui, db: Db)
    requires ui.entries == []
    ensures
      var ui' := ReceivedAll(ui, FetchEvents(db));
      && RowsOf(ui'.entries) == SortByVisit(db.history)
      && ui'.hiddenEntries == ui.hiddenEntries + (set url | url in db.hidden)
      && FlagsMatch(ui')
      && ui' == ui.(entries := ui'.entries, hiddenEntries := ui'.hiddenEntries, phase := Ready)
  {
    var rows := SortByVisit(db.history);
    var hiddenUi := ReceivedAll(ui, HiddenEvents(db.hidden));
    HiddenArrive(ui, db.hidden);
    EntriesArrive(hiddenUi, rows);
    ReceivedAllAppend(ui, HiddenEvents(db.hidden), EntryEvents(rows));
    ReceivedAllAppend(ui, HiddenEvents(db.hidden) + EntryEvents(rows), [Loaded]);
    assert RowsOf([]) + rows == rows;
  }

  lemma {:induction false} PermutedUrls(a: seq<Row>, b: seq<Row>)
    requires multiset(a) == multiset(b) && GoodRows(a)
    ensures GoodRows(b) && SameElements(a, b)
  {
    PermutedElements(a, b);
    forall i, j | 0 <= i < j < |b| ensures b[i].url != b[j].url {
      if b[i].url == b[j].url {
        assert b[i] in a && b[j] in a;
        assert b[i] == b[j];
        assert b == b[..i] + [b[i]] + b[i + 1..j] + [b[j]] + b[j + 1..];
        assert multiset(b)[b[i]] >= 2;
        assert Distinct(a);
        DistinctCount(a, b[i]);
      }
    }
  }

  /** A fetch into an empty list is in step with the file exactly when the file hides what the list already hides. */
  lemma FetchInStep(ui: Ui, db: Db)
    requires ui.entries == [] && GoodRows(db.history)
    ensures InStep(ReceivedAll(ui, FetchEvents(db)), db) <==> forall url :: url in ui.hiddenEntries ==> url in db.hidden
  {
    FetchArrives(ui, db);
    PermutedUrls(db.history, SortByVisit(db.history));
  }

  // ---- What arrives ----

  /** The entries that signals append, given the urls hidden when they start to arrive. */
  function Arrivals(hidden: set<string>, events: seq<UiEvent>): seq<Entry>
    decreases |events|
  {
    if events == [] then [] else
    match events[0]
    case HiddenFetched(url) => Arrivals(hidden + {url}, events[1..])
    case EntryFetched(row) => [EntryOf(row, row.url in hidden, "")] + Arrivals(hidden, events[1..])
    case Loaded => Arrivals(hidden, events[1..])
  }

  function HiddenAfter(hidden: set<string>, events: seq<UiEvent>): set<string>
    decreases |events|
  {
    if events == [] then hidden
    else HiddenAfter(if events[0].HiddenFetched? then hidden + {events[0].url} else hidden, events[1..])
  }

  lemma {:induction false} ArrivalsAppend(ui: Ui, events: seq<UiEvent>)
    ensures ReceivedAll(ui, events).entries == ui.entries + Arrivals(ui.hiddenEntries, events)
    ensures ReceivedAll(ui, events).hiddenEntries == HiddenAfter(ui.hiddenEntries, events)
    ensures ReceivedAll(ui, events).path == ui.path && ReceivedAll(ui, events).utcOffset == ui.utcOffset
    decreases |events|
  {
    if events != [] {
      var ui' := Received(ui, events[0], "");
      ArrivalsAppend(ui', events[1..]);
      if events[0].EntryFetched? {
        var e := EntryOf(events[0].row, events[0].row.url in ui.hiddenEntries, "");
        assert ui.entries + [e] + Arrivals(ui.hiddenEntries, events[1..])
            == ui.entries + ([e] + Arrivals(ui.hiddenEntries, events[1..]));
      }
    }
  }

  lemma {:induction false} HiddenGrows(hidden: set<string>, events: seq<UiEvent>)
    ensures hidden <= HiddenAfter(hidden, events)
    decreases |events|
  {
    if events != [] {
      HiddenGrows(if events[0].HiddenFetched? then hidden + {events[0].url} else hidden, events[1..]);
    }
  }

  /** The hidden urls that signals bring do not depend on those already known. */
  lemma {:induction false} HiddenBrought(hidden: set<string>, events: seq<UiEvent>)
    ensures forall url :: url in HiddenAfter(hidden, events) <==> url in hidden || HiddenFetched(url) in events
    decreases |events|
  {
    if events != [] {
      HiddenBrought(if events[0].HiddenFetched? then hidden + {events[0].url} else hidden, events[1..]);
      assert events == [events[0]] + events[1..];
    }
  }

  lemma {:induction false} ArrivalsExist(hidden: set<string>, events: seq<UiEvent>)
    ensures Arrivals(hidden, events) == [] <==> forall event :: event in events ==> !event.EntryFetched?
    decreases |events|
  {
    if events != [] {
      ArrivalsExist(if events[0].HiddenFetched? then hidden + {events[0].url} else hidden, events[1..]);
      assert events == [events[0]] + events[1..];
    }
  }

  // ---- Edits of a list that has arrived ----

  lemma OneOperation(db: Db, events: seq<WorkerEvent>)
    requires |events| == 1 && OnlyOperations(events)
    ensures ApplyAll(db, Operations(events)) == Apply(db, events[0].op)
  {
    assert Operations(events) == [events[0].op];
  }

  lemma VisitInStep(ui: Ui, db: Db, url: string, title: string, icon: string, domain: string, now: Millis)
    requires InStep(ui, db) && (domain != "" || IndexOf(ui.entries, url) != -1)
    ensures
      var posted := PostedBy(ui, Visit(url, title, icon, domain, now));
      OnlyOperations(posted) &&
      InStep(Added(ui, url, title, icon, domain, now), ApplyAll(db, Operations(posted)))
  {
    if url != "" {
      OneOperation(db, PostedBy(ui, Visit(url, title, icon, domain, now)));
      if IndexOf(ui.entries, url) == -1 {
        FirstVisitInStep(ui, db, url, title, icon, domain, now);
      } else {
        NextVisitInStep(ui, db, url, title, icon, domain, now);
      }
    }
  }

  lemma RetitleInStep(ui: Ui, db: Db, url: string, title: string, icon: string)
    requires InStep(ui, db)
    ensures
      var posted := PostedBy(ui, Retitle(url, title, icon));
      OnlyOperations(posted) && InStep(Updated(ui, url, title, icon), ApplyAll(db, Operations(posted)))
  {
    if UpdateApplies(ui, url, title, icon) {
      OneOperation(db, PostedBy(ui, Retitle(url, title, icon)));
      UpdateInStep(ui, db, url, title, icon);
    }
  }

  lemma NothingIncoming(w: World)
    requires AllArrived(w)
    ensures Incoming(w) == [] && ArrivedUi(w) == w.ui
  {
    AfterOperations(Abstract(w.worker), w.ui.posted);
  }

  lemma {:induction false} OnlyCurrentChanges(s: Store, events: seq<WorkerEvent>)
    requires OnlyOperations(events) && s.current.Some? && s.current.value in s.disk
    ensures After(s, events)
         == s.(disk := s.disk[s.current.value := ApplyAll(s.disk[s.current.value], Operations(events))])
    decreases |events|
  {
    if events != [] {
      OnlyCurrentChanges(Through(s, events[0]), events[1..]);
      assert Operations(events)[1..] == Operations(events[1..]);
    } else {
      assert Operations(events) == [];
    }
  }

  lemma SwitchStore(s: Store, name: string)
    ensures
      var switch: seq<WorkerEvent> := [ResetDatabase(name), FetchEntries];
      var store := Through(s, ResetDatabase(name));
      After(s, switch) == store && SignalsAfter(s, switch) == FetchEvents(store.disk[name])
  {
    var switch: seq<WorkerEvent> := [ResetDatabase(name), FetchEntries];
    var fetch: seq<WorkerEvent> := [FetchEntries];
    assert switch[1..] == fetch;
    assert fetch[1..] == [];
  }

  /** Signals arriving do not look at the events the UI thread has posted. */
  lemma {:induction false} ReceivedIgnoresPosted(ui: Ui, posted: seq<WorkerEvent>, events: seq<UiEvent>)
    ensures ReceivedAll(ui.(posted := posted), events) == ReceivedAll(ui, events).(posted := posted)
    decreases |events|
  {
    if events != [] {
      ReceivedIgnoresPosted(Received(ui, events[0], ""), posted, events[1..]);
    }
  }

  // ---- Steps that are not edits ----

  /** The first of the incoming rows names its domain, so it does not matter which domain is computed for it. */
  lemma FirstRowNamesDomain(ui: Ui, events: seq<UiEvent>)
    requires GoodRows(RowsOf(ReceivedAll(ui, events).entries)) && events != [] && events[0].EntryFetched?
    ensures events[0].row.domain != ""
  {
    var first := EntryOf(events[0].row, events[0].row.url in ui.hiddenEntries, "");
    var all := ReceivedAll(ui, events).entries;
    ArrivalsAppend(ui, events);
    assert all[|ui.entries|] == first;
    assert RowsOf(all)[|ui.entries|] in RowsOf(all);
  }

  predicate IsQuiet(step: Step) {
    step.WorkerTakes? || step.TimerFires? || step.UiTakes? || step.Quit?
  }

  lemma FirstDelivered(ui: Ui, event: UiEvent, rest: seq<UiEvent>, computedDomain: string)
    requires GoodRows(RowsOf(ReceivedAll(ui, [event] + rest).entries))
    ensures ReceivedAll(Received(ui, event, computedDomain), rest) == ReceivedAll(ui, [event] + rest)
  {
    if event.EntryFetched? {
      FirstRowNamesDomain(ui, [event] + rest);
    }
    assert ([event] + rest)[1..] == rest;
    assert Received(ui, event, computedDomain) == Received(ui, event, "");
  }

  lemma TakingSignal(w: World, computedDomain: string)
    requires Possible(w, UiTakes(computedDomain)) && GoodRows(RowsOf(ArrivedUi(w).entries))
    ensures ArrivedUi(Next(w, UiTakes(computedDomain))) == ArrivedUi(w)
  {
    var w' := Next(w, UiTakes(computedDomain));
    var event := w.worker.posted[0];
    assert Incoming(w) == [event] + Incoming(w');
    FirstDelivered(w.ui, event, Incoming(w'), computedDomain);
  }

  lemma TakingEvent(w: World)
    requires Wired(w) && Possible(w, WorkerTakes)
    ensures Incoming(Next(w, WorkerTakes)) == Incoming(w)
    ensures ArrivedUi(Next(w, WorkerTakes)) == ArrivedUi(w).(posted := w.ui.posted[1..])
  {
    HandledRefines(w.worker, w.ui.posted[0]);
    ReceivedIgnoresPosted(w.ui, w.ui.posted[1..], Incoming(w));
  }

  lemma FiringTimer(w: World)
    requires Wired(w) && Possible(w, TimerFires)
    ensures Incoming(Next(w, TimerFires)) == Incoming(w) && ArrivedUi(Next(w, TimerFires)) == ArrivedUi(w)
  {
    TimeoutRefines(w.worker);
  }

  /** What the list will hold is the same before and after every step that is not an edit. */
  lemma QuietStep(w: World, step: Step)
    requires Wired(w) && Possible(w, step) && IsQuiet(step) && GoodRows(RowsOf(ArrivedUi(w).entries))
    ensures
      var arrived, arrived' := ArrivedUi(w), ArrivedUi(Next(w, step));
      && arrived'.entries == arrived.entries && arrived'.hiddenEntries == arrived.hiddenEntries
      && Next(w, step).ui.path == w.ui.path && Settled(Next(w, step)) == Settled(w)
  {
    StepIsWriteThrough(w, step);
    match step
    case WorkerTakes => TakingEvent(w);
    case TimerFires => FiringTimer(w);
    case UiTakes(computedDomain) => TakingSignal(w, computedDomain);
    case Quit =>
  }
}
