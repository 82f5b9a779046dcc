/** Order and visit counts over whole runs of both threads. */
module HistoryVisits {
  import opened Calendar
  import opened Collections
  import opened HistoryDb
  import opened HistoryUi
  import opened HistorySync
  import opened HistoryProtocol
  import opened HistoryConsistency
  import opened HistoryLoading
  import opened HistoryRuns
  import opened HistoryReload

  /** The entries are newest first and none is later than the clock. */
  ghost predicate Chronological(ui: Ui, clock: int) {
    VisitedNewestFirst(ui.entries) && forall e :: e in ui.entries ==> e.lastVisit <= clock
  }

  /** The clock after an edit; only a visit reads it. */
  function ClockAfter(clock: int, edit: Edit): int {
    if edit.Visit? then edit.now else clock
  }

  lemma RemovedChronological(ui: Ui, index: int, clock: int)
    requires Chronological(ui, clock) && -1 <= index < |ui.entries|
    ensures Chronological(ui.(entries := Removed(ui.entries, index)), clock)
  {
  }

  lemma {:induction false} KeptChronological(entries: seq<Entry>, sel: Selector, utcOffset: int)
    requires VisitedNewestFirst(entries)
    ensures VisitedNewestFirst(Kept(entries, sel, utcOffset))
    ensures forall e :: e in Kept(entries, sel, utcOffset) ==> e in entries
  {
    KeptIsSubset(entries, sel, utcOffset);
    if entries != [] {
      var rest := entries[1..];
      var kept := Kept(rest, sel, utcOffset);
      KeptChronological(rest, sel, utcOffset);
      forall i | 0 <= i < |kept| ensures entries[0].lastVisit >= kept[i].lastVisit {
        assert kept[i] in kept;
        var j :| 0 <= j < |rest| && rest[j] == kept[i];
        assert rest[j] == entries[j + 1];
      }
    }
  }

  lemma MarkedChronological(ui: Ui, url: string, hidden: bool, clock: int)
    requires Chronological(ui, clock)
    ensures Chronological(ui.(entries := Marked(ui.entries, url, hidden)), clock)
  {
    var marked := Marked(ui.entries, url, hidden);
    forall e | e in marked ensures e.lastVisit <= clock {
      var i :| 0 <= i < |marked| && marked[i] == e;
      assert ui.entries[i] in ui.entries;
    }
  }

  lemma VisitChronological(ui: Ui, visit: Edit, clock: int)
    requires Chronological(ui, clock) && visit.Visit? && clock <= visit.now
    ensures Chronological(Edited(ui, visit), visit.now)
  {
    if visit.url != "" {
      var entries, index := Edited(ui, visit).entries, IndexOf(ui.entries, visit.url);
      RemovedChronological(ui, index, clock);
      assert entries == [entries[0]] + Removed(ui.entries, index) && entries[0].lastVisit == visit.now;
      InFrontChronological(entries[0], ui.(entries := Removed(ui.entries, index)), clock);
    }
  }

  lemma InFrontChronological(e: Entry, ui: Ui, clock: int)
    requires Chronological(ui, clock) && clock <= e.lastVisit
    ensures Chronological(ui.(entries := [e] + ui.entries), e.lastVisit)
  {
    forall i | 0 <= i < |ui.entries| ensures ui.entries[i].lastVisit <= e.lastVisit {
      assert ui.entries[i] in ui.entries;
    }
  }

  lemma RetitleChronological(ui: Ui, retitle: Edit, clock: int)
    requires Chronological(ui, clock) && retitle.Retitle?
    ensures Chronological(Edited(ui, retitle), clock)
  {
    var entries := Edited(ui, retitle).entries;
    forall e | e in entries ensures e.lastVisit <= clock {
      var i :| 0 <= i < |entries| && entries[i] == e;
      assert ui.entries[i] in ui.entries;
    }
  }

  lemma EditChronological(ui: Ui, edit: Edit, clock: int)
    requires Chronological(ui, clock) && clock <= ClockAfter(clock, edit)
    ensures Chronological(Edited(ui, edit), ClockAfter(clock, edit))
  {
    match edit
    case Visit(_, _, _, _, _) => VisitChronological(ui, edit, clock);
    case Retitle(_, _, _) => RetitleChronological(ui, edit, clock);
    case ForgetUrl(url) => RemovedChronological(ui, IndexOf(ui.entries, url), clock);
    case ForgetDay(date) =>
      if date.Day? {
        KeptChronological(ui.entries, OnDay(date.number), ui.utcOffset);
      }
    case ForgetDomain(domain) => KeptChronological(ui.entries, InDomain(domain), ui.utcOffset);
    case ForgetAll =>
    case Hide(url) => MarkedChronological(ui, url, true, clock);
    case UnHide(url) => MarkedChronological(ui, url, false, clock);
    case SwitchTo(_) =>
  }

  // ---- Order over whole runs ----

  function StepClock(clock: int, step: Step): int {
    if step.Act? then ClockAfter(clock, step.edit) else clock
  }

  /** The clock never goes back. */
  ghost predicate ClockForward(clock: int, steps: seq<Step>)
    decreases |steps|
  {
    steps == [] || (clock <= StepClock(clock, steps[0]) && ClockForward(StepClock(clock, steps[0]), steps[1..]))
  }

  ghost predicate TimelyRows(rows: seq<Row>, clock: int) {
    forall row :: row in rows ==> row.lastVisit * 1000 <= clock
  }

  /** No file knows of a visit later than the clock. */
  ghost predicate Timely(disk: map<string, Db>, clock: int) {
    forall name :: name in disk ==> TimelyRows(disk[name].history, clock)
  }

  ghost predicate Orderly(w: World, clock: int) {
    if w.stage == Ended then Chronological(w.ui, clock)
    else Chronological(ArrivedUi(w), clock) && Timely(Settled(w).disk, clock)
  }

  lemma ArrivedSoFar(w: World, clock: int)
    requires Chronological(ArrivedUi(w), clock)
    ensures Chronological(w.ui, clock)
  {
    ArrivalsAppend(w.ui, Incoming(w));
    var all := ArrivedUi(w).entries;
    assert forall i :: 0 <= i < |w.ui.entries| ==> w.ui.entries[i] == all[i];
  }

  lemma ListedRowsTimely(ui: Ui, db: Db, clock: int)
    requires InStep(ui, db) && Chronological(ui, clock)
    ensures TimelyRows(db.history, clock)
  {
    forall row | row in db.history ensures row.lastVisit * 1000 <= clock {
      assert row in RowsOf(ui.entries);
      var i :| 0 <= i < |ui.entries| && RowsOf(ui.entries)[i] == row;
      assert ui.entries[i] in ui.entries;
    }
  }

  lemma EditOrderly(w: World, edit: Edit, clock: int)
    requires Consistent(w) && Allowed(w, Act(edit)) && !edit.SwitchTo? && w.ui.phase != NoDatabase
    requires Orderly(w, clock) && clock <= ClockAfter(clock, edit)
    ensures Orderly(Next(w, Act(edit)), ClockAfter(clock, edit))
  {
    var s, w', clock' := Settled(w), Next(w, Act(edit)), ClockAfter(clock, edit);
    EditIncoming(w, edit);
    EarlyEdit(w.ui, Incoming(w), edit, s.disk[s.current.value]);
    EditChronological(ArrivedUi(w), edit, clock);
    SameOrder(ArrivedUi(w), ArrivedUi(w), clock, clock');
    SameOrder(Late(w.ui, Incoming(w), edit), ArrivedUi(w'), clock', clock');
    SameOrder(ArrivedUi(w), ArrivedUi(w'), clock, clock');
    EditSettles(w, edit);
    EditWhileArriving(w, edit);
    EditPath(w.ui, edit);
    ListedRowsTimely(ArrivedUi(w'), Settled(w').disk[s.current.value], clock');
  }

  lemma SameOrder(a: Ui, b: Ui, clock: int, clock': int)
    requires Chronological(a, clock) && clock <= clock'
    ensures a.entries == b.entries ==> Chronological(b, clock')
  {
  }

  lemma NoPathOrderly(w: World, edit: Edit, clock: int)
    requires Consistent(w) && Allowed(w, Act(edit)) && !edit.SwitchTo? && w.ui.phase == NoDatabase
    requires Orderly(w, clock) && clock <= ClockAfter(clock, edit)
    ensures Orderly(Next(w, Act(edit)), ClockAfter(clock, edit))
  {
    EditConsistent(w, edit);
    EditPath(w.ui, edit);
    NothingIncoming(w);
    NothingIncoming(Next(w, Act(edit)));
    EditIncoming(w, edit);
    NothingStored(Settled(w), PostedBy(w.ui, edit));
    EditChronological(w.ui, edit, clock);
  }

  /** What a fetch brings is newest first and not later than what the file knows. */
  lemma FetchChronological(ui: Ui, file: Db, clock: int)
    requires ui.entries == [] && TimelyRows(file.history, clock)
    ensures Chronological(ReceivedAll(ui, FetchEvents(file)), clock)
  {
    var fetched := ReceivedAll(ui, FetchEvents(file)).entries;
    FetchArrives(ui, file);
    ArrivalsAreCut(ui, FetchEvents(file));
    SortedRowsSortedEntries(fetched);
    PermutedElements(SortByVisit(file.history), file.history);
    forall e | e in fetched ensures e.lastVisit <= clock {
      var i :| 0 <= i < |fetched| && fetched[i] == e;
      assert RowsOf(fetched)[i] in SortByVisit(file.history);
      assert Truncated(fetched)[i] == e;
    }
  }

  lemma NoOldRows(w: World, path: string)
    requires Consistent(w) && Allowed(w, Act(SwitchTo(path))) && path != w.ui.path
    ensures ReceivedAll(PathSet(w.ui, path), Incoming(w)).entries == []
  {
    if w.ui.phase == NoDatabase {
      NothingIncoming(w);
    }
    ArrivalsAppend(PathSet(w.ui, path), Incoming(w));
    ArrivalsExist({}, Incoming(w));
  }

  lemma OpenedTimely(w: World, path: string, clock: int)
    requires Timely(Settled(w).disk, clock)
    ensures TimelyRows(Opens(w, SwitchTo(path)).history, clock)
    ensures Timely(Through(Settled(w), ResetDatabase(DatabaseName(path))).disk, clock)
  {
  }

  lemma OpenedChronological(w: World, path: string, clock: int)
    requires Consistent(w) && Allowed(w, Act(SwitchTo(path))) && path != w.ui.path
    requires Timely(Settled(w).disk, clock)
    ensures
      Chronological(ReceivedAll(PathSet(w.ui, path), Incoming(w) + FetchEvents(Opens(w, SwitchTo(path)))), clock)
  {
    var file, ui' := Opens(w, SwitchTo(path)), PathSet(w.ui, path);
    NoOldRows(w, path);
    OpenedTimely(w, path, clock);
    ReceivedAllAppend(ui', Incoming(w), FetchEvents(file));
    FetchChronological(ReceivedAll(ui', Incoming(w)), file, clock);
  }

  lemma SwitchOrderly(w: World, path: string, clock: int)
    requires Consistent(w) && Allowed(w, Act(SwitchTo(path))) && Orderly(w, clock) && path != w.ui.path
    ensures Orderly(Next(w, Act(SwitchTo(path))), clock)
  {
    SwitchSettles(w, path);
    OpenedTimely(w, path, clock);
    OpenedChronological(w, path, clock);
    assert Next(w, Act(SwitchTo(path))).ui == PathSet(w.ui, path);
  }

  lemma QuietArrives(w: World, step: Step)
    requires Consistent(w) && Possible(w, step) && IsQuiet(step)
    ensures ArrivedUi(Next(w, step)).entries == ArrivedUi(w).entries
  {
    if w.ui.phase == NoDatabase {
      QuietNoPath(w, step);
      NothingIncoming(w);
      NothingIncoming(Next(w, step));
    } else {
      QuietStep(w, step);
    }
  }

  lemma QuietOrderly(w: World, step: Step, clock: int)
    requires Consistent(w) && Possible(w, step) && IsQuiet(step) && Orderly(w, clock)
    ensures Orderly(Next(w, step), clock)
  {
    QuietArrives(w, step);
    StepIsWriteThrough(w, step);
    SameOrder(ArrivedUi(w), ArrivedUi(Next(w, step)), clock, clock);
  }

  lemma ActOrderly(w: World, edit: Edit, clock: int)
    requires Consistent(w) && Allowed(w, Act(edit)) && Orderly(w, clock) && clock <= ClockAfter(clock, edit)
    ensures Orderly(Next(w, Act(edit)), ClockAfter(clock, edit))
  {
    if edit.SwitchTo? {
      if edit.path != w.ui.path {
        SwitchOrderly(w, edit.path, clock);
      }
    } else if w.ui.phase == NoDatabase {
      NoPathOrderly(w, edit, clock);
    } else {
      EditOrderly(w, edit, clock);
    }
  }

  lemma StepOrderly(w: World, step: Step, clock: int)
    requires Consistent(w) && Allowed(w, step) && Orderly(w, clock) && clock <= StepClock(clock, step)
    ensures Orderly(Next(w, step), StepClock(clock, step))
  {
    match step
    case Act(edit) => ActOrderly(w, edit, clock);
    case WorkerEnds => ArrivedSoFar(w, clock);
    case _ => QuietOrderly(w, step, clock);
  }

  lemma {:induction false} RunOrderly(w: World, steps: seq<Step>, clock: int)
    requires Consistent(w) && AllowedRun(w, steps) && Orderly(w, clock) && ClockForward(clock, steps)
    ensures VisitedNewestFirst(EndOf(w, steps).ui.entries)
    decreases |steps|
  {
    if steps == [] {
      if w.stage != Ended {
        ArrivedSoFar(w, clock);
      }
    } else {
      StepConsistent(w, steps[0]);
      StepOrderly(w, steps[0], clock);
      RunOrderly(Next(w, steps[0]), steps[1..], StepClock(clock, steps[0]));
    }
  }

  /** Over every run of harmless edits, with fetches and switches anywhere: for as long as the clock does not go back
      and no file is ahead of it, the list is sorted in every state, most recent visit first. */
  lemma ListStaysChronological(utcOffset: int, disk: map<string, Db>, steps: seq<Step>, clock: int)
    requires GoodDisk(disk) && AllowedRun(Start(utcOffset, disk), steps)
    requires Timely(disk, clock) && ClockForward(clock, steps)
    ensures VisitedNewestFirst(EndOf(Start(utcOffset, disk), steps).ui.entries)
  {
    NothingIncoming(Start(utcOffset, disk));
    RunOrderly(Start(utcOffset, disk), steps, clock);
  }

  // ---- Visits ----

  /** Whether an edit drops the entry of a url. */
  predicate Forgets(ui: Ui, edit: Edit, url: string) {
    var index := IndexOf(ui.entries, url);
    match edit
    case ForgetUrl(u) => u == url
    case ForgetDay(Day(day)) => index != -1 && LocalDay(ui.entries[index].lastVisit, ui.utcOffset) == day
    case ForgetDomain(domain) => index != -1 && domain != "" && ui.entries[index].domain == domain
    case ForgetAll => true
    case SwitchTo(path) => path != ui.path
    case _ => false
  }

  ghost predicate UrlsDistinct(entries: seq<Entry>) {
    forall i, j :: 0 <= i < j < |entries| ==> entries[i].url != entries[j].url
  }

  /** On distinct urls the recorded visits of a url are decided by membership alone. */
  lemma VisitsByMembership(a: seq<Entry>, b: seq<Entry>, url: string)
    requires UrlsDistinct(a) && UrlsDistinct(b)
    requires forall e: Entry :: e.url == url ==> (e in a <==> e in b)
    ensures VisitsOf(a, url) == VisitsOf(b, url)
  {
    var i, j := IndexOf(a, url), IndexOf(b, url);
    assert i != -1 ==> a[i] in b;
    assert j != -1 ==> b[j] in a;
  }

  lemma VisitsOfMember(entries: seq<Entry>, e: Entry)
    requires UrlsDistinct(entries) && e in entries
    ensures IndexOf(entries, e.url) != -1 && entries[IndexOf(entries, e.url)] == e
    ensures VisitsOf(entries, e.url) == e.visits
  {
    var i :| 0 <= i < |entries| && entries[i] == e;
  }

  lemma RemovedMembers(entries: seq<Entry>, index: int)
    requires UrlsDistinct(entries) && -1 <= index < |entries|
    ensures UrlsDistinct(Removed(entries, index))
    ensures forall e :: e in Removed(entries, index)
                   <==> e in entries && (index != -1 ==> e.url != entries[index].url)
  {
    if index != -1 {
      RemovedStaysDistinct(entries, index);
      OthersRemain(entries, index);
      RemovedAreOthers(entries, index);
    }
  }

  lemma RemovedStaysDistinct(entries: seq<Entry>, index: nat)
    requires UrlsDistinct(entries) && index < |entries|
    ensures UrlsDistinct(Removed(entries, index))
  {
    var left := Removed(entries, index);
    forall i, j | 0 <= i < j < |left| ensures left[i].url != left[j].url {
      var p, q := if i < index then i else i + 1, if j < index then j else j + 1;
      assert entries[p].url != entries[q].url;
    }
  }

  lemma RemovedAreOthers(entries: seq<Entry>, index: nat)
    requires UrlsDistinct(entries) && index < |entries|
    ensures forall e :: e in Removed(entries, index) ==> e in entries && e.url != entries[index].url
  {
    var left := Removed(entries, index);
    forall e | e in left ensures e in entries && e.url != entries[index].url {
      var i :| 0 <= i < |left| && left[i] == e;
      assert entries[if i < index then i else i + 1] == e;
    }
  }

  lemma OthersRemain(entries: seq<Entry>, index: nat)
    requires index < |entries|
    ensures forall e :: e in entries && e.url != entries[index].url ==> e in Removed(entries, index)
  {
    var left := Removed(entries, index);
    forall e | e in entries && e.url != entries[index].url ensures e in left {
      var i :| 0 <= i < |entries| && entries[i] == e;
      assert left[if i < index then i else i - 1] == e;
    }
  }

  lemma {:induction false} KeptMembers(entries: seq<Entry>, sel: Selector, utcOffset: int)
    requires UrlsDistinct(entries)
    ensures UrlsDistinct(Kept(entries, sel, utcOffset))
    ensures forall e :: e in Kept(entries, sel, utcOffset) <==> e in entries && !Selects(e, sel, utcOffset)
  {
    if entries != [] {
      var rest := entries[1..];
      var kept := Kept(rest, sel, utcOffset);
      KeptMembers(rest, sel, utcOffset);
      forall i | 0 <= i < |kept| ensures kept[i].url != entries[0].url {
        assert kept[i] in kept;
        var j :| 0 <= j < |rest| && rest[j] == kept[i];
        assert entries[j + 1] == rest[j];
      }
      assert entries == [entries[0]] + rest;
    }
  }

  lemma KeptVisits(entries: seq<Entry>, sel: Selector, utcOffset: int, url: string)
    requires UrlsDistinct(entries)
    ensures UrlsDistinct(Kept(entries, sel, utcOffset))
    ensures
      var index := IndexOf(entries, url);
      VisitsOf(Kept(entries, sel, utcOffset), url)
        == if index != -1 && Selects(entries[index], sel, utcOffset) then 0 else VisitsOf(entries, url)
  {
    KeptMembers(entries, sel, utcOffset);
    var kept := Kept(entries, sel, utcOffset);
    var index := IndexOf(entries, url);
    if index != -1 && Selects(entries[index], sel, utcOffset) {
      forall e | e in kept ensures e.url != url {
        if e.url == url {
          VisitsOfMember(entries, e);
        }
      }
    } else {
      forall e: Entry | e.url == url ensures e in entries <==> e in kept {
        if e in entries {
          VisitsOfMember(entries, e);
        }
      }
      VisitsByMembership(entries, kept, url);
    }
  }

  lemma RemovedVisits(entries: seq<Entry>, u: string, url: string)
    requires UrlsDistinct(entries)
    ensures
      var left := Removed(entries, IndexOf(entries, u));
      UrlsDistinct(left) && IndexOf(left, u) == -1 &&
      VisitsOf(left, url) == if u == url then 0 else VisitsOf(entries, url)
  {
    var index := IndexOf(entries, u);
    var left := Removed(entries, index);
    var k := IndexOf(left, u);
    assert k != -1 ==> left[k] in left;
    RemovedMembers(entries, index);
    if u != url {
      VisitsByMembership(entries, left, url);
    }
  }

  lemma FrontVisits(e: Entry, rest: seq<Entry>, url: string)
    ensures VisitsOf([e] + rest, url) == if e.url == url then e.visits else VisitsOf(rest, url)
  {
    assert ([e] + rest)[1..] == rest;
  }

  lemma AddedVisits(ui: Ui, visit: Edit, url: string)
    requires UrlsDistinct(ui.entries) && visit.Visit? && visit.url != ""
    ensures UrlsDistinct(Edited(ui, visit).entries)
    ensures VisitsOf(Edited(ui, visit).entries, url)
         == VisitsOf(ui.entries, url) + if visit.url == url then 1 else 0
  {
    var left := Removed(ui.entries, IndexOf(ui.entries, visit.url));
    RemovedVisits(ui.entries, visit.url, url);
    var first := AddedFirst(ui, visit);
    FrontVisits(first, left, url);
    FrontDistinct(first, left);
  }

  /** A visit puts one entry in front of the others. */
  lemma AddedFirst(ui: Ui, visit: Edit) returns (first: Entry)
    requires visit.Visit? && visit.url != ""
    ensures first.url == visit.url && first.visits == VisitsOf(ui.entries, visit.url) + 1
    ensures Edited(ui, visit).entries == [first] + Removed(ui.entries, IndexOf(ui.entries, visit.url))
  {
    first := Edited(ui, visit).entries[0];
  }

  lemma FrontDistinct(first: Entry, rest: seq<Entry>)
    requires UrlsDistinct(rest) && IndexOf(rest, first.url) == -1
    ensures UrlsDistinct([first] + rest)
  {
  }

  lemma SameUrlsSameVisits(a: seq<Entry>, b: seq<Entry>, url: string)
    requires |a| == |b| && UrlsDistinct(a)
    requires forall i :: 0 <= i < |a| ==> a[i].url == b[i].url && a[i].visits == b[i].visits
    ensures UrlsDistinct(b) && VisitsOf(a, url) == VisitsOf(b, url)
  {
    var i, j := IndexOf(a, url), IndexOf(b, url);
    assert i != -1 ==> b[i].url == url;
    assert j != -1 ==> a[j].url == url;
  }

  /** One edit: a visit of the url counts, an edit that forgets it starts again at 0, nothing else matters. */
  lemma EditVisits(ui: Ui, edit: Edit, url: string)
    requires UrlsDistinct(ui.entries) && url != ""
    ensures UrlsDistinct(Edited(ui, edit).entries)
    ensures VisitsOf(Edited(ui, edit).entries, url) ==
      if edit.Visit? && edit.url == url then VisitsOf(ui.entries, url) + 1
      else if Forgets(ui, edit, url) then 0
      else VisitsOf(ui.entries, url)
  {
    match edit
    case Visit(u, _, _, _, _) =>
      if u != "" {
        AddedVisits(ui, edit, url);
      }
    case Retitle(_, _, _) => SameUrlsSameVisits(ui.entries, Edited(ui, edit).entries, url);
    case ForgetUrl(u) => RemovedVisits(ui.entries, u, url);
    case ForgetDay(date) =>
      if date.Day? {
        KeptVisits(ui.entries, OnDay(date.number), ui.utcOffset, url);
      }
    case ForgetDomain(domain) => KeptVisits(ui.entries, InDomain(domain), ui.utcOffset, url);
    case ForgetAll =>
    case Hide(_) => SameUrlsSameVisits(ui.entries, Edited(ui, edit).entries, url);
    case UnHide(_) => SameUrlsSameVisits(ui.entries, Edited(ui, edit).entries, url);
    case SwitchTo(_) =>
  }

  // ---- Visits over whole runs ----

  /** The visits of a url that a run makes. */
  function VisitCount(steps: seq<Step>, url: string): nat {
    if steps == [] then 0
    else
      (if steps[0].Act? && steps[0].edit.Visit? && steps[0].edit.url == url then 1 else 0) + VisitCount(steps[1..], url)
  }

  /** No edit of the run drops the entry of the url, now listed or still to arrive. */
  ghost predicate NeverForgets(w: World, steps: seq<Step>, url: string)
    requires AllowedRun(w, steps)
    decreases |steps|
  {
    steps == [] ||
    ((steps[0].Act? ==> !Forgets(ArrivedUi(w), steps[0].edit, url)) && NeverForgets(Next(w, steps[0]), steps[1..], url))
  }

  /** The visits the list will show for a url when everything has arrived. */
  function ArrivedVisits(w: World, url: string): nat {
    VisitsOf(ArrivedUi(w).entries, url)
  }

  lemma EditCounts(w: World, edit: Edit, url: string)
    requires Consistent(w) && Allowed(w, Act(edit)) && !edit.SwitchTo? && w.ui.phase != NoDatabase
    requires UrlsDistinct(ArrivedUi(w).entries) && url != "" && !Forgets(ArrivedUi(w), edit, url)
    ensures UrlsDistinct(ArrivedUi(Next(w, Act(edit))).entries)
    ensures ArrivedVisits(Next(w, Act(edit)), url)
         == ArrivedVisits(w, url) + if edit.Visit? && edit.url == url then 1 else 0
  {
    var s := Settled(w);
    EditIncoming(w, edit);
    EditVisits(ArrivedUi(w), edit, url);
    if edit.Visit? {
      EarlyVisit(w.ui, Incoming(w), edit, s.disk[s.current.value]);
    } else {
      EarlyEdit(w.ui, Incoming(w), edit, s.disk[s.current.value]);
    }
  }

  lemma NoPathCounts(w: World, edit: Edit, url: string)
    requires Consistent(w) && Allowed(w, Act(edit)) && !edit.SwitchTo? && w.ui.phase == NoDatabase
    requires UrlsDistinct(ArrivedUi(w).entries) && url != "" && !Forgets(ArrivedUi(w), edit, url)
    ensures UrlsDistinct(ArrivedUi(Next(w, Act(edit))).entries)
    ensures ArrivedVisits(Next(w, Act(edit)), url)
         == ArrivedVisits(w, url) + if edit.Visit? && edit.url == url then 1 else 0
  {
    EditConsistent(w, edit);
    EditPath(w.ui, edit);
    NothingIncoming(w);
    NothingIncoming(Next(w, Act(edit)));
    EditVisits(w.ui, edit, url);
  }

  lemma SwitchingToSame(w: World, edit: Edit, url: string)
    requires edit.SwitchTo? && Possible(w, Act(edit)) && !Forgets(ArrivedUi(w), edit, url)
    ensures Next(w, Act(edit)) == w
  {
    ArrivalsAppend(w.ui, Incoming(w));
  }

  lemma StepCounts(w: World, step: Step, url: string)
    requires Consistent(w) && Allowed(w, step) && !step.WorkerEnds?
    requires UrlsDistinct(ArrivedUi(w).entries) && url != ""
    requires step.Act? ==> !Forgets(ArrivedUi(w), step.edit, url)
    ensures UrlsDistinct(ArrivedUi(Next(w, step)).entries)
    ensures ArrivedVisits(Next(w, step), url)
         == ArrivedVisits(w, url) + if step.Act? && step.edit.Visit? && step.edit.url == url then 1 else 0
  {
    if step.Act? {
      if step.edit.SwitchTo? {
        SwitchingToSame(w, step.edit, url);
      } else if w.ui.phase == NoDatabase {
        NoPathCounts(w, step.edit, url);
      } else {
        EditCounts(w, step.edit, url);
      }
    } else {
      QuietArrives(w, step);
    }
  }

  /** Over every run of harmless edits that never forgets the url: its visits are those of the start, in the list or
      on their way to it, and one for every add of the run. */
  lemma {:induction false} VisitsAccumulate(w: World, steps: seq<Step>, url: string)
    requires Consistent(w) && AllowedRun(w, steps) && EndOf(w, steps).stage != Ended
    requires UrlsDistinct(ArrivedUi(w).entries) && url != "" && NeverForgets(w, steps, url)
    ensures UrlsDistinct(ArrivedUi(EndOf(w, steps)).entries)
    ensures ArrivedVisits(EndOf(w, steps), url) == ArrivedVisits(w, url) + VisitCount(steps, url)
    decreases |steps|
  {
    if steps != [] {
      if !steps[0].WorkerEnds? {
        StepConsistent(w, steps[0]);
        StepCounts(w, steps[0], url);
        VisitsAccumulate(Next(w, steps[0]), steps[1..], url);
      }
    }
  }

  /** A harmless edit that forgets a listed url does to the list to come what it does to the list. */
  lemma ForgetIsLate(ui: Ui, events: seq<UiEvent>, forget: Edit, url: string, db: Db)
    requires !forget.SwitchTo? && InStep(ReceivedAll(ui, events), db) && Harmless(ui, events, forget, db)
    requires url != "" && IndexOf(ui.entries, url) != -1 && Forgets(ui, forget, url)
    ensures Early(ui, events, forget).entries == Late(ui, events, forget).entries
    ensures Forgets(ReceivedAll(ui, events), forget, url)
  {
    var listed := ui.entries[IndexOf(ui.entries, url)];
    ArrivalsAppend(ui, events);
    IndexInAppend(ui.entries, Arrivals(ui.hiddenEntries, events), url);
    assert listed in ui.entries;
    match forget
    case ForgetUrl(_) => EarlyForgetUrl(ui, events, forget, db);
    case ForgetDay(Day(day)) =>
      assert Selects(listed, OnDay(day), ui.utcOffset);
      EarlyForgetSelected(ui, events, OnDay(day), forget, db);
    case ForgetDomain(domain) => EarlyForgetSelected(ui, events, InDomain(domain), forget, db);
    case ForgetAll => EarlyForgetAll(ui, events, db);
  }

  lemma ForgetCounts(w: World, forget: Edit, url: string)
    requires Consistent(w) && w.ui.phase != NoDatabase && Allowed(w, Act(forget))
    requires url != "" && !forget.SwitchTo? && Forgets(w.ui, forget, url)
    requires IndexOf(w.ui.entries, url) != -1 || IndexOf(ArrivedUi(w).entries, url) == -1
    ensures UrlsDistinct(ArrivedUi(Next(w, Act(forget))).entries)
    ensures ArrivedVisits(Next(w, Act(forget)), url) == 0
  {
    var db := Settled(w).disk[Settled(w).current.value];
    ListedUrlsDistinct(ArrivedUi(w));
    EditIncoming(w, forget);
    EditVisits(ArrivedUi(w), forget, url);
    HarmlessIgnoresFile(w.ui, Incoming(w), forget, Opens(w, forget), db);
    if IndexOf(w.ui.entries, url) != -1 {
      ForgetIsLate(w.ui, Incoming(w), forget, url, db);
    } else {
      EarlyEdit(w.ui, Incoming(w), forget, db);
    }
  }

  /** The recorded visits of a url: the adds since a harmless edit that last forgot it, made when the url was listed
      or not on its way to the list. */
  lemma VisitsSinceForgotten(w: World, forget: Edit, steps: seq<Step>, url: string)
    requires Consistent(w) && w.ui.phase != NoDatabase && Allowed(w, Act(forget))
    requires url != "" && !forget.SwitchTo? && Forgets(w.ui, forget, url)
    requires IndexOf(w.ui.entries, url) != -1 || IndexOf(ArrivedUi(w).entries, url) == -1
    requires
      var w' := Next(w, Act(forget));
      AllowedRun(w', steps) && EndOf(w', steps).stage != Ended && NeverForgets(w', steps, url)
    ensures ArrivedVisits(EndOf(Next(w, Act(forget)), steps), url) == VisitCount(steps, url)
  {
    ForgetCounts(w, forget, url);
    StepConsistent(w, Act(forget));
    VisitsAccumulate(Next(w, Act(forget)), steps, url);
  }

  lemma ListedUrlsDistinct(ui: Ui)
    ensures DistinctUrls(RowsOf(ui.entries)) ==> UrlsDistinct(ui.entries)
  {
    forall i, j | 0 <= i < j < |ui.entries| && DistinctUrls(RowsOf(ui.entries))
      ensures ui.entries[i].url != ui.entries[j].url
    {
      assert RowsOf(ui.entries)[i].url != RowsOf(ui.entries)[j].url;
    }
  }
}
