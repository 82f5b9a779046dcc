/** Why edits wait for loaded(): what each edit does while signals are still on their way. */
module HistoryLoading {
  import opened Calendar
  import opened Collections
  import opened HistoryDb
  import opened HistoryUi
  import opened HistorySync
  import opened HistoryProtocol
  import opened HistoryConsistency

  /** Whether the fetch still has news about a url that the list does not know yet. */
  predicate NewsComing(ui: Ui, events: seq<UiEvent>, url: string) {
    && IndexOf(ui.entries, url) == -1
    && (IndexOf(Arrivals(ui.hiddenEntries, events), url) != -1
        || (url !in ui.hiddenEntries && url in HiddenAfter(ui.hiddenEntries, events)))
  }

  /** When an edit made before the given signals arrive leaves list and file in step. The last argument is the file
      that a switch opens. */
  ghost predicate Harmless(ui: Ui, events: seq<UiEvent>, edit: Edit, opening: Db) {
    match edit
    case Visit(url, _, _, domain, _) =>
      url == "" || (!NewsComing(ui, events, url) && (domain != "" || IndexOf(ui.entries, url) != -1))
    case Retitle(_, _, _) => true
    case ForgetUrl(url) => url == "" || IndexOf(Arrivals(ui.hiddenEntries, events), url) == -1
    case ForgetDay(NoDate) => true
    case ForgetDay(Day(day)) =>
      if StraddlesEpoch(day, ui.utcOffset) then NoneSelected(ui.entries, OnDay(day), ui.utcOffset)
      else NoneSelected(Arrivals(ui.hiddenEntries, events), OnDay(day), ui.utcOffset)
    case ForgetDomain(domain) =>
      domain == "" || NoneSelected(Arrivals(ui.hiddenEntries, events), InDomain(domain), ui.utcOffset)
    case ForgetAll => ui.entries == [] || forall event :: event in events ==> event == Loaded
    case Hide(_) => true
    case UnHide(url) => url == "" || url !in ui.hiddenEntries || HiddenFetched(url) !in events
    case SwitchTo(path) =>
      path == ui.path || BringsNothing(events, opening)
  }

  /** Signals of an earlier fetch that bring no row and no hidden url beyond those of the file. */
  ghost predicate BringsNothing(events: seq<UiEvent>, file: Db) {
    forall event :: event in events ==> !event.EntryFetched? && (event.HiddenFetched? ==> event.url in file.hidden)
  }

  ghost predicate NoneSelected(entries: seq<Entry>, sel: Selector, utcOffset: int) {
    forall e :: e in entries ==> !Selects(e, sel, utcOffset)
  }

  /** The file after the operations of an edit. */
  function FileAfter(ui: Ui, edit: Edit, db: Db): Db
    requires !edit.SwitchTo?
  {
    EditPosts(ui, edit);
    ApplyAll(db, Operations(PostedBy(ui, edit)))
  }

  lemma OnePosted(ui: Ui, edit: Edit, db: Db)
    requires !edit.SwitchTo? && |PostedBy(ui, edit)| == 1
    ensures PostedBy(ui, edit)[0].Enqueue? && FileAfter(ui, edit, db) == Apply(db, PostedBy(ui, edit)[0].op)
  {
    EditPosts(ui, edit);
    OneOperation(db, PostedBy(ui, edit));
  }

  lemma NonePosted(ui: Ui, edit: Edit, db: Db)
    requires !edit.SwitchTo? && PostedBy(ui, edit) == []
    ensures FileAfter(ui, edit, db) == db
  {
  }

  /** The list of an early edit, and the list of the edit made when everything has arrived. */
  function Early(ui: Ui, events: seq<UiEvent>, edit: Edit): Ui {
    ReceivedAll(Edited(ui, edit), events)
  }

  function Late(ui: Ui, events: seq<UiEvent>, edit: Edit): Ui {
    Edited(ReceivedAll(ui, events), edit)
  }

  // ---- Visits ----

  lemma IndexInAppend(a: seq<Entry>, b: seq<Entry>, url: string)
    ensures IndexOf(a, url) != -1 ==> IndexOf(a + b, url) == IndexOf(a, url)
    ensures IndexOf(a, url) == -1 && IndexOf(b, url) == -1 ==> IndexOf(a + b, url) == -1
  {
    var i, k := IndexOf(a, url), IndexOf(a + b, url);
    if i != -1 {
      assert (a + b)[i] == a[i];
      assert forall m :: 0 <= m < i ==> (a + b)[m] == a[m];
    }
  }

  /** An early visit of a known url edits the same entry a late one would. */
  lemma EarlyVisitOfKnown(ui: Ui, tail: seq<Entry>, visit: Edit)
    requires visit.Visit? && visit.url != "" && IndexOf(ui.entries, visit.url) != -1
    ensures Edited(ui.(entries := ui.entries + tail), visit).entries == Edited(ui, visit).entries + tail
  {
    var index := IndexOf(ui.entries, visit.url);
    IndexInAppend(ui.entries, tail, visit.url);
    assert Removed(ui.entries + tail, index) == Removed(ui.entries, index) + tail;
  }

  lemma FirstVisit(ui: Ui, visit: Edit)
    requires visit.Visit? && visit.url != "" && IndexOf(ui.entries, visit.url) == -1
    ensures Edited(ui, visit).entries == [NewEntry(visit, visit.url in ui.hiddenEntries)] + ui.entries
  {
  }

  function NewEntry(visit: Edit, hidden: bool): Entry
    requires visit.Visit?
  {
    Entry(visit.url, visit.domain, visit.title, visit.icon, 1, visit.now, hidden)
  }

  /** An early visit of a url without news coming makes the entry a late one would. */
  lemma EarlyVisitWithoutNews(ui: Ui, arrived: Ui, tail: seq<Entry>, visit: Edit)
    requires visit.Visit? && visit.url != "" && arrived.entries == ui.entries + tail
    requires IndexOf(ui.entries, visit.url) == -1 && IndexOf(tail, visit.url) == -1
    requires visit.url in ui.hiddenEntries <==> visit.url in arrived.hiddenEntries
    ensures Edited(arrived, visit).entries == Edited(ui, visit).entries + tail
  {
    IndexInAppend(ui.entries, tail, visit.url);
    FirstVisit(ui, visit);
    FirstVisit(arrived, visit);
    PrependAppend(NewEntry(visit, visit.url in ui.hiddenEntries), ui.entries, tail);
  }

  lemma PrependAppend(e: Entry, a: seq<Entry>, b: seq<Entry>)
    ensures [e] + (a + b) == ([e] + a) + b
  {
  }

  lemma EarlyVisitHarmless(ui: Ui, events: seq<UiEvent>, visit: Edit)
    requires visit.Visit? && visit.url != "" && !NewsComing(ui, events, visit.url)
    ensures
      Early(ui, events, visit).entries == Late(ui, events, visit).entries &&
      Early(ui, events, visit).hiddenEntries == Late(ui, events, visit).hiddenEntries
    ensures PostedBy(ReceivedAll(ui, events), visit) == PostedBy(ui, visit)
  {
    var tail := Arrivals(ui.hiddenEntries, events);
    var hidden := HiddenAfter(ui.hiddenEntries, events);
    var arrived := ReceivedAll(ui, events);
    ArrivalsAppend(ui, events);
    ArrivalsAppend(Edited(ui, visit), events);
    HiddenGrows(ui.hiddenEntries, events);
    IndexInAppend(ui.entries, tail, visit.url);
    if IndexOf(ui.entries, visit.url) != -1 {
      EarlyVisitOfKnown(ui, tail, visit);
    } else {
      EarlyVisitWithoutNews(ui, arrived, tail, visit);
    }
  }

  /** With news coming, the early entry is followed by another of the same url or has the wrong hidden flag; without
      a domain its row is not one the list can have written. */
  lemma EarlyVisitHarms(ui: Ui, events: seq<UiEvent>, visit: Edit, db: Db)
    requires visit.Visit? && !Harmless(ui, events, visit, db)
    ensures !InStep(Early(ui, events, visit), db)
  {
    var tail, early := Arrivals(ui.hiddenEntries, events), Early(ui, events, visit);
    ArrivalsAppend(Edited(ui, visit), events);
    assert early.entries[0].url == visit.url && early.entries[0].hidden == (visit.url in ui.hiddenEntries);
    assert RowsOf(early.entries)[0] in RowsOf(early.entries);
    if IndexOf(ui.entries, visit.url) == -1 && IndexOf(tail, visit.url) != -1 {
      var k := 1 + |ui.entries| + IndexOf(tail, visit.url);
      assert early.entries[k].url == visit.url;
      assert RowsOf(early.entries)[0].url == RowsOf(early.entries)[k].url;
    }
  }

  lemma EarlyVisit(ui: Ui, events: seq<UiEvent>, visit: Edit, db: Db)
    requires visit.Visit? && InStep(ReceivedAll(ui, events), db)
    ensures InStep(Early(ui, events, visit), FileAfter(ui, visit, db)) <==> Harmless(ui, events, visit, db)
    ensures Harmless(ui, events, visit, db) ==> Early(ui, events, visit).entries == Late(ui, events, visit).entries
  {
    var arrived := ReceivedAll(ui, events);
    if visit.url == "" {
      NonePosted(ui, visit, db);
    } else if Harmless(ui, events, visit, db) {
      EarlyVisitHarmless(ui, events, visit);
      ArrivalsAppend(ui, events);
      IndexInAppend(ui.entries, Arrivals(ui.hiddenEntries, events), visit.url);
      VisitInStep(arrived, db, visit.url, visit.title, visit.icon, visit.domain, visit.now);
      SameListInStep(Late(ui, events, visit), Early(ui, events, visit), FileAfter(ui, visit, db));
    } else {
      EarlyVisitHarms(ui, events, visit, FileAfter(ui, visit, db));
    }
  }

  // ---- Titles ----

  lemma UpdateAppend(a: seq<Entry>, b: seq<Entry>, index: nat, e: Entry)
    requires index < |a|
    ensures (a + b)[index := e] == a[index := e] + b
  {
  }

  lemma EarlyRetitle(ui: Ui, events: seq<UiEvent>, retitle: Edit, db: Db)
    requires retitle.Retitle? && InStep(ReceivedAll(ui, events), db)
    ensures InStep(Early(ui, events, retitle), FileAfter(ui, retitle, db))
    ensures
      Early(ui, events, retitle).entries
        == if PostedBy(ui, retitle) == [] then ReceivedAll(ui, events).entries else Late(ui, events, retitle).entries
  {
    if UpdateApplies(ui, retitle.url, retitle.title, retitle.icon) {
      var arrived, tail := ReceivedAll(ui, events), Arrivals(ui.hiddenEntries, events);
      var index := IndexOf(ui.entries, retitle.url);
      ArrivalsAppend(ui, events);
      ArrivalsAppend(Edited(ui, retitle), events);
      IndexInAppend(ui.entries, tail, retitle.url);
      UpdateAppend(ui.entries, tail, index, Edited(ui, retitle).entries[index]);
      RetitleInStep(arrived, db, retitle.url, retitle.title, retitle.icon);
      SameListInStep(Late(ui, events, retitle), Early(ui, events, retitle), FileAfter(ui, retitle, db));
    } else {
      NonePosted(ui, retitle, db);
    }
  }

  // ---- Removals ----

  /** A row that is still to arrive and that the statement deletes ends up in the list only. */
  lemma LateRowIsMissed(early: Ui, db: Db, op: Op, k: nat)
    requires k < |early.entries| && Deletes(op, RowOf(early.entries[k]))
    ensures !InStep(early, db.(history := DeleteWhere(db.history, op)))
  {
    DeletedRows(db.history, op);
    assert RowsOf(early.entries)[k] in RowsOf(early.entries);
  }

  lemma ForgottenUrl(ui: Ui, events: seq<UiEvent>, forget: Edit)
    requires forget.ForgetUrl? && forget.url != ""
    ensures
      var tail := Arrivals(ui.hiddenEntries, events);
      && Early(ui, events, forget).entries == Removed(ui.entries, IndexOf(ui.entries, forget.url)) + tail
      && Early(ui, events, forget).hiddenEntries == Late(ui, events, forget).hiddenEntries
      && (IndexOf(tail, forget.url) == -1 ==> Early(ui, events, forget).entries == Late(ui, events, forget).entries)
  {
    ArrivalsAppend(ui, events);
    ArrivalsAppend(Edited(ui, forget), events);
    RemovedFromAppend(ui.entries, Arrivals(ui.hiddenEntries, events), forget.url);
  }

  lemma RemovedFromAppend(a: seq<Entry>, b: seq<Entry>, url: string)
    ensures IndexOf(b, url) == -1 ==> Removed(a + b, IndexOf(a + b, url)) == Removed(a, IndexOf(a, url)) + b
  {
    IndexInAppend(a, b, url);
    var index := IndexOf(a, url);
    assert Removed(a + b, index) == Removed(a, index) + b;
  }

  lemma EarlyForgetUrl(ui: Ui, events: seq<UiEvent>, forget: Edit, db: Db)
    requires forget.ForgetUrl? && InStep(ReceivedAll(ui, events), db)
    ensures InStep(Early(ui, events, forget), FileAfter(ui, forget, db)) <==> Harmless(ui, events, forget, db)
    ensures Harmless(ui, events, forget, db) ==> Early(ui, events, forget).entries == Late(ui, events, forget).entries
  {
    if forget.url == "" {
      NonePosted(ui, forget, db);
    } else {
      var tail, early := Arrivals(ui.hiddenEntries, events), Early(ui, events, forget);
      var k := IndexOf(tail, forget.url);
      OnePosted(ui, forget, db);
      ForgottenUrl(ui, events, forget);
      if k == -1 {
        RemoveByUrlInStep(ReceivedAll(ui, events), db, forget.url);
        SameListInStep(Late(ui, events, forget), early, FileAfter(ui, forget, db));
      } else {
        LateRowIsMissed(early, db, RemoveEntryByUrl(forget.url), |early.entries| - |tail| + k);
      }
    }
  }

  lemma {:induction false} KeptAppend(a: seq<Entry>, b: seq<Entry>, sel: Selector, utcOffset: int)
    ensures Kept(a + b, sel, utcOffset) == Kept(a, sel, utcOffset) + Kept(b, sel, utcOffset)
  {
    if a == [] {
      assert a + b == b;
    } else {
      assert (a + b)[1..] == a[1..] + b;
      KeptAppend(a[1..], b, sel, utcOffset);
    }
  }

  function ForgetSelected(sel: Selector): Edit {
    match sel
    case OnDay(day) => ForgetDay(Day(day))
    case InDomain(domain) => ForgetDomain(domain)
  }

  lemma EarlySelection(ui: Ui, events: seq<UiEvent>, sel: Selector, forget: Edit)
    requires forget == ForgetSelected(sel)
    requires sel.InDomain? ==> sel.domain != ""
    ensures
      var tail := Arrivals(ui.hiddenEntries, events);
      && Early(ui, events, forget).entries == Kept(ui.entries, sel, ui.utcOffset) + tail
      && Early(ui, events, forget).hiddenEntries == ReceivedAll(ui, events).hiddenEntries
      && ReceivedAll(ui, events).entries == ui.entries + tail
      && Late(ui, events, forget).entries
           == Kept(ui.entries, sel, ui.utcOffset) + Kept(tail, sel, ui.utcOffset)
      && PostedBy(ui, forget) == [Enqueue(DeleteOp(sel, ui.utcOffset))]
  {
    ArrivalsAppend(ui, events);
    ArrivalsAppend(Edited(ui, forget), events);
    KeptAppend(ui.entries, Arrivals(ui.hiddenEntries, events), sel, ui.utcOffset);
  }

  /** The day on which the statement matches nothing: what is listed of it disappears from the list only. */
  lemma EarlyEpochDay(ui: Ui, events: seq<UiEvent>, day: int, db: Db)
    requires InStep(ReceivedAll(ui, events), db) && StraddlesEpoch(day, ui.utcOffset)
    ensures
      var forget := ForgetDay(Day(day));
      InStep(Early(ui, events, forget), FileAfter(ui, forget, db)) <==> Harmless(ui, events, forget, db)
    ensures NoneSelected(ui.entries, OnDay(day), ui.utcOffset) ==>
      Early(ui, events, ForgetDay(Day(day))).entries == ReceivedAll(ui, events).entries
  {
    var forget, sel := ForgetDay(Day(day)), OnDay(day);
    EarlySelection(ui, events, sel, forget);
    OnePosted(ui, forget, db);
    EpochDayStatement(db.history, day, ui.utcOffset);
    NothingKeptBack(ui.entries, sel, ui.utcOffset);
    assert FileAfter(ui, forget, db) == db;
    if NoneSelected(ui.entries, sel, ui.utcOffset) {
      SameListInStep(ReceivedAll(ui, events), Early(ui, events, forget), db);
    } else if InStep(Early(ui, events, forget), db) {
      InStepLength(ReceivedAll(ui, events), db);
      InStepLength(Early(ui, events, forget), db);
    }
  }

  lemma InStepLength(ui: Ui, db: Db)
    requires InStep(ui, db)
    ensures |ui.entries| == |db.history|
  {
    assert Distinct(RowsOf(ui.entries)) && Distinct(db.history);
    SameElementsPermute(RowsOf(ui.entries), db.history);
    PermutedElements(RowsOf(ui.entries), db.history);
  }

  lemma EarlyForgetSelected(ui: Ui, events: seq<UiEvent>, sel: Selector, forget: Edit, db: Db)
    requires InStep(ReceivedAll(ui, events), db)
    requires forget == ForgetSelected(sel)
    requires if sel.OnDay? then !StraddlesEpoch(sel.day, ui.utcOffset) else sel.domain != ""
    ensures InStep(Early(ui, events, forget), FileAfter(ui, forget, db)) <==> Harmless(ui, events, forget, db)
    ensures Harmless(ui, events, forget, db) ==> Early(ui, events, forget).entries == Late(ui, events, forget).entries
  {
    var tail := Arrivals(ui.hiddenEntries, events);
    EarlySelection(ui, events, sel, forget);
    OnePosted(ui, forget, db);
    if NoneSelected(tail, sel, ui.utcOffset) {
      NothingKeptBack(tail, sel, ui.utcOffset);
      ArrivalsAppend(ui, events);
      RemoveSelectedInStep(ReceivedAll(ui, events), db, sel);
      SameListInStep(Late(ui, events, forget), Early(ui, events, forget), FileAfter(ui, forget, db));
    } else {
      SelectedRowIsMissed(ui, Early(ui, events, forget), tail, sel, db);
    }
  }

  lemma SelectedRowIsMissed(ui: Ui, early: Ui, tail: seq<Entry>, sel: Selector, db: Db)
    requires sel.OnDay? ==> !StraddlesEpoch(sel.day, ui.utcOffset)
    requires early.entries == Kept(ui.entries, sel, ui.utcOffset) + tail && !NoneSelected(tail, sel, ui.utcOffset)
    ensures !InStep(early, Apply(db, DeleteOp(sel, ui.utcOffset)))
  {
    var e :| e in tail && Selects(e, sel, ui.utcOffset);
    var i :| 0 <= i < |tail| && tail[i] == e;
    SelectorMatchesStatement(e, sel, ui.utcOffset);
    LateRowIsMissed(early, db, DeleteOp(sel, ui.utcOffset), |Kept(ui.entries, sel, ui.utcOffset)| + i);
  }

  lemma EarlyForgetAll(ui: Ui, events: seq<UiEvent>, db: Db)
    requires InStep(ReceivedAll(ui, events), db)
    ensures InStep(Early(ui, events, ForgetAll), FileAfter(ui, ForgetAll, db)) <==> Harmless(ui, events, ForgetAll, db)
    ensures Harmless(ui, events, ForgetAll, db) ==>
      Early(ui, events, ForgetAll).entries
        == if ui.entries == [] then ReceivedAll(ui, events).entries else Late(ui, events, ForgetAll).entries
  {
    if ui.entries == [] {
      NonePosted(ui, ForgetAll, db);
    } else {
      ClearedFile(ui, db);
      ArrivalsAppend(ui, events);
      if forall event :: event in events ==> event == Loaded {
        NothingBrought(ClearedAll(ui), events);
        ClearAllInStep(ReceivedAll(ui, events), db);
        SameListInStep(Late(ui, events, ForgetAll), Early(ui, events, ForgetAll), FileAfter(ui, ForgetAll, db));
      } else {
        DeleteAllRows(db.history);
        SomethingBrought(ClearedAll(ui), events);
      }
    }
  }

  lemma NothingBrought(ui: Ui, events: seq<UiEvent>)
    requires ui.entries == [] && ui.hiddenEntries == {} && forall event :: event in events ==> event == Loaded
    ensures ReceivedAll(ui, events).entries == [] && ReceivedAll(ui, events).hiddenEntries == {}
  {
    ArrivalsAppend(ui, events);
    ArrivalsExist({}, events);
    HiddenBrought({}, events);
  }

  /** An empty file is not in step with a list to which signals bring a row or a hidden url. */
  lemma SomethingBrought(ui: Ui, events: seq<UiEvent>)
    requires !forall event :: event in events ==> event == Loaded
    ensures !InStep(ReceivedAll(ui, events), EMPTY_DB)
  {
    var arrived := ReceivedAll(ui, events);
    var event :| event in events && event != Loaded;
    ArrivalsAppend(ui, events);
    ArrivalsExist(ui.hiddenEntries, events);
    HiddenBrought(ui.hiddenEntries, events);
    if event.EntryFetched? {
      assert RowsOf(arrived.entries)[|ui.entries|] in RowsOf(arrived.entries);
    } else {
      assert event == HiddenFetched(event.url);
      assert event.url in arrived.hiddenEntries;
    }
  }

  /** The two clearing statements run one after the other. */
  lemma ClearedFile(ui: Ui, db: Db)
    requires ui.entries != []
    ensures FileAfter(ui, ForgetAll, db) == Apply(Apply(db, Clear(History)), Clear(HistoryHidden))
  {
    var ops := Operations(PostedBy(ui, ForgetAll));
    var cleared := Apply(db, Clear(History));
    assert ops == [Clear(History)] + [Clear(HistoryHidden)];
    ApplyAllAppend(db, [Clear(History)], [Clear(HistoryHidden)]);
    assert ApplyAll(db, [Clear(History)]) == cleared;
    assert ApplyAll(cleared, [Clear(HistoryHidden)]) == Apply(cleared, Clear(HistoryHidden));
  }

  // ---- Hiding ----

  /** Arrivals are flagged as if the url had been hidden, or shown, all along. */
  lemma {:induction false} ArrivalsMarked(before: set<string>, after: set<string>, events: seq<UiEvent>, url: string)
    requires before - {url} == after - {url}
    requires url in after || HiddenFetched(url) !in events
    ensures Arrivals(after, events) == Marked(Arrivals(before, events), url, url in after)
    decreases |events|
  {
    if events != [] {
      assert events == [events[0]] + events[1..];
      var added := if events[0].HiddenFetched? then {events[0].url} else {};
      assert before + added - {url} == (before - {url}) + added - {url};
      assert after + added - {url} == (after - {url}) + added - {url};
      assert before + {} == before && after + {} == after;
      ArrivalsMarked(before + added, after + added, events[1..], url);
    }
  }

  lemma MarkedAppend(a: seq<Entry>, b: seq<Entry>, url: string, hidden: bool)
    ensures Marked(a + b, url, hidden) == Marked(a, url, hidden) + Marked(b, url, hidden)
  {
  }

  /** Hiding once more what the file hides already. */
  lemma HiddenTwice(ui: Ui, db: Db, url: string)
    requires InStep(ui, db) && url in ui.hiddenEntries
    ensures InStep(ui, Apply(db, InsertNewHiddenEntry(url)))
  {
  }

  /** The list that hiding or showing a url early leads to. */
  lemma EarlyMarks(ui: Ui, events: seq<UiEvent>, edit: Edit, hidden: bool)
    requires if hidden then edit.Hide? else edit.UnHide? && HiddenFetched(edit.url) !in events
    requires PostedBy(ui, edit) != []
    ensures
      var arrived, early := ReceivedAll(ui, events), Early(ui, events, edit);
      && early.entries == Marked(arrived.entries, edit.url, hidden)
      && early.hiddenEntries == if hidden then arrived.hiddenEntries + {edit.url} else arrived.hiddenEntries - {edit.url}
  {
    var url, before := edit.url, ui.hiddenEntries;
    var after := if hidden then before + {url} else before - {url};
    ArrivalsAppend(ui, events);
    ArrivalsAppend(Edited(ui, edit), events);
    ArrivalsMarked(before, after, events, url);
    MarkedAppend(ui.entries, Arrivals(before, events), url, hidden);
    HiddenBrought(before, events);
    HiddenBrought(after, events);
  }

  lemma EarlyHide(ui: Ui, events: seq<UiEvent>, edit: Edit, db: Db)
    requires edit.Hide? && InStep(ReceivedAll(ui, events), db)
    ensures InStep(Early(ui, events, edit), FileAfter(ui, edit, db))
    ensures
      var arrived := ReceivedAll(ui, events);
      Early(ui, events, edit).entries == arrived.entries
      || Early(ui, events, edit).entries == Late(ui, events, edit).entries
  {
    var arrived, early, url := ReceivedAll(ui, events), Early(ui, events, edit), edit.url;
    if PostedBy(ui, edit) == [] {
      NonePosted(ui, edit, db);
    } else {
      OnePosted(ui, edit, db);
      EarlyMarks(ui, events, edit, true);
      if url in arrived.hiddenEntries {
        assert forall i :: 0 <= i < |arrived.entries| ==> early.entries[i] == arrived.entries[i];
        HiddenTwice(arrived, db, url);
        SameListInStep(arrived, early, FileAfter(ui, edit, db));
      } else {
        HideInStep(arrived, db, url);
        SameListInStep(Late(ui, events, edit), early, FileAfter(ui, edit, db));
      }
    }
  }

  lemma EarlyUnHide(ui: Ui, events: seq<UiEvent>, show: Edit, db: Db)
    requires show.UnHide? && InStep(ReceivedAll(ui, events), db)
    ensures InStep(Early(ui, events, show), FileAfter(ui, show, db)) <==> Harmless(ui, events, show, db)
    ensures Harmless(ui, events, show, db) ==>
      Early(ui, events, show).entries
        == if PostedBy(ui, show) == [] then ReceivedAll(ui, events).entries else Late(ui, events, show).entries
  {
    var arrived, early, url := ReceivedAll(ui, events), Early(ui, events, show), show.url;
    if PostedBy(ui, show) == [] {
      NonePosted(ui, show, db);
    } else {
      OnePosted(ui, show, db);
      ArrivalsAppend(ui, events);
      HiddenBrought(ui.hiddenEntries, events);
      if HiddenFetched(url) in events {
        ArrivalsAppend(Edited(ui, show), events);
        HiddenBrought(ui.hiddenEntries - {url}, events);
        assert url in early.hiddenEntries && url !in FileAfter(ui, show, db).hidden;
      } else {
        EarlyMarks(ui, events, show, false);
        HideInStep(arrived, db, url);
        SameListInStep(Late(ui, events, show), early, FileAfter(ui, show, db));
      }
    }
  }

  // ---- Any edit of the list ----

  lemma EarlyForgetDay(ui: Ui, events: seq<UiEvent>, forget: Edit, db: Db)
    requires forget.ForgetDay? && InStep(ReceivedAll(ui, events), db)
    ensures InStep(Early(ui, events, forget), FileAfter(ui, forget, db)) <==> Harmless(ui, events, forget, db)
    ensures Harmless(ui, events, forget, db) ==>
      Early(ui, events, forget).entries == Late(ui, events, forget).entries
      || Early(ui, events, forget).entries == ReceivedAll(ui, events).entries
  {
    if forget.date == NoDate {
      NonePosted(ui, forget, db);
    } else if StraddlesEpoch(forget.date.number, ui.utcOffset) {
      EarlyEpochDay(ui, events, forget.date.number, db);
    } else {
      EarlyForgetSelected(ui, events, OnDay(forget.date.number), forget, db);
    }
  }

  lemma EarlyForgetDomain(ui: Ui, events: seq<UiEvent>, forget: Edit, db: Db)
    requires forget.ForgetDomain? && InStep(ReceivedAll(ui, events), db)
    ensures InStep(Early(ui, events, forget), FileAfter(ui, forget, db)) <==> Harmless(ui, events, forget, db)
    ensures Harmless(ui, events, forget, db) ==> Early(ui, events, forget).entries == Late(ui, events, forget).entries
  {
    if forget.domain == "" {
      NonePosted(ui, forget, db);
    } else {
      EarlyForgetSelected(ui, events, InDomain(forget.domain), forget, db);
    }
  }

  /** An edit made while signals are on their way leaves list and file in step exactly when it is harmless. A harmless
      edit then acts as it would have acted later, or not at all. */
  lemma EarlyEdit(ui: Ui, events: seq<UiEvent>, edit: Edit, db: Db)
    requires !edit.SwitchTo? && InStep(ReceivedAll(ui, events), db)
    ensures InStep(Early(ui, events, edit), FileAfter(ui, edit, db)) <==> Harmless(ui, events, edit, db)
    ensures Harmless(ui, events, edit, db) ==>
      Early(ui, events, edit).entries == Late(ui, events, edit).entries
      || Early(ui, events, edit).entries == ReceivedAll(ui, events).entries
  {
    match edit
    case Visit(_, _, _, _, _) => EarlyVisit(ui, events, edit, db);
    case Retitle(_, _, _) => EarlyRetitle(ui, events, edit, db);
    case ForgetUrl(_) => EarlyForgetUrl(ui, events, edit, db);
    case ForgetDay(_) => EarlyForgetDay(ui, events, edit, db);
    case ForgetDomain(_) => EarlyForgetDomain(ui, events, edit, db);
    case ForgetAll => EarlyForgetAll(ui, events, db);
    case Hide(_) => EarlyHide(ui, events, edit, db);
    case UnHide(_) => EarlyUnHide(ui, events, edit, db);
  }

  // ---- Visiting too early ----

  lemma OneRowFetched(row: Row)
    ensures FetchEvents(Db([row], [])) == [EntryFetched(row), Loaded]
  {
    assert [row][1..] == [] && SortByVisit([]) == [];
    assert SortByVisit([row]) == [row];
  }

  /** A concrete run: a url visited again before its stored row arrives is listed twice after loaded(). */
  lemma VisitTooEarly()
    ensures
      var row := Row("u", "d", "t", "i", 3, 7);
      var early := Early(PathSet(NewUi(0), "file"), FetchEvents(Db([row], [])), Visit("u", "t", "i", "d", 9000));
      |early.entries| == 2 && early.entries[0].url == early.entries[1].url
  {
    var row := Row("u", "d", "t", "i", 3, 7);
    var ui := Edited(PathSet(NewUi(0), "file"), Visit("u", "t", "i", "d", 9000));
    OneRowFetched(row);
    assert [EntryFetched(row), Loaded] == [EntryFetched(row)] + [Loaded];
    ReceivedAllAppend(ui, [EntryFetched(row)], [Loaded]);
    assert ReceivedAll(ui, [EntryFetched(row)]) == Received(ui, EntryFetched(row), "");
    assert ReceivedAll(Received(ui, EntryFetched(row), ""), [Loaded]).entries
        == Received(ui, EntryFetched(row), "").entries;
  }
}
