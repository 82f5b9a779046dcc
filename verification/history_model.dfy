/** The history list of the UI thread: every operation edits the list at once and posts a database operation. */
module HistoryUi {
  import opened Calendar
  import opened Collections
  import opened HistoryDb

  datatype Entry = Entry(
    url: string, domain: string, title: string, icon: string, visits: nat, lastVisit: Millis, hidden: bool)

  /** What a client knows: no path was ever set, a fetch has not signalled loaded() yet, or it has. */
  datatype Phase = NoDatabase | Fetching | Ready

  /** The UI thread: the list, the hidden urls, and the events posted to the worker and not handled yet. */
  datatype Ui = Ui(
    utcOffset: int,
    path: string,
    phase: Phase,
    entries: seq<Entry>,
    hiddenEntries: set<string>,
    posted: seq<WorkerEvent>)

  datatype Selector = OnDay(day: int) | InDomain(domain: string)

  function NewUi(utcOffset: int): Ui {
    Ui(utcOffset, "", NoDatabase, [], {}, [])
  }

  function DatabaseName(path: string): string {
    if path == "" then MEMORY else path
  }

  function Post(ui: Ui, op: Op): Ui {
    ui.(posted := ui.posted + [Enqueue(op)])
  }

  function IndexOf(entries: seq<Entry>, url: string): (index: int)
    ensures -1 <= index < |entries|
    ensures index >= 0 ==> entries[index].url == url && forall j :: 0 <= j < index ==> entries[j].url != url
    ensures index == -1 ==> forall j :: 0 <= j < |entries| ==> entries[j].url != url
  {
    if entries == [] then -1
    else if entries[0].url == url then 0
    else
      var rest := IndexOf(entries[1..], url);
      assert forall j :: 0 < j < |entries| ==> entries[j] == entries[1..][j - 1];
      if rest == -1 then -1 else rest + 1
  }

  function Removed<T>(s: seq<T>, index: int): seq<T>
    requires -1 <= index < |s|
  {
    if index == -1 then s else TakeAt(s, index)
  }

  function InsertOp(e: Entry): Op {
    InsertNewEntry(e.url, e.domain, e.title, e.icon, SecondsOf(e.lastVisit))
  }

  function UpdateOp(e: Entry): Op {
    UpdateExistingEntry(e.domain, e.title, e.icon, e.visits, SecondsOf(e.lastVisit), e.url)
  }

  // ---- Operations ----

  /** A visit: the url moves to the front with one more visit, or starts there with its first. */
  function Added(ui: Ui, url: string, title: string, icon: string, domain: string, now: Millis): Ui {
    if url == "" then ui else
    var index := IndexOf(ui.entries, url);
    if index == -1 then
      var e := Entry(url, domain, title, icon, 1, now, url in ui.hiddenEntries);
      Post(ui.(entries := [e] + ui.entries), InsertOp(e))
    else
      var e := ui.entries[index];
      var e' := e.(title := title, icon := icon, visits := e.visits + 1, lastVisit := now);
      Post(ui.(entries := [e'] + Removed(ui.entries, index)), UpdateOp(e'))
  }

  /** The number of visits recorded for a url, 0 when the list does not hold it. */
  function VisitsOf(entries: seq<Entry>, url: string): nat {
    var index := IndexOf(entries, url);
    if index == -1 then 0 else entries[index].visits
  }

  /** Whether update has something to change. */
  predicate UpdateApplies(ui: Ui, url: string, title: string, icon: string) {
    var index := IndexOf(ui.entries, url);
    url != "" && index != -1 && (ui.entries[index].title != title || ui.entries[index].icon != icon)
  }

  function Updated(ui: Ui, url: string, title: string, icon: string): Ui {
    if !UpdateApplies(ui, url, title, icon) then ui else
    var index := IndexOf(ui.entries, url);
    var e' := ui.entries[index].(title := title, icon := icon);
    Post(ui.(entries := ui.entries[index := e']), UpdateOp(e'))
  }

  function RemovedByUrl(ui: Ui, url: string): Ui {
    if url == "" then ui else
    Post(ui.(entries := Removed(ui.entries, IndexOf(ui.entries, url))), RemoveEntryByUrl(url))
  }

  predicate Selects(e: Entry, sel: Selector, utcOffset: int) {
    match sel
    case OnDay(day) => LocalDay(e.lastVisit, utcOffset) == day
    case InDomain(domain) => e.domain == domain
  }

  function Kept(entries: seq<Entry>, sel: Selector, utcOffset: int): seq<Entry> {
    if entries == [] then []
    else if Selects(entries[0], sel, utcOffset) then Kept(entries[1..], sel, utcOffset)
    else [entries[0]] + Kept(entries[1..], sel, utcOffset)
  }

  lemma RemovedBetween<T>(before: seq<T>, x: T, after: seq<T>)
    ensures
      var all := before + [x] + after;
      all[|before|] == x && Removed(all, |before|) == before + after && all == before + ([x] + after)
  {
  }

  /** One step of the backward removal loop: rows before i are untouched, rows after it are filtered. */
  lemma KeptStep(all: seq<Entry>, i: nat, sel: Selector, utcOffset: int)
    requires i < |all|
    ensures
      var now := all[..i + 1] + Kept(all[i + 1..], sel, utcOffset);
      && now[i] == all[i]
      && all[..i] + Kept(all[i..], sel, utcOffset) == if Selects(all[i], sel, utcOffset) then Removed(now, i) else now
  {
    assert all[i..][0] == all[i] && all[i..][1..] == all[i + 1..];
    assert all[..i + 1] == all[..i] + [all[i]];
    RemovedBetween(all[..i], all[i], Kept(all[i + 1..], sel, utcOffset));
  }

  /** The DELETE statement issued for a selector: a day becomes a range of time_t seconds. */
  function DeleteOp(sel: Selector, utcOffset: int): Op {
    match sel
    case OnDay(day) => RemoveEntriesByDate(ToTimeT(DayBegin(day, utcOffset)), ToTimeT(DayEnd(day, utcOffset)))
    case InDomain(domain) => RemoveEntriesByDomain(domain)
  }

  function RemovedSelected(ui: Ui, sel: Selector): Ui {
    Post(ui.(entries := Kept(ui.entries, sel, ui.utcOffset)), DeleteOp(sel, ui.utcOffset))
  }

  function RemovedByDate(ui: Ui, date: Date): Ui {
    if date == NoDate then ui else RemovedSelected(ui, OnDay(date.number))
  }

  function RemovedByDomain(ui: Ui, domain: string): Ui {
    if domain == "" then ui else RemovedSelected(ui, InDomain(domain))
  }

  /** Clearing an empty list does nothing, even when urls are hidden. */
  function ClearedAll(ui: Ui): Ui {
    if ui.entries == [] then ui else
    Post(Post(ui.(entries := [], hiddenEntries := {}), Clear(History)), Clear(HistoryHidden))
  }

  function Marked(entries: seq<Entry>, url: string, hidden: bool): (out: seq<Entry>)
    ensures |out| == |entries|
    ensures forall i :: 0 <= i < |entries| ==>
      out[i] == if entries[i].url == url then entries[i].(hidden := hidden) else entries[i]
  {
    seq(|entries|, i requires 0 <= i < |entries| =>
      if entries[i].url == url then entries[i].(hidden := hidden) else entries[i])
  }

  function Hidden(ui: Ui, url: string): Ui {
    if url == "" || url in ui.hiddenEntries then ui else
    Post(ui.(hiddenEntries := ui.hiddenEntries + {url}, entries := Marked(ui.entries, url, true)),
      InsertNewHiddenEntry(url))
  }

  function UnHidden(ui: Ui, url: string): Ui {
    if url == "" || url !in ui.hiddenEntries then ui else
    Post(ui.(hiddenEntries := ui.hiddenEntries - {url}, entries := Marked(ui.entries, url, false)),
      RemoveHiddenEntryByUrl(url))
  }

  /** Another path drops the list and asks the worker to switch and to fetch. */
  function PathSet(ui: Ui, path: string): Ui {
    if path == ui.path then ui else
    ui.(path := path, phase := Fetching, entries := [], hiddenEntries := {},
        posted := ui.posted + [ResetDatabase(DatabaseName(path)), FetchEntries])
  }

  /** The list entry for a fetched row; a row without a domain gets the one computed from its url. */
  function EntryOf(row: Row, hidden: bool, computedDomain: string): Entry {
    Entry(row.url, if row.domain == "" then computedDomain else row.domain, row.title, row.icon, row.visits,
      row.lastVisit * 1000, hidden)
  }

  /** A signal of the worker reaches the UI thread. */
  function Received(ui: Ui, event: UiEvent, computedDomain: string): Ui {
    match event
    case HiddenFetched(url) => ui.(hiddenEntries := ui.hiddenEntries + {url})
    case EntryFetched(row) =>
      ui.(entries := ui.entries + [EntryOf(row, row.url in ui.hiddenEntries, computedDomain)])
    case Loaded => ui.(phase := Ready)
  }

  /** The model object. Each method is proved against the function above that describes its effect. */
  class HistoryModel {
    const utcOffset: int
    /** DomainUtils::extractTopLevelDomainName, which rests on the public suffix list. */
    const domainOf: string -> string
    var path: string
    var phase: Phase
    var entries: seq<Entry>
    var hiddenEntries: set<string>
    var posted: seq<WorkerEvent>

    function State(): Ui
      reads this
    {
      Ui(utcOffset, path, phase, entries, hiddenEntries, posted)
    }

    constructor (utcOffset: int, domainOf: string -> string)
      ensures State() == NewUi(utcOffset)
      ensures this.domainOf == domainOf
    {
      this.utcOffset, this.domainOf := utcOffset, domainOf;
      path, phase, entries, hiddenEntries, posted := "", NoDatabase, [], {}, [];
    }

    method GetEntryIndex(url: string) returns (index: int)
      ensures index == IndexOf(entries, url)
    {
      for i := 0 to |entries|
        invariant forall j :: 0 <= j < i ==> entries[j].url != url
      {
        if entries[i].url == url {
          return i;
        }
      }
      return -1;
    }

    method RemoveByIndex(index: int)
      requires -1 <= index < |entries|
      modifies this`entries
      ensures entries == Removed(old(entries), index)
    {
      if index >= 0 {
        entries := entries[..index] + entries[index + 1..];
      }
    }

    method Enqueue(op: Op)
      modifies this`posted
      ensures posted == old(posted) + [WorkerEvent.Enqueue(op)]
    {
      posted := posted + [WorkerEvent.Enqueue(op)];
    }

    method Add(url: string, title: string, icon: string, now: Millis) returns (count: nat)
      modifies this
      ensures State() == Added(old(State()), url, title, icon, domainOf(url), now)
      ensures count == if url == "" then 0 else VisitsOf(old(entries), url) + 1
    {
      if url == "" {
        return 0;
      }
      count := 1;
      var index := GetEntryIndex(url);
      if index == -1 {
        var entry := Entry(url, domainOf(url), title, icon, 1, now, url in hiddenEntries);
        entries := [entry] + entries;
        Enqueue(InsertOp(entry));
      } else {
        var entry := entries[index];
        if index == 0 {
          entry := entry.(title := title, icon := icon, visits := entry.visits + 1, lastVisit := now);
          entries := entries[0 := entry];
          assert entries == [entry] + Removed(old(entries), 0);
        } else {
          RemoveByIndex(index);
          entry := entry.(title := title, icon := icon, visits := entry.visits + 1, lastVisit := now);
          entries := [entry] + entries;
        }
        count := entry.visits;
        Enqueue(UpdateOp(entries[0]));
      }
    }

    method Update(url: string, title: string, icon: string) returns (changed: bool)
      modifies this
      ensures State() == Updated(old(State()), url, title, icon)
      ensures changed == UpdateApplies(old(State()), url, title, icon)
    {
      if url == "" {
        return false;
      }
      var index := GetEntryIndex(url);
      if index == -1 {
        return false;
      }
      changed := false;
      if title != entries[index].title {
        entries := entries[index := entries[index].(title := title)];
        changed := true;
      }
      if icon != entries[index].icon {
        entries := entries[index := entries[index].(icon := icon)];
        changed := true;
      }
      if !changed {
        return;
      }
      Enqueue(UpdateOp(entries[index]));
    }

    method RemoveEntryByUrl(url: string)
      modifies this
      ensures State() == RemovedByUrl(old(State()), url)
    {
      if url == "" {
        return;
      }
      var index := GetEntryIndex(url);
      RemoveByIndex(index);
      Enqueue(Op.RemoveEntryByUrl(url));
    }

    /** The backward loop that both bulk removals run. */
    method RemoveMatching(sel: Selector)
      modifies this`entries
      ensures entries == Kept(old(entries), sel, utcOffset)
    {
      ghost var all := entries;
      var i := |entries| - 1;
      while i >= 0
        invariant -1 <= i < |all|
        invariant entries == all[..i + 1] + Kept(all[i + 1..], sel, utcOffset)
      {
        KeptStep(all, i, sel, utcOffset);
        if Selects(entries[i], sel, utcOffset) {
          RemoveByIndex(i);
        }
        i := i - 1;
      }
      assert all[0..] == all;
    }

    method RemoveEntriesByDate(date: Date)
      modifies this
      ensures State() == RemovedByDate(old(State()), date)
    {
      if date == NoDate {
        return;
      }
      RemoveMatching(OnDay(date.number));
      Enqueue(Op.RemoveEntriesByDate(
        ToTimeT(DayBegin(date.number, utcOffset)), ToTimeT(DayEnd(date.number, utcOffset))));
    }

    method RemoveEntriesByDomain(domain: string)
      modifies this
      ensures State() == RemovedByDomain(old(State()), domain)
    {
      if domain == "" {
        return;
      }
      RemoveMatching(InDomain(domain));
      Enqueue(Op.RemoveEntriesByDomain(domain));
    }

    method ClearAll()
      modifies this
      ensures State() == ClearedAll(old(State()))
    {
      if entries != [] {
        hiddenEntries := {};
        entries := [];
        Enqueue(Clear(History));
        Enqueue(Clear(HistoryHidden));
      }
    }

    method MarkEntries(url: string, hidden: bool)
      modifies this`entries
      ensures entries == Marked(old(entries), url, hidden)
    {
      for i := 0 to |entries|
        invariant |entries| == |old(entries)|
        invariant forall j :: 0 <= j < i ==> entries[j] == Marked(old(entries), url, hidden)[j]
        invariant forall j :: i <= j < |entries| ==> entries[j] == old(entries)[j]
      {
        if entries[i].url == url {
          entries := entries[i := entries[i].(hidden := hidden)];
        }
      }
    }

    method Hide(url: string)
      modifies this
      ensures State() == Hidden(old(State()), url)
    {
      if url == "" || url in hiddenEntries {
        return;
      }
      hiddenEntries := hiddenEntries + {url};
      MarkEntries(url, true);
      Enqueue(InsertNewHiddenEntry(url));
    }

    method UnHide(url: string)
      modifies this
      ensures State() == UnHidden(old(State()), url)
    {
      if url == "" || url !in hiddenEntries {
        return;
      }
      hiddenEntries := hiddenEntries - {url};
      MarkEntries(url, false);
      Enqueue(RemoveHiddenEntryByUrl(url));
    }

    method SetDatabasePath(newPath: string)
      modifies this
      ensures State() == PathSet(old(State()), newPath)
    {
      if newPath != path {
        path := newPath;
        hiddenEntries := {};
        entries := [];
        phase := Fetching;
        posted := posted + [ResetDatabase(DatabaseName(newPath))];
        posted := posted + [FetchEntries];
      }
    }

    method OnHiddenEntryFetched(url: string)
      modifies this
      ensures State() == Received(old(State()), HiddenFetched(url), "")
    {
      hiddenEntries := hiddenEntries + {url};
    }

    method OnEntryFetched(row: Row)
      modifies this
      ensures State() == Received(old(State()), EntryFetched(row), domainOf(row.url))
    {
      var domain := if row.domain == "" then domainOf(row.url) else row.domain;
      var entry := Entry(row.url, domain, row.title, row.icon, row.visits, row.lastVisit * 1000,
        row.url in hiddenEntries);
      entries := entries + [entry];
    }

    method OnLoaded()
      modifies this
      ensures State() == Received(old(State()), Loaded, "")
    {
      phase := Ready;
    }
  }
}
