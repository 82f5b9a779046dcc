/** What each edit does to the history list and what it asks of the database, entry by entry. */
module HistoryEdits {
  import opened Calendar
  import opened Collections
  import opened HistoryDb
  import opened HistoryUi

  /** Nothing but the entries, the hidden urls and the events posted may differ. */
  predicate SameSettings(ui: Ui, ui': Ui) {
    ui'.utcOffset == ui.utcOffset && ui'.path == ui.path && ui'.phase == ui.phase
  }

  /** A first visit: a new entry in front of the others, and the INSERT that stores it. */
  lemma FirstVisitEffect(ui: Ui, url: string, title: string, icon: string, domain: string, now: Millis)
    requires url != "" && forall j :: 0 <= j < |ui.entries| ==> ui.entries[j].url != url
    ensures
      var ui' := Added(ui, url, title, icon, domain, now);
      && |ui'.entries| == |ui.entries| + 1 && ui'.entries[1..] == ui.entries
      && var e := ui'.entries[0];
      && e.url == url && e.title == title && e.icon == icon && e.domain == domain
      && e.visits == 1 && e.lastVisit == now && (e.hidden <==> url in ui.hiddenEntries)
      && ui'.posted == ui.posted + [Enqueue(InsertNewEntry(url, domain, title, icon, now / 1000))]
      && ui'.hiddenEntries == ui.hiddenEntries && SameSettings(ui, ui')
  {
  }

  /** A further visit: the entry of the url moves to the front with the given title and icon, the time and one visit
      more; it keeps domain and flag, the others keep their order, and one UPDATE stores exactly that. */
  lemma NextVisitEffect(ui: Ui, url: string, title: string, icon: string, domain: string, now: Millis, at: nat)
    requires url != "" && at < |ui.entries| && ui.entries[at].url == url
    requires forall j :: 0 <= j < at ==> ui.entries[j].url != url
    ensures
      var ui', was := Added(ui, url, title, icon, domain, now), ui.entries[at];
      && |ui'.entries| == |ui.entries|
      && (forall j :: 0 <= j < at ==> ui'.entries[j + 1] == ui.entries[j])
      && (forall j :: at < j < |ui.entries| ==> ui'.entries[j] == ui.entries[j])
      && var e := ui'.entries[0];
      && e.url == url && e.title == title && e.icon == icon && e.lastVisit == now
      && e.visits == was.visits + 1 && e.domain == was.domain && e.hidden == was.hidden
      && ui'.posted == ui.posted
           + [Enqueue(UpdateExistingEntry(was.domain, title, icon, was.visits + 1, now / 1000, url))]
      && ui'.hiddenEntries == ui.hiddenEntries && SameSettings(ui, ui')
  {
    var index := IndexOf(ui.entries, url);
    assert index == at;
  }

  /** An update gives a listed url both the title and the icon, in its place, and stores the whole entry; one that
      brings nothing new, or a url that is not listed, does nothing. */
  lemma UpdateEffect(ui: Ui, url: string, title: string, icon: string, at: nat)
    requires url != "" && at < |ui.entries| && ui.entries[at].url == url
    requires forall j :: 0 <= j < at ==> ui.entries[j].url != url
    ensures
      var ui', was := Updated(ui, url, title, icon), ui.entries[at];
      if title == was.title && icon == was.icon then ui' == ui
      else
        && |ui'.entries| == |ui.entries|
        && (forall j :: 0 <= j < |ui.entries| && j != at ==> ui'.entries[j] == ui.entries[j])
        && var e := ui'.entries[at];
        && e.title == title && e.icon == icon && e.url == url && e.domain == was.domain && e.visits == was.visits
        && e.lastVisit == was.lastVisit && e.hidden == was.hidden
        && ui'.posted == ui.posted
             + [Enqueue(UpdateExistingEntry(was.domain, title, icon, was.visits, was.lastVisit / 1000, url))]
        && ui'.hiddenEntries == ui.hiddenEntries && SameSettings(ui, ui')
  {
    assert IndexOf(ui.entries, url) == at;
  }

  lemma NothingToUpdate(ui: Ui, url: string, title: string, icon: string)
    requires url == "" || forall j :: 0 <= j < |ui.entries| ==> ui.entries[j].url != url
    ensures Updated(ui, url, title, icon) == ui
  {
  }

  /** Removing a url takes out its first entry and no other; the DELETE is posted even when there is none. */
  lemma RemoveEffect(ui: Ui, url: string, at: nat)
    requires url != "" && at <= |ui.entries| && (at < |ui.entries| ==> ui.entries[at].url == url)
    requires forall j :: 0 <= j < at ==> ui.entries[j].url != url
    ensures
      var ui' := RemovedByUrl(ui, url);
      && ui'.entries == (if at < |ui.entries| then ui.entries[..at] + ui.entries[at + 1..] else ui.entries)
      && ui'.posted == ui.posted + [Enqueue(RemoveEntryByUrl(url))]
      && ui'.hiddenEntries == ui.hiddenEntries && SameSettings(ui, ui')
    ensures RemovedByUrl(ui, "") == ui
  {
    assert IndexOf(ui.entries, url) == if at < |ui.entries| then at as int else -1;
  }

  lemma {:induction false} KeptInOrder(entries: seq<Entry>, sel: Selector, utcOffset: int, wanted: Entry -> bool)
    requires forall e :: wanted(e) <==> !Selects(e, sel, utcOffset)
    ensures Kept(entries, sel, utcOffset) == Filter(entries, wanted)
  {
    if entries != [] {
      KeptInOrder(entries[1..], sel, utcOffset, wanted);
    }
  }

  /** Removing a day keeps exactly the entries of other days, in their order. */
  lemma RemoveDayEffect(ui: Ui, day: int)
    ensures RemovedByDate(ui, Day(day)).entries
         == Filter(ui.entries, (e: Entry) => (e.lastVisit + ui.utcOffset * 1000) / 86_400_000 != day)
  {
    KeptInOrder(ui.entries, OnDay(day), ui.utcOffset,
                (e: Entry) => (e.lastVisit + ui.utcOffset * 1000) / 86_400_000 != day);
  }

  /** Removing a domain keeps exactly the entries of other domains, in their order. */
  lemma RemoveDomainEffect(ui: Ui, domain: string)
    requires domain != ""
    ensures RemovedByDomain(ui, domain).entries == Filter(ui.entries, (e: Entry) => e.domain != domain)
  {
    KeptInOrder(ui.entries, InDomain(domain), ui.utcOffset, (e: Entry) => e.domain != domain);
  }

  /** The statements of the bulk removals, and the inputs that do nothing. */
  lemma BulkRemovalPosts(ui: Ui, day: int, domain: string)
    ensures RemovedByDate(ui, NoDate) == ui && RemovedByDomain(ui, "") == ui
    ensures
      var begin := day * 86_400_000 - ui.utcOffset * 1000;
      RemovedByDate(ui, Day(day)).posted == ui.posted
        + [Enqueue(RemoveEntriesByDate(ToTimeT(begin), ToTimeT(begin + 86_399_999)))]
    ensures domain != "" ==>
      RemovedByDomain(ui, domain).posted == ui.posted + [Enqueue(RemoveEntriesByDomain(domain))]
  {
  }

  /** Clearing empties the list and shows every url again; an empty list is left alone, even when urls are hidden. */
  lemma ClearEffect(ui: Ui)
    ensures
      var ui' := ClearedAll(ui);
      if |ui.entries| == 0 then ui' == ui
      else
        && |ui'.entries| == 0 && (forall url: string :: url !in ui'.hiddenEntries)
        && ui'.posted == ui.posted + [Enqueue(Clear(History)), Enqueue(Clear(HistoryHidden))]
        && SameSettings(ui, ui')
  {
    assert ui.posted + [Enqueue(Clear(History))] + [Enqueue(Clear(HistoryHidden))]
        == ui.posted + [Enqueue(Clear(History)), Enqueue(Clear(HistoryHidden))];
  }

  /** Hiding, or showing, a url changes its membership and the flag of its entries and nothing else. */
  lemma HideEffect(ui: Ui, url: string, hidden: bool)
    ensures
      var ui' := if hidden then HistoryUi.Hidden(ui, url) else UnHidden(ui, url);
      if url == "" || (url in ui.hiddenEntries) == hidden then ui' == ui
      else
        && (forall u :: u in ui'.hiddenEntries <==> if u == url then hidden else u in ui.hiddenEntries)
        && |ui'.entries| == |ui.entries|
        && (forall i :: 0 <= i < |ui.entries| ==>
              ui'.entries[i] == ui.entries[i].(hidden := if ui.entries[i].url == url then hidden else ui.entries[i].hidden))
        && ui'.posted == ui.posted
             + [Enqueue(if hidden then InsertNewHiddenEntry(url) else RemoveHiddenEntryByUrl(url))]
        && SameSettings(ui, ui')
  {
  }

  /** Another path empties list and hidden urls and posts the opening of its file, or of the in-memory database for the
      empty path, before the fetch. */
  lemma SwitchEffect(ui: Ui, path: string)
    ensures
      var ui' := PathSet(ui, path);
      if path == ui.path then ui' == ui
      else
        && ui'.path == path && |ui'.entries| == 0 && ui'.hiddenEntries == {} && ui'.phase == Fetching
        && ui'.posted == ui.posted + [ResetDatabase(if path == "" then ":memory:" else path), FetchEntries]
        && ui'.utcOffset == ui.utcOffset
  {
  }

  /** A fetched row is listed last, with its own values, the computed domain when it has none, and the flag. */
  lemma RowReceivedEffect(ui: Ui, row: Row, computedDomain: string)
    ensures
      var ui' := Received(ui, EntryFetched(row), computedDomain);
      && |ui'.entries| == |ui.entries| + 1 && ui'.entries[..|ui.entries|] == ui.entries
      && var e := ui'.entries[|ui.entries|];
      && e.url == row.url && e.title == row.title && e.icon == row.icon && e.visits == row.visits
      && e.lastVisit == row.lastVisit * 1000 && (e.hidden <==> row.url in ui.hiddenEntries)
      && e.domain == (if row.domain == "" then computedDomain else row.domain)
      && ui'.hiddenEntries == ui.hiddenEntries && ui'.posted == ui.posted && SameSettings(ui, ui')
  {
  }
}
