/** The bookmarks, their folders, the tables that store both, and the list that groups bookmarks by folder name. */
module Bookmarks {
  import opened Collections
  import opened StringOrder

  datatype Entry = Entry(url: string, title: string, icon: string, created: int, folder: string, folderId: int)

  /** A row of the bookmarks table; folder 0 stands for the NULL that is stored for it. */
  datatype Row = Row(title: string, icon: string, created: int, folderId: int)

  /** The two tables: folder names by primary key, and bookmark rows by url. */
  datatype Store = Store(folders: map<int, string>, rows: map<string, Row>)

  datatype Model = Model(store: Store, folders: map<int, string>, urls: set<string>, entries: seq<Entry>)

  /** What neither class decides: the primary key of a new row of the folders table, and which of several equal
      names a hash iteration or a query meets first. */
  datatype Choice = Choice(rowId: int, id: int)

  function RowOf(e: Entry): Row {
    Row(e.title, e.icon, e.created, e.folderId)
  }

  // ---- Folders ----

  function Names(folders: map<int, string>): set<string> {
    set id | id in folders :: folders[id]
  }

  function FolderAdded(m: Model, folder: string, choice: Choice): Model {
    var inserted := m.(store := m.store.(folders := m.store.folders[choice.rowId := folder]));
    if choice.id == 0 then inserted else inserted.(folders := m.folders[choice.id := folder])
  }

  /** The new row gets an unused key, and the query finds some row with the name. */
  predicate CanAddFolder(m: Model, folder: string, choice: Choice) {
    && choice.rowId > 0 && choice.rowId !in m.store.folders
    && var rows := m.store.folders[choice.rowId := folder];
       choice.id in rows && rows[choice.id] == folder
  }

  /** getFolderId: a known id of the name, or a new folder. The answer is choice.id. */
  function Resolved(m: Model, folder: string, choice: Choice): Model {
    if folder in Names(m.folders) then m else FolderAdded(m, folder, choice)
  }

  predicate CanResolve(m: Model, folder: string, choice: Choice) {
    if folder in Names(m.folders) then choice.id in m.folders && m.folders[choice.id] == folder
    else CanAddFolder(m, folder, choice)
  }

  // ---- Operations ----

  function Added(m: Model, url: string, title: string, icon: string, now: int, folder: string, choice: Choice): Model {
    if url in m.urls then m else
    var resolved := Resolved(m, folder, choice);
    var e := Entry(url, title, icon, now, folder, choice.id);
    resolved.(urls := m.urls + {url}, entries := [e] + m.entries,
              store := resolved.store.(rows := m.store.rows[url := RowOf(e)]))
  }

  function IndexOf(entries: seq<Entry>, url: string): (index: int)
    ensures -1 <= index < |entries|
    ensures index >= 0 ==> entries[index].url == url
    ensures forall j :: 0 <= j < (if index == -1 then |entries| else index) ==> entries[j].url != url
  {
    if entries == [] then -1
    else if entries[0].url == url then 0
    else
      var rest := IndexOf(entries[1..], url);
      assert forall j :: 0 < j < |entries| ==> entries[j] == entries[1..][j - 1];
      if rest == -1 then -1 else rest + 1
  }

  function Removed(m: Model, url: string): Model {
    var index := IndexOf(m.entries, url);
    if url !in m.urls || index == -1 then m
    else
      m.(urls := m.urls - {url}, entries := TakeAt(m.entries, index),
         store := m.store.(rows := m.store.rows - {url}))
  }

  /** UPDATE bookmarks ... WHERE url=? */
  function RowUpdated(rows: map<string, Row>, e: Entry): map<string, Row> {
    if e.url in rows then rows[e.url := RowOf(e)] else rows
  }

  function Updated(m: Model, url: string, title: string, folder: string, choice: Choice): Model {
    var index := IndexOf(m.entries, url);
    if url !in m.urls || index == -1 then m
    else
      var e := m.entries[index];
      if title == e.title && folder == e.folder then m
      else if folder == e.folder then
        var e' := e.(title := title);
        m.(entries := m.entries[index := e'], store := m.store.(rows := RowUpdated(m.store.rows, e')))
      else
        var resolved := Resolved(m, folder, choice);
        var e' := e.(title := title, folder := folder, folderId := choice.id);
        resolved.(entries := m.entries[index := e'],
                  store := resolved.store.(rows := RowUpdated(m.store.rows, e')))
  }

  /** Whether update files the bookmark under another folder, and so looks the folder up. */
  predicate Refiles(m: Model, url: string, folder: string) {
    var index := IndexOf(m.entries, url);
    url in m.urls && index != -1 && folder != m.entries[index].folder
  }

  /** The folders in memory after reading the table. */
  function LoadedFolders(store: Store): map<int, string> {
    map[0 := ""] + store.folders
  }

  /** A bookmark whose folder is not known belongs to no folder. */
  function Repaired(row: Row, folders: map<int, string>): Row {
    if row.folderId in folders then row else row.(folderId := 0)
  }

  function EntryOf(url: string, row: Row, folders: map<int, string>): Entry {
    Entry(url, row.title, row.icon, row.created,
          if row.folderId in folders then folders[row.folderId] else "", Repaired(row, folders).folderId)
  }

  function LoadedEntries(rows: map<string, Row>, order: seq<string>, folders: map<int, string>): seq<Entry> {
    if order == [] then []
    else if order[0] !in rows then LoadedEntries(rows, order[1..], folders)
    else [EntryOf(order[0], rows[order[0]], folders)] + LoadedEntries(rows, order[1..], folders)
  }

  /** Reading both tables, the bookmarks in the order of the query. */
  function Loaded(store: Store, order: seq<string>): Model {
    var folders := LoadedFolders(store);
    Model(store.(rows := map url | url in store.rows :: Repaired(store.rows[url], folders)),
          folders, store.rows.Keys, LoadedEntries(store.rows, order, folders))
  }

  // ---- The folder list ----

  datatype Note = RowInserted(at: int) | WasReset

  /** A signal of the folder list together with the sorted names that can be read when it is sent. */
  datatype Emission = Emission(note: Note, names: seq<string>)

  /** The first position from the given one that holds a greater name, or the end. */
  function Position(names: seq<string>, name: string, from: nat): (at: nat)
    requires from <= |names|
    ensures from <= at <= |names|
    ensures forall j :: from <= j < at ==> !Less(name, names[j])
    ensures at < |names| ==> Less(name, names[at])
    decreases |names| - from
  {
    if from == |names| || Less(name, names[from]) then from else Position(names, name, from + 1)
  }

  ghost function FolderSignals(keys: set<string>, name: string): seq<Emission> {
    if name in keys then []
    else [Emission(RowInserted(Position(SortedKeys(keys), name, 0)), SortedKeys(keys + {name}))]
  }

  function Elements(names: seq<string>): set<string> {
    if names == [] then {} else {names[0]} + Elements(names[1..])
  }

  ghost function AllFolderSignals(keys: set<string>, names: seq<string>): seq<Emission>
    decreases |names|
  {
    if names == [] then [] else FolderSignals(keys, names[0]) + AllFolderSignals(keys + {names[0]}, names[1..])
  }

  /** The listener's view after one signal, or None when the range or the row count is wrong. */
  function Heard(view: seq<string>, e: Emission): Option<seq<string>> {
    match e.note
    case RowInserted(at) =>
      if 0 <= at <= |view| && |e.names| == |view| + 1 then Some(view[..at] + [e.names[at]] + view[at..]) else None
    case WasReset => Some(e.names)
  }

  /** The scan finds the sorted position: inserting there keeps the names sorted. */
  lemma InsertedAscending(names: seq<string>, name: string)
    requires Ascending(names) && name !in names
    ensures var at := Position(names, name, 0); Ascending(names[..at] + [name] + names[at..])
  {
    var at := Position(names, name, 0);
    var inserted := names[..at] + [name] + names[at..];
    forall i, j | 0 <= i < j < |inserted| ensures Less(inserted[i], inserted[j]) {
      if j == at {
        AtMostTotal(name, names[i]);
      } else if i == at {
        if at < j - 1 {
          assert Less(names[at], names[j - 1]);
          AtMostAfter(name, names[at], names[j - 1]);
        }
      } else {
        assert Less(names[if i < at then i else i - 1], names[if j < at then j else j - 1]);
      }
    }
  }

  lemma InsertedIsSorted(names: seq<string>, name: string, sorted: seq<string>)
    requires Ascending(names) && name !in names && Ascending(sorted)
    requires forall key :: key in sorted <==> key in names || key == name
    ensures
      var at := Position(names, name, 0);
      sorted == names[..at] + [name] + names[at..] && sorted[at] == name
  {
    var at := Position(names, name, 0);
    var inserted := names[..at] + [name] + names[at..];
    InsertedAscending(names, name);
    assert names == names[..at] + names[at..];
    AscendingUnique(inserted, sorted);
  }

  /** The announced row of a new folder is its position in the sorted names. */
  lemma PositionIsSorted(keys: set<string>, name: string)
    requires name !in keys
    ensures
      var names, at := SortedKeys(keys), Position(SortedKeys(keys), name, 0);
      && SortedKeys(keys + {name}) == names[..at] + [name] + names[at..]
      && SortedKeys(keys + {name})[at] == name
  {
    InsertedIsSorted(SortedKeys(keys), name, SortedKeys(keys + {name}));
  }

  lemma AtMostAfter(a: string, b: string, c: string)
    requires Less(a, b) && AtMost(b, c)
    ensures Less(a, c)
  {
    AtMostTransitive(a, b, c);
    if a == c {
      AtMostAntisymmetric(a, b);
    }
  }

  lemma FolderSignalReplays(keys: set<string>, name: string)
    ensures HeardAll(Heard, SortedKeys(keys), FolderSignals(keys, name)) == Some(SortedKeys(keys + {name}))
  {
    if name in keys {
      assert keys + {name} == keys;
    } else {
      PositionIsSorted(keys, name);
      HeardOne(Heard, SortedKeys(keys), FolderSignals(keys, name)[0]);
    }
  }

  lemma {:induction false} FolderSignalsReplay(keys: set<string>, names: seq<string>)
    ensures HeardAll(Heard, SortedKeys(keys), AllFolderSignals(keys, names)) == Some(SortedKeys(keys + Elements(names)))
    decreases |names|
  {
    if names == [] {
      assert keys + Elements(names) == keys;
    } else {
      FolderSignalReplays(keys, names[0]);
      FolderSignalsReplay(keys + {names[0]}, names[1..]);
      assert keys + {names[0]} + Elements(names[1..]) == keys + Elements(names);
      HeardAppend(Heard, SortedKeys(keys), FolderSignals(keys, names[0]), AllFolderSignals(keys + {names[0]}, names[1..]));
    }
  }

  // ---- Groups ----

  /** The rows a folder model shows. */
  function Group(entries: seq<Entry>, folder: string): seq<Entry> {
    if entries == [] then []
    else if entries[0].folder == folder then [entries[0]] + Group(entries[1..], folder)
    else Group(entries[1..], folder)
  }

  function Groups(entries: seq<Entry>, names: seq<string>): seq<Entry> {
    if names == [] then [] else Group(entries, names[0]) + Groups(entries, names[1..])
  }

  lemma {:induction false} GroupCount(entries: seq<Entry>, folder: string, e: Entry)
    ensures multiset(Group(entries, folder))[e] == if e.folder == folder then multiset(entries)[e] else 0
  {
    if entries != [] {
      GroupCount(entries[1..], folder, e);
      assert entries == [entries[0]] + entries[1..];
    }
  }

  lemma {:induction false} GroupsCount(entries: seq<Entry>, names: seq<string>, e: Entry)
    requires Distinct(names)
    ensures multiset(Groups(entries, names))[e] == if e.folder in names then multiset(entries)[e] else 0
    decreases |names|
  {
    if names != [] {
      assert names == [names[0]] + names[1..];
      assert names[0] !in names[1..];
      GroupCount(entries, names[0], e);
      GroupsCount(entries, names[1..], e);
    }
  }

  /** The groups of distinct folder names that cover every entry hold every entry exactly once. */
  lemma GroupsPartition(entries: seq<Entry>, names: seq<string>)
    requires Distinct(names) && forall e :: e in entries ==> e.folder in names
    ensures multiset(Groups(entries, names)) == multiset(entries)
  {
    forall e ensures multiset(Groups(entries, names))[e] == multiset(entries)[e] {
      GroupsCount(entries, names, e);
      assert e in multiset(entries) <==> e in entries;
    }
  }

  // ---- The invariant ----

  ghost predicate DistinctUrls(entries: seq<Entry>) {
    forall i, j :: 0 <= i < j < |entries| ==> entries[i].url != entries[j].url
  }

  ghost predicate HasUrl(entries: seq<Entry>, url: string) {
    exists i :: 0 <= i < |entries| && entries[i].url == url
  }

  /** Folder 0 has no name, and every other folder in memory is a row of the table. */
  ghost predicate FoldersValid(store: Store, folders: map<int, string>) {
    && 0 in folders && folders[0] == ""
    && (forall id :: id in store.folders ==> id > 0)
    && (forall id :: id in folders && id != 0 ==> id in store.folders && store.folders[id] == folders[id])
  }

  /** The entry's name is stored under its folder id, and its row holds its data. */
  ghost predicate EntryValid(m: Model, e: Entry) {
    && e.folderId in m.folders && m.folders[e.folderId] == e.folder
    && e.url in m.store.rows && m.store.rows[e.url] == RowOf(e)
  }

  ghost predicate EntriesValid(m: Model) {
    && DistinctUrls(m.entries)
    && (forall url :: url in m.urls <==> HasUrl(m.entries, url))
    && m.store.rows.Keys == m.urls
    && (forall i :: 0 <= i < |m.entries| ==> EntryValid(m, m.entries[i]))
  }

  ghost predicate Valid(m: Model) {
    FoldersValid(m.store, m.folders) && EntriesValid(m)
  }

  // ---- Every operation keeps the invariant ----

  /** A known name keeps its ids; a new one joins the names under the answered id. */
  lemma ResolveKeepsValid(m: Model, folder: string, choice: Choice)
    requires Valid(m) && CanResolve(m, folder, choice)
    ensures
      var m' := Resolved(m, folder, choice);
      && Valid(m') && m'.entries == m.entries && m'.urls == m.urls && m'.store.rows == m.store.rows
      && choice.id in m'.folders && m'.folders[choice.id] == folder
      && Names(m'.folders) == Names(m.folders) + {folder}
      && (forall id :: id in m.folders ==> id in m'.folders && m'.folders[id] == m.folders[id])
  {
    if folder in Names(m.folders) {
      assert Names(m.folders) + {folder} == Names(m.folders);
    } else {
      AddFolderKeepsValid(m, folder, choice);
    }
  }

  /** addFolder answers an id of the name. A name that exists gets a second row in the table, but no second id
      under which entries lose their name. */
  lemma AddFolderKeepsValid(m: Model, folder: string, choice: Choice)
    requires Valid(m) && CanAddFolder(m, folder, choice)
    ensures
      var m' := FolderAdded(m, folder, choice);
      && Valid(m') && m'.entries == m.entries && m'.urls == m.urls && m'.store.rows == m.store.rows
      && choice.id in m'.folders && m'.folders[choice.id] == folder
      && Names(m'.folders) == Names(m.folders) + {folder}
      && |m'.store.folders| == |m.store.folders| + 1
      && (forall id :: id in m.folders ==> id in m'.folders && m'.folders[id] == m.folders[id])
  {
    var m' := FolderAdded(m, folder, choice);
    assert choice.id > 0;
    assert m'.store.folders.Keys == m.store.folders.Keys + {choice.rowId};
    forall i | 0 <= i < |m'.entries| ensures EntryValid(m', m'.entries[i]) {
      assert EntryValid(m, m.entries[i]);
    }
    NamesAfter(m.folders, choice.id, folder);
  }

  lemma NamesAfter(folders: map<int, string>, id: int, folder: string)
    requires id in folders ==> folders[id] == folder
    ensures Names(folders[id := folder]) == Names(folders) + {folder}
  {
    var after := folders[id := folder];
    forall name ensures name in Names(after) <==> name in Names(folders) + {folder} {
      if name in Names(folders) {
        var k :| k in folders && folders[k] == name;
        assert k in after && after[k] == name;
      }
      assert id in after && after[id] == folder;
    }
  }

  // ---- Urls of edited lists ----

  lemma UrlsAfterAdd(entries: seq<Entry>, e: Entry)
    ensures forall url :: HasUrl([e] + entries, url) <==> HasUrl(entries, url) || url == e.url
  {
    forall url ensures HasUrl([e] + entries, url) <==> HasUrl(entries, url) || url == e.url {
      assert ([e] + entries)[0] == e;
      if HasUrl(entries, url) {
        var i :| 0 <= i < |entries| && entries[i].url == url;
        assert ([e] + entries)[i + 1].url == url;
      }
    }
  }

  lemma UrlsAfterTake(entries: seq<Entry>, index: int)
    requires DistinctUrls(entries) && 0 <= index < |entries|
    ensures
      var left := TakeAt(entries, index);
      DistinctUrls(left) && forall url :: HasUrl(left, url) <==> HasUrl(entries, url) && url != entries[index].url
  {
    var left := TakeAt(entries, index);
    forall url ensures HasUrl(left, url) <==> HasUrl(entries, url) && url != entries[index].url {
      if HasUrl(left, url) {
        var i :| 0 <= i < |left| && left[i].url == url;
        assert entries[if i < index then i else i + 1].url == url;
      }
      if HasUrl(entries, url) && url != entries[index].url {
        var i :| 0 <= i < |entries| && entries[i].url == url;
        assert left[if i < index then i else i - 1].url == url;
      }
    }
  }

  lemma UrlsAfterReplace(entries: seq<Entry>, index: int, e: Entry)
    requires DistinctUrls(entries) && 0 <= index < |entries| && e.url == entries[index].url
    ensures DistinctUrls(entries[index := e])
    ensures forall url :: HasUrl(entries[index := e], url) <==> HasUrl(entries, url)
  {
    var after := entries[index := e];
    assert forall i :: 0 <= i < |entries| ==> after[i].url == entries[i].url;
    forall url ensures HasUrl(after, url) <==> HasUrl(entries, url) {
      if HasUrl(entries, url) {
        var i :| 0 <= i < |entries| && entries[i].url == url;
        assert after[i].url == url;
      }
    }
  }

  lemma NewEntryKeepsValid(m: Model, e: Entry)
    requires Valid(m) && e.url !in m.urls && e.folderId in m.folders && m.folders[e.folderId] == e.folder
    ensures Valid(m.(urls := m.urls + {e.url}, entries := [e] + m.entries,
                     store := m.store.(rows := m.store.rows[e.url := RowOf(e)])))
  {
    var m' := m.(urls := m.urls + {e.url}, entries := [e] + m.entries,
                 store := m.store.(rows := m.store.rows[e.url := RowOf(e)]));
    assert !HasUrl(m.entries, e.url);
    UrlsAfterAdd(m.entries, e);
    forall i | 0 <= i < |m'.entries| ensures EntryValid(m', m'.entries[i]) && (i > 0 ==> m'.entries[i].url != e.url) {
      if i > 0 {
        assert m'.entries[i] == m.entries[i - 1];
        assert EntryValid(m, m.entries[i - 1]);
        assert m.entries[i - 1].url != e.url;
      }
    }
  }

  lemma AddKeepsValid(m: Model, url: string, title: string, icon: string, now: int, folder: string, choice: Choice)
    requires Valid(m) && url !in m.urls && CanResolve(m, folder, choice)
    ensures Valid(Added(m, url, title, icon, now, folder, choice))
  {
    ResolveKeepsValid(m, folder, choice);
    NewEntryKeepsValid(Resolved(m, folder, choice), Entry(url, title, icon, now, folder, choice.id));
  }

  lemma OthersKeepRow(m: Model, index: int)
    requires Valid(m) && 0 <= index < |m.entries|
    ensures
      var m' := m.(entries := TakeAt(m.entries, index),
                   store := m.store.(rows := m.store.rows - {m.entries[index].url}));
      forall i :: 0 <= i < |m'.entries| ==> EntryValid(m', m'.entries[i])
  {
    var url := m.entries[index].url;
    var left := TakeAt(m.entries, index);
    forall i | 0 <= i < |left| ensures EntryValid(m, left[i]) && left[i].url != url {
      var k := if i < index then i else i + 1;
      assert EntryValid(m, m.entries[k]) && m.entries[k].url != url;
    }
  }

  lemma TakenKeepsValid(m: Model, index: int)
    requires Valid(m) && 0 <= index < |m.entries|
    ensures
      var url, left := m.entries[index].url, TakeAt(m.entries, index);
      Valid(m.(urls := m.urls - {url}, entries := left, store := m.store.(rows := m.store.rows - {url})))
  {
    var url, left := m.entries[index].url, TakeAt(m.entries, index);
    OthersKeepRow(m, index);
    UrlsAfterTake(m.entries, index);
    var m' := m.(urls := m.urls - {url}, entries := left, store := m.store.(rows := m.store.rows - {url}));
    assert m'.store.rows.Keys == m'.urls;
    forall i | 0 <= i < |left| ensures EntryValid(m', m'.entries[i]) {
      assert EntryValid(m.(entries := left, store := m'.store), left[i]);
    }
  }

  lemma RemoveKeepsValid(m: Model, url: string)
    requires Valid(m)
    ensures Valid(Removed(m, url)) && url !in Removed(m, url).urls
  {
    var index := IndexOf(m.entries, url);
    assert url in m.urls <==> HasUrl(m.entries, url);
    if index != -1 {
      assert m.entries[index].url == url;
      TakenKeepsValid(m, index);
    }
  }

  /** Rewriting the data of one entry and its row. */
  lemma ReplaceKeepsValid(m: Model, index: int, e: Entry)
    requires Valid(m) && 0 <= index < |m.entries| && e.url == m.entries[index].url
    requires e.folderId in m.folders && m.folders[e.folderId] == e.folder
    ensures
      Valid(m.(entries := m.entries[index := e], store := m.store.(rows := RowUpdated(m.store.rows, e))))
  {
    var m' := m.(entries := m.entries[index := e], store := m.store.(rows := RowUpdated(m.store.rows, e)));
    UrlsAfterReplace(m.entries, index, e);
    assert EntryValid(m, m.entries[index]);
    assert m'.store.rows.Keys == m.store.rows.Keys;
    forall i | 0 <= i < |m'.entries| ensures EntryValid(m', m'.entries[i]) {
      assert EntryValid(m, m.entries[i]);
      assert i != index ==> m.entries[i].url != e.url;
    }
  }

  lemma UpdateKeepsValid(m: Model, url: string, title: string, folder: string, choice: Choice)
    requires Valid(m) && (Refiles(m, url, folder) ==> CanResolve(m, folder, choice))
    ensures Valid(Updated(m, url, title, folder, choice))
  {
    var index := IndexOf(m.entries, url);
    if url in m.urls && index != -1 {
      var e := m.entries[index];
      assert EntryValid(m, e);
      if folder == e.folder {
        ReplaceKeepsValid(m, index, e.(title := title));
      } else {
        ResolveKeepsValid(m, folder, choice);
        ReplaceKeepsValid(Resolved(m, folder, choice), index,
                          e.(title := title, folder := folder, folderId := choice.id));
      }
    }
  }

  /** The group of a folder is the bookmarks filed under its name, in their order. */
  lemma {:induction false} GroupIsFilter(entries: seq<Entry>, folder: string)
    ensures Group(entries, folder) == Filter(entries, (e: Entry) => e.folder == folder)
  {
    if entries != [] {
      GroupIsFilter(entries[1..], folder);
    }
  }

  /** A new bookmark is listed first, with the given values and the time, under a key that stands for its folder; its
      row holds the same, all other rows stay, and it joins the group of its folder and no other. A url that is
      bookmarked already changes nothing. */
  lemma AddTakesEffect(m: Model, url: string, title: string, icon: string, now: int, folder: string, choice: Choice)
    requires Valid(m) && (url !in m.urls ==> CanResolve(m, folder, choice))
    ensures url in m.urls ==> Added(m, url, title, icon, now, folder, choice) == m
    ensures url !in m.urls ==>
      var m' := Added(m, url, title, icon, now, folder, choice);
      && |m'.entries| == |m.entries| + 1 && m'.entries[1..] == m.entries && m'.urls == m.urls + {url}
      && var e := m'.entries[0];
      && e.url == url && e.title == title && e.icon == icon && e.created == now && e.folder == folder
      && e.folderId in m'.folders && m'.folders[e.folderId] == folder
      && m'.store.rows == m.store.rows[url := Row(title, icon, now, e.folderId)]
      && forall name :: Group(m'.entries, name)
           == if name == folder then [e] + Group(m.entries, name) else Group(m.entries, name)
  {
    if url !in m.urls {
      ResolveKeepsValid(m, folder, choice);
      assert Added(m, url, title, icon, now, folder, choice).entries[1..] == m.entries;
    }
  }

  /** Loading lists the rows in the order of the query with their own values; a row whose folder is unknown is filed
      under none, in the list and in its row. */
  lemma LoadTakesEffect(store: Store, order: seq<string>)
    requires GoodStore(store) && Enumerates(order, store.rows.Keys)
    ensures
      var m := Loaded(store, order);
      && |m.entries| == |order| && m.urls == store.rows.Keys && m.store.folders == store.folders
      && (forall id :: id in m.folders <==> id == 0 || id in store.folders)
      && (forall id :: id in m.folders ==> m.folders[id] == if id in store.folders then store.folders[id] else "")
      && forall i :: 0 <= i < |order| ==>
           var e, row := m.entries[i], store.rows[order[i]];
           && e.url == order[i] && e.title == row.title && e.icon == row.icon && e.created == row.created
           && e.folder == (if row.folderId in store.folders then store.folders[row.folderId] else "")
           && e.folderId == (if row.folderId in store.folders then row.folderId else 0)
           && order[i] in m.store.rows
           && m.store.rows[order[i]] == Row(row.title, row.icon, row.created, e.folderId)
  {
    LoadedEntriesAt(store.rows, order, LoadedFolders(store));
    forall i | 0 <= i < |order| ensures order[i] in store.rows {
      assert order[i] in order;
    }
  }

  /** A bookmarked url takes the new title and folder and keeps its icon and creation time, in the list and in its row;
      no other entry and no other row changes. */
  lemma UpdateTakesEffect(m: Model, url: string, title: string, folder: string, choice: Choice)
    requires Valid(m) && url in m.urls && (Refiles(m, url, folder) ==> CanResolve(m, folder, choice))
    ensures
      var index, m' := IndexOf(m.entries, url), Updated(m, url, title, folder, choice);
      && index != -1 && m'.urls == m.urls
      && (exists id :: id in m'.folders && m'.folders[id] == folder &&
            var e := m.entries[index];
            && m'.entries == m.entries[index := Entry(url, title, e.icon, e.created, folder, id)]
            && m'.store.rows == m.store.rows[url := Row(title, e.icon, e.created, id)])
  {
    var index := IndexOf(m.entries, url);
    var m' := Updated(m, url, title, folder, choice);
    assert HasUrl(m.entries, url);
    assert EntryValid(m, m.entries[index]);
    if Refiles(m, url, folder) {
      ResolveKeepsValid(m, folder, choice);
    }
    var id := m'.entries[index].folderId;
    assert id in m'.folders && m'.folders[id] == folder;
    var e := m.entries[index];
    assert m'.entries == m.entries[index := Entry(url, title, e.icon, e.created, folder, id)];
    assert m'.store.rows == m.store.rows[url := Row(title, e.icon, e.created, id)];
  }

  lemma UrlIsListed(m: Model, url: string)
    requires Valid(m) && url in m.urls
    ensures IndexOf(m.entries, url) != -1
  {
    assert HasUrl(m.entries, url);
  }

  /** Removing takes out the one entry of the url. */
  lemma RemoveTakesEffect(m: Model, url: string)
    requires Valid(m) && url in m.urls
    ensures
      var m', index := Removed(m, url), IndexOf(m.entries, url);
      && index != -1 && m'.urls == m.urls - {url} && m'.store.rows == m.store.rows - {url}
      && m'.entries == m.entries[..index] + m.entries[index + 1..]
      && multiset(m.entries) == multiset(m'.entries) + multiset{m.entries[index]}
  {
    UrlIsListed(m, url);
    TakenCount(m.entries, IndexOf(m.entries, url));
  }

  // ---- Reading the tables ----

  ghost predicate GoodStore(store: Store) {
    forall id :: id in store.folders ==> id > 0
  }

  lemma {:induction false} LoadedEntriesAt(rows: map<string, Row>, order: seq<string>, folders: map<int, string>)
    requires forall url :: url in order ==> url in rows
    ensures |LoadedEntries(rows, order, folders)| == |order|
    ensures forall i :: 0 <= i < |order| ==>
      LoadedEntries(rows, order, folders)[i] == EntryOf(order[i], rows[order[i]], folders)
  {
    if order != [] {
      assert order == [order[0]] + order[1..];
      LoadedEntriesAt(rows, order[1..], folders);
    }
  }

  lemma LoadedUrls(rows: map<string, Row>, order: seq<string>, folders: map<int, string>)
    requires Enumerates(order, rows.Keys)
    ensures
      var entries := LoadedEntries(rows, order, folders);
      DistinctUrls(entries) && forall url :: HasUrl(entries, url) <==> url in rows
  {
    var entries := LoadedEntries(rows, order, folders);
    LoadedEntriesAt(rows, order, folders);
    assert forall i :: 0 <= i < |order| ==> entries[i].url == order[i];
    forall url ensures HasUrl(entries, url) <==> url in rows {
      if url in order {
        var i :| 0 <= i < |order| && order[i] == url;
        assert entries[i].url == url;
      }
    }
  }

  /** With one row per url and positive folder keys, whatever else the tables hold, what is read from them is valid:
      unknown folders are repaired. */
  lemma LoadIsValid(store: Store, order: seq<string>)
    requires GoodStore(store) && Enumerates(order, store.rows.Keys)
    ensures Valid(Loaded(store, order))
  {
    var m := Loaded(store, order);
    LoadedUrls(store.rows, order, m.folders);
    forall i | 0 <= i < |m.entries| ensures EntryValid(m, m.entries[i]) {
      LoadedEntriesAt(store.rows, order, m.folders);
      assert order[i] in store.rows;
    }
    assert m.store.rows.Keys == m.urls;
  }

  /** An entry is read back from its own row unchanged. */
  lemma EntryReadsBack(m: Model, e: Entry)
    requires Valid(m) && EntryValid(m, e)
    ensures EntryOf(e.url, m.store.rows[e.url], LoadedFolders(m.store)) == e
  {
  }

  lemma ReloadSameEntries(m: Model, order: seq<string>)
    requires Valid(m) && Enumerates(order, m.store.rows.Keys)
    ensures SameElements(m.entries, LoadedEntries(m.store.rows, order, LoadedFolders(m.store)))
  {
    var loaded := LoadedEntries(m.store.rows, order, LoadedFolders(m.store));
    LoadedEntriesAt(m.store.rows, order, LoadedFolders(m.store));
    forall e | e in m.entries ensures e in loaded {
      var k :| 0 <= k < |m.entries| && m.entries[k] == e;
      assert EntryValid(m, m.entries[k]);
      EntryReadsBack(m, e);
      assert e.url in order;
      var i :| 0 <= i < |order| && order[i] == e.url;
      assert loaded[i] == e;
    }
    forall e | e in loaded ensures e in m.entries {
      var i :| 0 <= i < |loaded| && loaded[i] == e;
      assert order[i] in order;
      EntryAtUrl(m, order[i]);
    }
  }

  /** Forgetting everything and reading the tables again gives the same bookmarks in the same folders, and the
      same list when they were listed from the strictly newest on and the query answers the newest first. */
  lemma ReloadRoundTrip(m: Model, order: seq<string>)
    requires Valid(m) && Enumerates(order, m.store.rows.Keys)
    ensures
      var m' := Loaded(m.store, order);
      && Valid(m') && m'.urls == m.urls && m'.store == m.store
      && multiset(m'.entries) == multiset(m.entries)
      && (StrictlyNewestFirst(m.entries) && NewestFirst(m'.entries) ==> m'.entries == m.entries)
  {
    var m' := Loaded(m.store, order);
    assert GoodStore(m.store);
    LoadIsValid(m.store, order);
    ReloadSameEntries(m, order);
    DistinctEntries(m.entries);
    DistinctEntries(m'.entries);
    SameElementsPermute(m.entries, m'.entries);
    RowsUnrepaired(m);
    if StrictlyNewestFirst(m.entries) && NewestFirst(m'.entries) {
      NewestFirstIsUnique(m.entries, m'.entries);
    }
  }

  lemma EntryAtUrl(m: Model, url: string)
    requires Valid(m) && url in m.store.rows
    ensures EntryOf(url, m.store.rows[url], LoadedFolders(m.store)) in m.entries
  {
    assert url in m.urls;
    assert HasUrl(m.entries, url);
    var k :| 0 <= k < |m.entries| && m.entries[k].url == url;
    assert EntryValid(m, m.entries[k]);
    EntryReadsBack(m, m.entries[k]);
  }

  lemma RowsUnrepaired(m: Model)
    requires Valid(m)
    ensures (map url | url in m.store.rows :: Repaired(m.store.rows[url], LoadedFolders(m.store))) == m.store.rows
  {
    forall url | url in m.store.rows
      ensures Repaired(m.store.rows[url], LoadedFolders(m.store)) == m.store.rows[url]
    {
      assert url in m.urls;
      assert HasUrl(m.entries, url);
      var k :| 0 <= k < |m.entries| && m.entries[k].url == url;
      assert EntryValid(m, m.entries[k]);
    }
  }

  lemma DistinctEntries(entries: seq<Entry>)
    requires DistinctUrls(entries)
    ensures Distinct(entries)
  {
    forall i, j | 0 <= i < j < |entries| ensures entries[i] != entries[j] {
      assert entries[i].url != entries[j].url;
    }
  }

  ghost predicate StrictlyNewestFirst(entries: seq<Entry>) {
    forall i, j :: 0 <= i < j < |entries| ==> entries[i].created > entries[j].created
  }

  ghost predicate NewestFirst(entries: seq<Entry>) {
    forall i, j :: 0 <= i < j < |entries| ==> entries[i].created >= entries[j].created
  }

  lemma NewestHead(a: seq<Entry>, b: seq<Entry>)
    requires multiset(a) == multiset(b) && StrictlyNewestFirst(a) && NewestFirst(b) && a != []
    ensures b != [] && a[0] == b[0]
  {
    PermutedElements(a, b);
    assert a[0] in a && b[0] in b;
    var j :| 0 <= j < |a| && a[j] == b[0];
    var k :| 0 <= k < |b| && b[k] == a[0];
    assert k == 0 || b[0].created >= b[k].created;
  }

  lemma {:induction false} NewestFirstIsUnique(a: seq<Entry>, b: seq<Entry>)
    requires multiset(a) == multiset(b) && StrictlyNewestFirst(a) && NewestFirst(b)
    ensures a == b
    decreases |a|
  {
    if a == [] {
      PermutedElements(a, b);
    } else {
      NewestHead(a, b);
      var x, restA, restB := a[0], a[1..], b[1..];
      assert a == [x] + restA && b == [x] + restB;
      assert multiset(restA) == multiset(restB) by {
        TailCount(a);
        TailCount(b);
      }
      NewestFirstIsUnique(restA, restB);
    }
  }

  // ---- Runs ----

  /** The bookmarks and the folder names of the list connected to them. */
  datatype World = World(model: Model, keys: set<string>)

  datatype Step =
    | Add(url: string, title: string, icon: string, now: int, folder: string, choice: Choice)
    | Remove(url: string)
    | Update(url: string, title: string, folder: string, choice: Choice)
    | AddFolder(folder: string, choice: Choice)
    | Open(store: Store, ids: seq<int>, order: seq<string>)

  ghost predicate EnumeratesFolders(ids: seq<int>, folders: map<int, string>) {
    forall id :: id in ids <==> id in folders
  }

  /** Only the choices made outside are restricted, and the keys of an opened database. */
  ghost predicate Possible(m: Model, step: Step) {
    match step
    case Add(url, _, _, _, folder, choice) => url !in m.urls ==> CanResolve(m, folder, choice)
    case Remove(_) => true
    case Update(url, _, folder, choice) => Refiles(m, url, folder) ==> CanResolve(m, folder, choice)
    case AddFolder(folder, choice) => CanAddFolder(m, folder, choice)
    case Open(store, ids, order) =>
      GoodStore(store) && EnumeratesFolders(ids, store.folders) && Enumerates(order, store.rows.Keys)
  }

  function After(m: Model, step: Step): Model {
    match step
    case Add(url, title, icon, now, folder, choice) => Added(m, url, title, icon, now, folder, choice)
    case Remove(url) => Removed(m, url)
    case Update(url, title, folder, choice) => Updated(m, url, title, folder, choice)
    case AddFolder(folder, choice) => FolderAdded(m, folder, choice)
    case Open(store, _, order) => Loaded(store, order)
  }

  function ResolveNames(m: Model, folder: string, choice: Choice): seq<string> {
    if folder in Names(m.folders) || choice.id == 0 then [] else [folder]
  }

  function UpdateNames(m: Model, url: string, folder: string, choice: Choice): seq<string> {
    if Refiles(m, url, folder) then ResolveNames(m, folder, choice) else []
  }

  /** The names of folders, in the order in which their rows are read. */
  function NamesOf(ids: seq<int>, folders: map<int, string>): seq<string> {
    if ids == [] then []
    else if ids[0] !in folders then NamesOf(ids[1..], folders)
    else [folders[ids[0]]] + NamesOf(ids[1..], folders)
  }

  /** The names that folderAdded announces. */
  function Announced(m: Model, step: Step): seq<string> {
    match step
    case Add(url, _, _, _, folder, choice) => if url in m.urls then [] else ResolveNames(m, folder, choice)
    case Remove(_) => []
    case Update(url, _, folder, choice) => UpdateNames(m, url, folder, choice)
    case AddFolder(folder, choice) => if choice.id == 0 then [] else [folder]
    case Open(store, ids, _) => [""] + NamesOf(ids, store.folders)
  }

  /** Opening resets the list while no folder is known; then, as ever, folders are announced one by one. */
  /** A folder is announced once, by the operation that brings its name, and never when the name is known. */
  lemma NamesAnnounced(m: Model, step: Step)
    requires Valid(m) && Possible(m, step)
    ensures step.Add? ==>
      Announced(m, step) == if step.url in m.urls || step.folder in Names(m.folders) then [] else [step.folder]
    ensures step.Update? ==>
      Announced(m, step) == if step.folder in Names(After(m, step).folders) - Names(m.folders) then [step.folder] else []
    ensures step.AddFolder? ==> Announced(m, step) == [step.folder]
    ensures step.Remove? ==> Announced(m, step) == []
  {
    if step.Update? && Refiles(m, step.url, step.folder) {
      ResolveKeepsValid(m, step.folder, step.choice);
    }
  }

  function Next(w: World, step: Step): World {
    World(After(w.model, step), (if step.Open? then {} else w.keys) + Elements(Announced(w.model, step)))
  }

  ghost function Signals(w: World, step: Step): seq<Emission> {
    var names := Announced(w.model, step);
    if step.Open? then [Emission(WasReset, SortedKeys({}))] + AllFolderSignals({}, names)
    else AllFolderSignals(w.keys, names)
  }

  /** The keys of the folder list are exactly the folder names. */
  ghost predicate Consistent(w: World) {
    Valid(w.model) && w.keys == Names(w.model.folders)
  }

  lemma OneElement(name: string)
    ensures Elements([name]) == {name} && Elements([]) == {}
  {
    assert [name][1..] == [];
  }

  lemma {:induction false} NamesOfIds(ids: seq<int>, folders: map<int, string>, name: string)
    ensures name in Elements(NamesOf(ids, folders)) <==> exists id :: id in ids && id in folders && folders[id] == name
  {
    if ids != [] {
      var id, rest := ids[0], NamesOf(ids[1..], folders);
      assert ids == [id] + ids[1..];
      assert forall k :: k in ids <==> k == id || k in ids[1..];
      NamesOfIds(ids[1..], folders, name);
      if id in folders {
        assert ([folders[id]] + rest)[1..] == rest;
        assert name in Elements(NamesOf(ids, folders)) <==> name == folders[id] || name in Elements(rest);
      }
    }
  }

  lemma NamesNext(before: seq<string>, ids: seq<int>, i: nat, folders: map<int, string>)
    requires i < |ids| && ids[i] in folders
    ensures before + NamesOf(ids[i..], folders) == (before + [folders[ids[i]]]) + NamesOf(ids[i + 1..], folders)
  {
    assert ids[i..][1..] == ids[i + 1..];
  }

  lemma OpenNames(store: Store, ids: seq<int>)
    requires GoodStore(store) && EnumeratesFolders(ids, store.folders)
    ensures Elements([""] + NamesOf(ids, store.folders)) == Names(LoadedFolders(store))
  {
    var rest := NamesOf(ids, store.folders);
    var folders := LoadedFolders(store);
    assert ([""] + rest)[1..] == rest;
    forall name ensures name in Elements([""] + rest) <==> name in Names(folders) {
      NamesOfIds(ids, store.folders, name);
      if name in Elements(rest) {
        var id :| id in ids && id in store.folders && store.folders[id] == name;
        assert id in folders && folders[id] == name;
      }
      if name in Names(folders) {
        var id :| id in folders && folders[id] == name;
        assert id != 0 ==> id in ids;
      }
      assert 0 in folders && folders[0] == "";
    }
  }

  lemma StepKeepsValid(m: Model, step: Step)
    requires (Valid(m) || step.Open?) && Possible(m, step)
    ensures Valid(After(m, step))
  {
    match step
    case Add(url, title, icon, now, folder, choice) =>
      if url !in m.urls {
        AddKeepsValid(m, url, title, icon, now, folder, choice);
      }
    case Remove(url) => RemoveKeepsValid(m, url);
    case Update(url, title, folder, choice) => UpdateKeepsValid(m, url, title, folder, choice);
    case AddFolder(folder, choice) => AddFolderKeepsValid(m, folder, choice);
    case Open(store, _, order) => LoadIsValid(store, order);
  }

  lemma ResolveKeepsKeys(m: Model, folder: string, choice: Choice)
    requires Valid(m) && CanResolve(m, folder, choice)
    ensures Names(Resolved(m, folder, choice).folders) == Names(m.folders) + Elements(ResolveNames(m, folder, choice))
  {
    ResolveKeepsValid(m, folder, choice);
    OneElement(folder);
    assert choice.id == 0 ==> folder in Names(m.folders);
  }

  lemma UpdateKeepsKeys(m: Model, url: string, title: string, folder: string, choice: Choice)
    requires Valid(m) && (Refiles(m, url, folder) ==> CanResolve(m, folder, choice))
    ensures Names(Updated(m, url, title, folder, choice).folders)
         == Names(m.folders) + Elements(UpdateNames(m, url, folder, choice))
  {
    if Refiles(m, url, folder) {
      ResolveKeepsKeys(m, folder, choice);
    }
    OneElement(folder);
  }

  lemma AddFolderKeepsKeys(m: Model, folder: string, choice: Choice)
    requires Valid(m) && CanAddFolder(m, folder, choice)
    ensures Names(FolderAdded(m, folder, choice).folders)
         == Names(m.folders) + Elements(if choice.id == 0 then [] else [folder])
  {
    AddFolderKeepsValid(m, folder, choice);
    OneElement(folder);
  }

  /** Every name that joins the folders is announced, and no other. */
  lemma StepKeepsKeys(m: Model, step: Step)
    requires (Valid(m) || step.Open?) && Possible(m, step)
    ensures
      var names := Elements(Announced(m, step));
      Names(After(m, step).folders) == (if step.Open? then {} else Names(m.folders)) + names
  {
    match step
    case Add(url, title, icon, now, folder, choice) =>
      OneElement(folder);
      if url !in m.urls {
        ResolveKeepsKeys(m, folder, choice);
      }
    case Remove(url) => OneElement(url);
    case Update(url, title, folder, choice) => UpdateKeepsKeys(m, url, title, folder, choice);
    case AddFolder(folder, choice) => AddFolderKeepsKeys(m, folder, choice);
    case Open(store, ids, _) => OpenNames(store, ids);
  }

  lemma StepConsistent(w: World, step: Step)
    requires (Consistent(w) || step.Open?) && Possible(w.model, step)
    ensures Consistent(Next(w, step))
    ensures HeardAll(Heard, SortedKeys(w.keys), Signals(w, step)) == Some(SortedKeys(Next(w, step).keys))
  {
    StepKeepsValid(w.model, step);
    StepKeepsKeys(w.model, step);
    var names := Announced(w.model, step);
    if step.Open? {
      FolderSignalsReplay({}, names);
      HeardOne(Heard, SortedKeys(w.keys), Emission(WasReset, SortedKeys({})));
      HeardAppend(Heard, SortedKeys(w.keys), [Emission(WasReset, SortedKeys({}))], AllFolderSignals({}, names));
    } else {
      FolderSignalsReplay(w.keys, names);
    }
  }

  ghost predicate IsRun(w: World, steps: seq<Step>)
    decreases |steps|
  {
    steps == [] || (Possible(w.model, steps[0]) && IsRun(Next(w, steps[0]), steps[1..]))
  }

  function End(w: World, steps: seq<Step>): World
    decreases |steps|
  {
    if steps == [] then w else End(Next(w, steps[0]), steps[1..])
  }

  ghost function AllSignals(w: World, steps: seq<Step>): seq<Emission>
    decreases |steps|
  {
    if steps == [] then [] else Signals(w, steps[0]) + AllSignals(Next(w, steps[0]), steps[1..])
  }

  lemma {:induction false} RunConsistent(w: World, steps: seq<Step>)
    requires Consistent(w) && IsRun(w, steps)
    ensures Consistent(End(w, steps))
    ensures HeardAll(Heard, SortedKeys(w.keys), AllSignals(w, steps)) == Some(SortedKeys(End(w, steps).keys))
    decreases |steps|
  {
    if steps != [] {
      var next := Next(w, steps[0]);
      StepConsistent(w, steps[0]);
      RunConsistent(next, steps[1..]);
      HeardAppend(Heard, SortedKeys(w.keys), Signals(w, steps[0]), AllSignals(next, steps[1..]));
    }
  }

  /** Before the first database is opened. */
  const EMPTY := World(Model(Store(map[], map[]), map[], {}, []), {})

  /** Over any run that opens a database first: urls are distinct and are the url set, each entry's folder name is
      the one stored under its id, the groups of the sorted folder list hold every bookmark exactly once, and
      whoever replays the list's signals holds the sorted folder names. */
  lemma GroupsPartitionTheBookmarks(steps: seq<Step>)
    requires steps != [] && steps[0].Open? && IsRun(EMPTY, steps)
    ensures
      var w := End(EMPTY, steps);
      && DistinctUrls(w.model.entries)
      && (forall url :: url in w.model.urls <==> HasUrl(w.model.entries, url))
      && (forall e :: e in w.model.entries ==>
            && e.folderId in w.model.folders && w.model.folders[e.folderId] == e.folder && e.folder in w.keys
            && e.url in w.model.store.rows && w.model.store.rows[e.url] == RowOf(e))
      && multiset(Groups(w.model.entries, SortedKeys(w.keys))) == multiset(w.model.entries)
      && HeardAll(Heard, [], AllSignals(EMPTY, steps)) == Some(SortedKeys(w.keys))
  {
    var next := Next(EMPTY, steps[0]);
    StepConsistent(EMPTY, steps[0]);
    RunConsistent(next, steps[1..]);
    HeardAppend(Heard, [], Signals(EMPTY, steps[0]), AllSignals(next, steps[1..]));
    var w := End(EMPTY, steps);
    forall e | e in w.model.entries ensures EntryValid(w.model, e) && e.folder in w.keys {
      var i :| 0 <= i < |w.model.entries| && w.model.entries[i] == e;
      assert EntryValid(w.model, w.model.entries[i]);
    }
    var names := SortedKeys(w.keys);
    AscendingDistinct(names);
    GroupsPartition(w.model.entries, names);
  }

  // ---- The bookmarks object ----

  class BookmarksModel {
    var store: Store
    var folders: map<int, string>
    var urls: set<string>
    var orderedEntries: seq<Entry>
    ghost var announced: seq<string>

    ghost function State(): Model
      reads this
    {
      Model(store, folders, urls, orderedEntries)
    }

    constructor ()
      ensures State() == EMPTY.model && announced == []
    {
      store, folders, urls, orderedEntries, announced := Store(map[], map[]), map[], {}, [], [];
    }

    /** SQLite gives the new row the key rowId; any row with the name may answer the query. */
    method InsertNewFolderInDatabase(folder: string, rowId: int) returns (id: int)
      requires rowId > 0 && rowId !in store.folders
      modifies this`store
      ensures store == old(store).(folders := old(store).folders[rowId := folder])
      ensures id in store.folders && store.folders[id] == folder
    {
      store := store.(folders := store.folders[rowId := folder]);
      assert store.folders[rowId] == folder;
      id :| id in store.folders && store.folders[id] == folder;
    }

    method AddFolder(folder: string, rowId: int) returns (newFolderId: int)
      requires rowId > 0 && rowId !in store.folders
      modifies this
      ensures CanAddFolder(old(State()), folder, Choice(rowId, newFolderId))
      ensures State() == FolderAdded(old(State()), folder, Choice(rowId, newFolderId))
      ensures announced == old(announced) + if newFolderId == 0 then [] else [folder]
    {
      newFolderId := InsertNewFolderInDatabase(folder, rowId);
      if newFolderId != 0 {
        folders := folders[newFolderId := folder];
        announced := announced + [folder];
      }
    }

    method GetFolderId(folder: string, rowId: int) returns (id: int)
      requires rowId > 0 && rowId !in store.folders
      modifies this
      ensures CanResolve(old(State()), folder, Choice(rowId, id))
      ensures State() == Resolved(old(State()), folder, Choice(rowId, id))
      ensures announced == old(announced) + ResolveNames(old(State()), folder, Choice(rowId, id))
    {
      var left := folders.Keys;
      while left != {}
        invariant left <= folders.Keys && State() == old(State()) && announced == old(announced)
        invariant forall k :: k in folders && k !in left ==> folders[k] != folder
        decreases left
      {
        SomeElement(left);
        var i :| i in left;
        if folders[i] == folder {
          return i;
        }
        left := left - {i};
      }
      id := AddFolder(folder, rowId);
    }

    method Add(url: string, title: string, icon: string, now: int, folder: string, rowId: int)
      returns (ghost choice: Choice)
      requires rowId > 0 && rowId !in store.folders
      modifies this
      ensures Possible(old(State()), Step.Add(url, title, icon, now, folder, choice))
      ensures State() == Added(old(State()), url, title, icon, now, folder, choice)
      ensures announced == old(announced) + Announced(old(State()), Step.Add(url, title, icon, now, folder, choice))
    {
      choice := Choice(rowId, 0);
      if url !in urls {
        var id := GetFolderId(folder, rowId);
        choice := Choice(rowId, id);
        var entry := Entry(url, title, icon, now, folder, id);
        urls := urls + {url};
        orderedEntries := [entry] + orderedEntries;
        store := store.(rows := store.rows[url := RowOf(entry)]);
      }
    }

    method Remove(url: string)
      modifies this
      ensures State() == Removed(old(State()), url) && announced == old(announced)
    {
      if url in urls {
        var index := 0;
        while index < |orderedEntries|
          invariant 0 <= index <= |orderedEntries|
          invariant State() == old(State()) && announced == old(announced)
          invariant forall j :: 0 <= j < index ==> orderedEntries[j].url != url
        {
          if orderedEntries[index].url == url {
            orderedEntries := orderedEntries[..index] + orderedEntries[index + 1..];
            urls := urls - {url};
            store := store.(rows := store.rows - {url});
            return;
          }
          index := index + 1;
        }
      }
    }

    method Update(url: string, title: string, folder: string, rowId: int) returns (ghost choice: Choice)
      requires rowId > 0 && rowId !in store.folders
      modifies this
      ensures Possible(old(State()), Step.Update(url, title, folder, choice))
      ensures State() == Updated(old(State()), url, title, folder, choice)
      ensures announced == old(announced) + UpdateNames(old(State()), url, folder, choice)
    {
      choice := Choice(rowId, 0);
      if url in urls {
        var index := 0;
        while index < |orderedEntries|
          invariant 0 <= index <= |orderedEntries|
          invariant State() == old(State()) && announced == old(announced)
          invariant forall j :: 0 <= j < index ==> orderedEntries[j].url != url
        {
          if orderedEntries[index].url == url {
            var entry := orderedEntries[index];
            var updated := false;
            if title != entry.title {
              entry := entry.(title := title);
              updated := true;
            }
            if folder != entry.folder {
              var id := GetFolderId(folder, rowId);
              choice := Choice(rowId, id);
              entry := entry.(folder := folder, folderId := id);
              updated := true;
            }
            if updated {
              orderedEntries := orderedEntries[index := entry];
              store := store.(rows := RowUpdated(store.rows, entry));
            }
            return;
          }
          index := index + 1;
        }
      }
    }

    method InsertFolder(id: int, folder: string)
      modifies this`folders, this`announced
      ensures folders == old(folders)[id := folder] && announced == old(announced) + [folder]
    {
      folders := folders[id := folder];
      announced := announced + [folder];
    }

    method PopulateFolders(ids: seq<int>)
      requires folders == map[] && GoodStore(store) && EnumeratesFolders(ids, store.folders)
      modifies this`folders, this`announced
      ensures folders == LoadedFolders(store)
      ensures announced == old(announced) + ([""] + NamesOf(ids, store.folders))
    {
      InsertFolder(0, "");
      var i := 0;
      while i < |ids|
        invariant 0 <= i <= |ids|
        invariant FoldersUpTo(folders, store.folders, ids[..i])
        invariant announced + NamesOf(ids[i..], store.folders)
               == old(announced) + ([""] + NamesOf(ids, store.folders))
      {
        FoldersFurther(folders, store.folders, ids, i);
        NamesNext(announced, ids, i, store.folders);
        InsertFolder(ids[i], store.folders[ids[i]]);
        i := i + 1;
      }
      assert ids[..i] == ids && ids[i..] == [];
      AllFolders(folders, store, ids);
    }

    method ReadRow(url: string, row: Row)
      requires 0 in folders
      modifies this`orderedEntries, this`urls, this`store
      ensures State() == RowRead(old(State()), url, row)
    {
      var entry := Entry(url, row.title, row.icon, row.created, "", row.folderId);
      if row.folderId in folders {
        entry := entry.(folder := folders[row.folderId]);
      } else {
        entry := entry.(folderId := 0);
        store := store.(rows := RowUpdated(store.rows, entry));
      }
      urls := urls + {url};
      orderedEntries := orderedEntries + [entry];
    }

    method PopulateEntries(order: seq<string>)
      requires orderedEntries == [] && urls == {} && Enumerates(order, store.rows.Keys)
      requires 0 in folders
      modifies this`orderedEntries, this`urls, this`store
      ensures orderedEntries == LoadedEntries(old(store).rows, order, folders)
      ensures urls == old(store).rows.Keys
      ensures store == old(store).(rows := map url | url in old(store).rows :: Repaired(old(store).rows[url], folders))
    {
      var rows := store.rows;
      var i := 0;
      while i < |order|
        invariant 0 <= i <= |order|
        invariant store.folders == old(store).folders
        invariant ReadUpTo(rows, State(), order, i)
      {
        ReadFurther(rows, State(), order, i);
        ReadRow(order[i], rows[order[i]]);
        i := i + 1;
      }
      AllRead(rows, State(), order);
    }

    /** Everything in memory is dropped and read again from the tables of the newly opened database. */
    method ResetDatabase(database: Store, ids: seq<int>, order: seq<string>)
      requires GoodStore(database) && EnumeratesFolders(ids, database.folders) && Enumerates(order, database.rows.Keys)
      modifies this
      ensures State() == Loaded(database, order)
      ensures announced == old(announced) + Announced(old(State()), Open(database, ids, order))
    {
      folders, urls, orderedEntries := map[], {}, [];
      store := database;
      PopulateFolders(ids);
      PopulateEntries(order);
    }
  }

  /** The folders in memory as far as they were read. */
  ghost predicate FoldersUpTo(folders: map<int, string>, table: map<int, string>, done: seq<int>) {
    && (forall id :: id in folders <==> id == 0 || id in done)
    && (forall id :: id in folders ==> folders[id] == if id in table then table[id] else "")
  }

  lemma FoldersFurther(folders: map<int, string>, table: map<int, string>, ids: seq<int>, i: nat)
    requires i < |ids| && EnumeratesFolders(ids, table) && FoldersUpTo(folders, table, ids[..i])
    ensures ids[i] in table && FoldersUpTo(folders[ids[i] := table[ids[i]]], table, ids[..i + 1])
  {
    var id := ids[i];
    assert id in ids;
    assert ids[..i + 1] == ids[..i] + [id];
  }

  lemma AllFolders(folders: map<int, string>, store: Store, ids: seq<int>)
    requires EnumeratesFolders(ids, store.folders) && FoldersUpTo(folders, store.folders, ids) && GoodStore(store)
    ensures folders == LoadedFolders(store)
  {
    var loaded := LoadedFolders(store);
    forall id ensures id in folders <==> id in loaded {
      assert id in ids <==> id in store.folders;
      assert id in loaded <==> id == 0 || id in store.folders;
    }
    forall id | id in folders ensures folders[id] == loaded[id] {
      assert id in store.folders ==> loaded[id] == store.folders[id];
    }
  }

  /** The rows repaired as far as they were read. */
  ghost predicate RepairedUpTo(before: map<string, Row>, after: map<string, Row>, done: seq<string>,
                               folders: map<int, string>) {
    && after.Keys == before.Keys
    && forall url :: url in before ==>
         after[url] == if url in done then Repaired(before[url], folders) else before[url]
  }

  /** What is in memory and in the tables after reading some of the rows. */
  ghost predicate ReadUpTo(rows: map<string, Row>, m: Model, order: seq<string>, i: nat) {
    && i <= |order|
    && m.entries + LoadedEntries(rows, order[i..], m.folders) == LoadedEntries(rows, order, m.folders)
    && (forall url :: url in m.urls <==> url in order[..i])
    && RepairedUpTo(rows, m.store.rows, order[..i], m.folders)
  }

  function RowRead(m: Model, url: string, row: Row): Model {
    var entry := EntryOf(url, row, m.folders);
    m.(entries := m.entries + [entry], urls := m.urls + {url},
       store := if row.folderId in m.folders then m.store
                else m.store.(rows := RowUpdated(m.store.rows, entry)))
  }

  lemma ReadFurther(rows: map<string, Row>, m: Model, order: seq<string>, i: nat)
    requires ReadUpTo(rows, m, order, i) && i < |order| && Enumerates(order, rows.Keys)
    ensures order[i] in rows && ReadUpTo(rows, RowRead(m, order[i], rows[order[i]]), order, i + 1)
  {
    assert order[i] in order;
    assert order[..i + 1] == order[..i] + [order[i]];
    LoadedFurther(rows, order, i, m.folders, m.entries);
    RepairedFurther(rows, m.store.rows, order, i, m.folders);
  }

  lemma RepairedFurther(before: map<string, Row>, now: map<string, Row>, order: seq<string>, i: nat,
                        folders: map<int, string>)
    requires i < |order| && order[i] in before && Distinct(order) && RepairedUpTo(before, now, order[..i], folders)
    ensures
      var row := before[order[i]];
      RepairedUpTo(before, if row.folderId in folders then now else RowUpdated(now, EntryOf(order[i], row, folders)),
                   order[..i + 1], folders)
  {
    assert order[..i + 1] == order[..i] + [order[i]];
    assert order[i] !in order[..i];
  }

  lemma LoadedFurther(rows: map<string, Row>, order: seq<string>, i: nat, folders: map<int, string>, read: seq<Entry>)
    requires i < |order| && order[i] in rows
    ensures read + LoadedEntries(rows, order[i..], folders)
         == (read + [EntryOf(order[i], rows[order[i]], folders)]) + LoadedEntries(rows, order[i + 1..], folders)
  {
    assert order[i..][1..] == order[i + 1..];
  }

  lemma AllRead(rows: map<string, Row>, m: Model, order: seq<string>)
    requires ReadUpTo(rows, m, order, |order|) && Enumerates(order, rows.Keys)
    ensures m.entries == LoadedEntries(rows, order, m.folders) && m.urls == rows.Keys
    ensures m.store.rows == map url | url in rows :: Repaired(rows[url], m.folders)
  {
    assert order[..|order|] == order && order[|order|..] == [];
  }

  lemma SomeElement(s: set<int>)
    ensures s == {} || exists i :: i in s
  {
    if forall i: int :: i !in s {
      assert s == {};
    }
  }

  lemma SortedStep(keys: seq<string>, least: string, left: set<string>)
    requires IsLeast(least, left)
    ensures keys + SortedKeys(left) == (keys + [least]) + SortedKeys(left - {least})
  {
    SortedKeysOfLeast(least, left);
  }

  // ---- The folder list object ----

  class BookmarksFolderListModel {
    var folders: set<string>
    ghost var log: seq<Emission>

    constructor ()
      ensures folders == {} && log == []
    {
      folders, log := {}, [];
    }

    /** The keys of the map, in its order. */
    method Keys() returns (keys: seq<string>)
      ensures keys == SortedKeys(folders)
    {
      keys := [];
      var left := folders;
      while left != {}
        invariant keys + SortedKeys(left) == SortedKeys(folders)
        decreases |left|
      {
        LeastExists(left);
        var least :| least in left && IsLeast(least, left);
        SortedStep(keys, least, left);
        keys := keys + [least];
        left := left - {least};
      }
    }

    method OnFolderAdded(folder: string)
      modifies this
      ensures folders == old(folders) + {folder}
      ensures log == old(log) + FolderSignals(old(folders), folder)
    {
      if folder !in folders {
        var names := Keys();
        var insertAt := 0;
        while insertAt < |names|
          invariant 0 <= insertAt <= |names|
          invariant Position(names, folder, insertAt) == Position(names, folder, 0)
        {
          if Less(folder, names[insertAt]) {
            break;
          }
          insertAt := insertAt + 1;
        }
        folders := folders + {folder};
        log := log + [Emission(RowInserted(insertAt), SortedKeys(folders))];
      }
    }

    method PopulateModel(names: seq<string>)
      modifies this`folders
      ensures folders == old(folders) + Elements(names)
    {
      var i := 0;
      while i < |names|
        invariant 0 <= i <= |names|
        invariant folders + Elements(names[i..]) == old(folders) + Elements(names)
      {
        assert names[i..][1..] == names[i + 1..];
        if names[i] !in folders {
          folders := folders + {names[i]};
        }
        i := i + 1;
      }
      assert names[i..] == [];
    }

    method OnModelReset(names: seq<string>)
      modifies this
      ensures folders == Elements(names)
      ensures log == old(log) + [Emission(WasReset, SortedKeys(folders))]
    {
      folders := {};
      PopulateModel(names);
      log := log + [Emission(WasReset, SortedKeys(folders))];
    }
  }
}
