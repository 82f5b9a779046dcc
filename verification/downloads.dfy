/** The downloads list: pages of a table that is edited between pages, mixed with entries that only live in memory. */
module Downloads {
  import opened Collections

  datatype Row = Row(
    id: string, url: string, path: string, mimetype: string, complete: bool, paused: bool, error: string)

  /** A list entry: the data of a download, and whether it is kept out of the table. */
  datatype Entry = Entry(row: Row, incognito: bool)

  const PAGE: nat := 100

  /** The table (newest row first, the order in which it is queried), the list, the number of list rows, the number
      of table rows already read, and whether a fetch may find more. The last two fields record history: the ids
      of the rows read or added here, and of those read but not listed. */
  datatype Model = Model(
    table: seq<Row>,
    entries: seq<Entry>,
    numRows: int,
    fetchedCount: int,
    canFetchMore: bool,
    read: set<string>,
    skipped: set<string>)

  function NewModel(table: seq<Row>): Model {
    Model(table, [], 0, 0, true, {}, {})
  }

  // ---- Statements ----

  /** What a DELETE or UPDATE statement selects by. */
  datatype Key = ByPath(path: string) | ById(id: string)

  predicate Hits(key: Key, row: Row) {
    match key
    case ByPath(path) => row.path == path
    case ById(id) => row.id == id
  }

  function Without(rows: seq<Row>, key: Key): seq<Row> {
    if rows == [] then []
    else if Hits(key, rows[0]) then Without(rows[1..], key)
    else [rows[0]] + Without(rows[1..], key)
  }

  datatype Assignment =
    | Completed(complete: bool)
    | Failed(error: string)
    | Paused(paused: bool)
    | Moved(mimetype: string, path: string)

  function Assigned(row: Row, a: Assignment): Row {
    match a
    case Completed(complete) => row.(complete := complete)
    case Failed(error) => row.(error := error)
    case Paused(paused) => row.(paused := paused)
    case Moved(mimetype, path) => row.(mimetype := mimetype, path := path)
  }

  /** UPDATE ... WHERE downloadId=? */
  function Update(rows: seq<Row>, id: string, a: Assignment): (out: seq<Row>)
    ensures |out| == |rows|
    ensures forall i :: 0 <= i < |rows| ==> out[i] == if rows[i].id == id then Assigned(rows[i], a) else rows[i]
  {
    seq(|rows|, i requires 0 <= i < |rows| => if rows[i].id == id then Assigned(rows[i], a) else rows[i])
  }

  /** SELECT ... LIMIT 100 OFFSET ? */
  function Page(table: seq<Row>, offset: int): seq<Row> {
    var from := if offset < 0 then 0 else offset;
    if from >= |table| then [] else table[from..if from + PAGE < |table| then from + PAGE else |table|]
  }

  // ---- Operations ----

  /** A complete download is listed only if its file exists. */
  predicate Listable(row: Row, files: set<string>) {
    !row.complete || row.path in files
  }

  function ListableEntries(rows: seq<Row>, files: set<string>): seq<Entry> {
    if rows == [] then []
    else if Listable(rows[0], files) then [Entry(rows[0], false)] + ListableEntries(rows[1..], files)
    else ListableEntries(rows[1..], files)
  }

  function Ids(rows: seq<Row>): set<string> {
    if rows == [] then {} else {rows[0].id} + Ids(rows[1..])
  }

  /** The ids of the rows that are complete but whose file is missing. */
  function MissingIds(rows: seq<Row>, files: set<string>): set<string> {
    if rows == [] then {}
    else if Listable(rows[0], files) then MissingIds(rows[1..], files)
    else {rows[0].id} + MissingIds(rows[1..], files)
  }

  function Fetched(m: Model, files: set<string>): Model {
    var page := Page(m.table, m.fetchedCount);
    var listed := ListableEntries(page, files);
    m.(entries := m.entries + listed,
       numRows := m.numRows + |listed|,
       fetchedCount := m.fetchedCount + |page|,
       canFetchMore := m.canFetchMore && page != [],
       read := m.read + Ids(page),
       skipped := m.skipped + MissingIds(page, files))
  }

  function NewRow(id: string, url: string, path: string, mimetype: string): Row {
    Row(id, url, path, mimetype, false, false, "")
  }

  function Added(m: Model, row: Row, incognito: bool): Model {
    var listed := m.(entries := [Entry(row, incognito)] + m.entries, numRows := m.numRows + 1);
    if incognito then listed
    else
      listed.(table := [row] + m.table, fetchedCount := m.fetchedCount + 1,
              read := m.read + {row.id}, skipped := m.skipped - {row.id})
  }

  function IndexOf(entries: seq<Entry>, key: Key): (index: int)
    ensures -1 <= index < |entries|
    ensures index >= 0 ==> Hits(key, entries[index].row)
    ensures forall j :: 0 <= j < (if index == -1 then |entries| else index) ==> !Hits(key, entries[j].row)
  {
    if entries == [] then -1
    else if Hits(key, entries[0].row) then 0
    else
      var rest := IndexOf(entries[1..], key);
      assert forall j :: 0 < j < |entries| ==> entries[j] == entries[1..][j - 1];
      if rest == -1 then -1 else rest + 1
  }

  /** deleteDownload selects by path, cancelDownload by id. */
  function Deleted(m: Model, key: Key): Model {
    var index := IndexOf(m.entries, key);
    if index == -1 then m else
    var listed := m.(entries := TakeAt(m.entries, index), numRows := m.numRows - 1);
    if m.entries[index].incognito then listed
    else listed.(table := Without(m.table, key), fetchedCount := m.fetchedCount - 1)
  }

  function Stored(entries: seq<Entry>): seq<Row> {
    if entries == [] then []
    else if entries[0].incognito then Stored(entries[1..])
    else [entries[0].row] + Stored(entries[1..])
  }

  function Public(entries: seq<Entry>): seq<Entry> {
    if entries == [] then []
    else if entries[0].incognito then Public(entries[1..])
    else [entries[0]] + Public(entries[1..])
  }

  function Pruned(m: Model): Model {
    m.(entries := Public(m.entries), numRows := m.numRows - (|m.entries| - |Public(m.entries)|))
  }

  /** Changing one value of the first entry with an id, and of the table rows with it; nothing when it has it. */
  function Changed(m: Model, id: string, a: Assignment): Model {
    var index := IndexOf(m.entries, ById(id));
    if index == -1 || Assigned(m.entries[index].row, a) == m.entries[index].row then m else
    var e := m.entries[index];
    var listed := m.(entries := m.entries[index := e.(row := Assigned(e.row, a))]);
    if e.incognito then listed else listed.(table := Update(m.table, id, a))
  }

  /** moveToDownloads: the entry takes the detected type, and the new path if the file could be renamed; the
      table takes both as soon as either changed the entry. */
  function FileMoved(m: Model, id: string, present: bool, mimetype: string, destination: string, renamed: bool): Model {
    var index := IndexOf(m.entries, ById(id));
    if index == -1 || !present then m else
    var e := m.entries[index];
    var row := e.row.(mimetype := mimetype, path := if renamed then destination else e.row.path);
    var listed := m.(entries := m.entries[index := e.(row := row)]);
    if e.incognito || (mimetype == e.row.mimetype && !renamed) then listed
    else listed.(table := Update(m.table, id, Moved(mimetype, destination)))
  }

  // ---- The invariant ----

  /** The rows of the read part of the table that were listed when they were read. */
  function NotSkipped(rows: seq<Row>, skipped: set<string>): seq<Row> {
    if rows == [] then []
    else if rows[0].id in skipped then NotSkipped(rows[1..], skipped)
    else [rows[0]] + NotSkipped(rows[1..], skipped)
  }

  predicate Apart(a: Row, b: Row) {
    a.id != b.id
  }

  /** Distinct ids; paths may repeat. */
  ghost predicate AllApart(rows: seq<Row>) {
    forall i, j :: 0 <= i < j < |rows| ==> Apart(rows[i], rows[j])
  }

  ghost predicate ApartFrom(row: Row, rows: seq<Row>) {
    forall i :: 0 <= i < |rows| ==> Apart(row, rows[i])
  }

  /** Exactly the first fetchedCount rows have been read. */
  ghost predicate PagingExact(m: Model) {
    && 0 <= m.fetchedCount <= |m.table|
    && forall i :: 0 <= i < |m.table| ==> (m.table[i].id in m.read <==> i < m.fetchedCount)
  }

  /** The stored entries are the rows read, in their order, without those skipped. */
  ghost predicate Mirrored(m: Model) {
    0 <= m.fetchedCount <= |m.table| && Stored(m.entries) == NotSkipped(m.table[..m.fetchedCount], m.skipped)
  }

  ghost predicate Valid(m: Model) {
    && m.numRows == |m.entries|
    && PagingExact(m)
    && Mirrored(m)
    && m.skipped <= m.read
    && AllApart(m.table)
    && (!m.canFetchMore ==> m.fetchedCount == |m.table|)
  }

  // ---- Filters ----

  lemma {:induction false} StoredAppend(a: seq<Entry>, b: seq<Entry>)
    ensures Stored(a + b) == Stored(a) + Stored(b)
  {
    if a == [] {
      assert a + b == b;
    } else {
      assert (a + b)[1..] == a[1..] + b;
      StoredAppend(a[1..], b);
    }
  }

  lemma {:induction false} NotSkippedAppend(a: seq<Row>, b: seq<Row>, skipped: set<string>)
    ensures NotSkipped(a + b, skipped) == NotSkipped(a, skipped) + NotSkipped(b, skipped)
  {
    if a == [] {
      assert a + b == b;
    } else {
      assert (a + b)[1..] == a[1..] + b;
      NotSkippedAppend(a[1..], b, skipped);
    }
  }

  lemma {:induction false} NotSkippedSame(rows: seq<Row>, s: set<string>, t: set<string>)
    requires forall row :: row in rows ==> (row.id in s <==> row.id in t)
    ensures NotSkipped(rows, s) == NotSkipped(rows, t)
  {
    if rows != [] {
      assert rows[0] in rows;
      NotSkippedSame(rows[1..], s, t);
    }
  }

  lemma {:induction false} WithoutAppend(a: seq<Row>, b: seq<Row>, key: Key)
    ensures Without(a + b, key) == Without(a, key) + Without(b, key)
  {
    if a == [] {
      assert a + b == b;
    } else {
      assert (a + b)[1..] == a[1..] + b;
      WithoutAppend(a[1..], b, key);
    }
  }

  lemma {:induction false} WithoutMembers(rows: seq<Row>, key: Key)
    ensures forall row :: row in Without(rows, key) <==> row in rows && !Hits(key, row)
    ensures |Without(rows, key)| <= |rows|
  {
    if rows != [] {
      WithoutMembers(rows[1..], key);
      assert rows == [rows[0]] + rows[1..];
    }
  }

  lemma {:induction false} WithoutNone(rows: seq<Row>, key: Key)
    requires forall row :: row in rows ==> !Hits(key, row)
    ensures Without(rows, key) == rows
  {
    if rows != [] {
      assert rows[0] in rows;
      WithoutNone(rows[1..], key);
    }
  }

  lemma {:induction false} WithoutShorter(rows: seq<Row>, key: Key)
    ensures |Without(rows, key)| <= |rows|
    ensures |Without(rows, key)| == |rows| ==> Without(rows, key) == rows
  {
    if rows != [] {
      WithoutShorter(rows[1..], key);
      assert rows == [rows[0]] + rows[1..];
    }
  }

  lemma {:induction false} FiltersCommute(rows: seq<Row>, key: Key, skipped: set<string>)
    ensures NotSkipped(Without(rows, key), skipped) == Without(NotSkipped(rows, skipped), key)
  {
    if rows != [] {
      FiltersCommute(rows[1..], key, skipped);
      var kept, left := Without(rows[1..], key), NotSkipped(rows[1..], skipped);
      assert ([rows[0]] + kept)[1..] == kept;
      assert ([rows[0]] + left)[1..] == left;
    }
  }

  /** A statement deletes no more of the listed rows than of the rows read. */
  lemma {:induction false} FewerListedHits(rows: seq<Row>, key: Key, skipped: set<string>)
    ensures |NotSkipped(rows, skipped)| - |Without(NotSkipped(rows, skipped), key)| <= |rows| - |Without(rows, key)|
  {
    if rows != [] {
      FewerListedHits(rows[1..], key, skipped);
      WithoutShorter(rows[1..], key);
      var left := NotSkipped(rows[1..], skipped);
      assert ([rows[0]] + left)[1..] == left;
    }
  }

  // ---- Distinct rows ----

  lemma ApartParts(a: seq<Row>, b: seq<Row>)
    requires AllApart(a + b)
    ensures AllApart(a) && AllApart(b)
    ensures forall i :: 0 <= i < |a| ==> ApartFrom(a[i], b)
  {
    var all := a + b;
    forall i, j | 0 <= i < j < |a| ensures Apart(a[i], a[j]) {
      assert Apart(all[i], all[j]);
    }
    forall i, j | 0 <= i < j < |b| ensures Apart(b[i], b[j]) {
      assert Apart(all[|a| + i], all[|a| + j]);
    }
    forall i, j | 0 <= i < |a| && 0 <= j < |b| ensures Apart(a[i], b[j]) {
      assert Apart(all[i], all[|a| + j]);
    }
  }

  lemma ApartCons(first: Row, rest: seq<Row>)
    ensures AllApart([first] + rest) <==> ApartFrom(first, rest) && AllApart(rest)
  {
    var all := [first] + rest;
    if AllApart(all) {
      ApartParts([first], rest);
      assert [first][0] == first;
    }
    if ApartFrom(first, rest) && AllApart(rest) {
      forall i, j | 0 <= i < j < |all| ensures Apart(all[i], all[j]) {
        assert i > 0 ==> Apart(rest[i - 1], rest[j - 1]);
      }
    }
  }

  lemma MemberApart(row: Row, rows: seq<Row>)
    requires ApartFrom(row, rows)
    ensures forall r :: r in rows ==> Apart(row, r)
  {
    forall r | r in rows ensures Apart(row, r) {
      var i :| 0 <= i < |rows| && rows[i] == r;
      assert Apart(row, rows[i]);
    }
  }

  lemma SubsetApart(row: Row, rows: seq<Row>, some: seq<Row>)
    requires ApartFrom(row, rows) && forall r :: r in some ==> r in rows
    ensures ApartFrom(row, some)
  {
    MemberApart(row, rows);
    forall i | 0 <= i < |some| ensures Apart(row, some[i]) {
      assert some[i] in some;
    }
  }

  lemma {:induction false} WithoutApart(rows: seq<Row>, key: Key)
    requires AllApart(rows)
    ensures AllApart(Without(rows, key))
  {
    if rows != [] {
      assert rows == [rows[0]] + rows[1..];
      ApartCons(rows[0], rows[1..]);
      WithoutApart(rows[1..], key);
      WithoutMembers(rows[1..], key);
      SubsetApart(rows[0], rows[1..], Without(rows[1..], key));
      ApartCons(rows[0], Without(rows[1..], key));
    }
  }

  lemma {:induction false} NotSkippedMember(rows: seq<Row>, skipped: set<string>, row: Row)
    ensures row in NotSkipped(rows, skipped) <==> row in rows && row.id !in skipped
  {
    if rows != [] {
      NotSkippedMember(rows[1..], skipped, row);
      assert rows == [rows[0]] + rows[1..];
    }
  }

  lemma {:induction false} NotSkippedApart(rows: seq<Row>, skipped: set<string>)
    requires AllApart(rows)
    ensures AllApart(NotSkipped(rows, skipped))
  {
    if rows != [] {
      var rest := NotSkipped(rows[1..], skipped);
      assert rows == [rows[0]] + rows[1..];
      ApartCons(rows[0], rows[1..]);
      NotSkippedApart(rows[1..], skipped);
      forall r | r in rest ensures r in rows[1..] {
        NotSkippedMember(rows[1..], skipped, r);
      }
      SubsetApart(rows[0], rows[1..], rest);
      ApartCons(rows[0], rest);
    }
  }

  lemma SamePosition(rows: seq<Row>, i: int, j: int)
    requires AllApart(rows) && 0 <= i < |rows| && 0 <= j < |rows|
    ensures rows[i].id == rows[j].id <==> i == j
  {
    if i != j {
      var low, high := if i < j then i else j, if i < j then j else i;
      assert Apart(rows[low], rows[high]);
    }
  }

  lemma {:induction false} FetchedRows(rows: seq<Row>, files: set<string>, skipped: set<string>)
    requires forall row :: row in rows ==> (row.id in skipped <==> !Listable(row, files))
    ensures Stored(ListableEntries(rows, files)) == NotSkipped(rows, skipped)
  {
    if rows != [] {
      assert rows[0] in rows;
      FetchedRows(rows[1..], files, skipped);
      var rest := ListableEntries(rows[1..], files);
      assert ([Entry(rows[0], false)] + rest)[1..] == rest;
    }
  }

  /** The list around one entry. */
  lemma AroundEntry(entries: seq<Entry>, index: int)
    requires 0 <= index < |entries|
    ensures
      var before, e, after := entries[..index], entries[index], entries[index + 1..];
      && Stored(entries) == Stored(before) + (if e.incognito then [] else [e.row]) + Stored(after)
      && Stored(TakeAt(entries, index)) == Stored(before) + Stored(after)
  {
    var before, e, after := entries[..index], entries[index], entries[index + 1..];
    assert entries == before + ([e] + after);
    assert ([e] + after)[1..] == after;
    StoredAppend(before, [e] + after);
    StoredAppend(before, after);
    assert Stored(before) + Stored([e] + after) == Stored(before) + (if e.incognito then [] else [e.row]) + Stored(after);
  }

  // ---- Every operation keeps the invariant ----

  /** A page holds the next rows after those already read, none of which has been read. */
  lemma PageIsUnread(m: Model)
    requires PagingExact(m)
    ensures var page := Page(m.table, m.fetchedCount);
      && |page| <= PAGE && m.fetchedCount + |page| <= |m.table|
      && (|page| < PAGE ==> m.fetchedCount + |page| == |m.table|)
      && page == m.table[m.fetchedCount..m.fetchedCount + |page|]
      && (page == [] <==> m.fetchedCount == |m.table|)
      && forall row :: row in page ==> row.id !in m.read
  {
    var page := Page(m.table, m.fetchedCount);
    forall row | row in page ensures row.id !in m.read {
      var i :| 0 <= i < |page| && page[i] == row;
      assert m.table[m.fetchedCount + i] == row;
    }
  }

  lemma {:induction false} IdsOfRows(rows: seq<Row>, id: string)
    ensures id in Ids(rows) <==> exists i :: 0 <= i < |rows| && rows[i].id == id
  {
    if rows != [] {
      IdsOfRows(rows[1..], id);
      if i :| 0 <= i < |rows[1..]| && rows[1..][i].id == id {
        assert rows[i + 1].id == id;
      }
      if i :| 0 < i < |rows| && rows[i].id == id {
        assert rows[1..][i - 1].id == id;
      }
    }
  }

  /** On distinct ids the missing rows are known by their ids. */
  lemma {:induction false} MissingRows(rows: seq<Row>, files: set<string>)
    requires AllApart(rows)
    ensures forall row :: row in rows ==> (row.id in MissingIds(rows, files) <==> !Listable(row, files))
    ensures MissingIds(rows, files) <= Ids(rows)
  {
    if rows != [] {
      var first, rest := rows[0], rows[1..];
      assert rows == [first] + rest;
      ApartCons(first, rest);
      MemberApart(first, rest);
      MissingRows(rest, files);
      IdsOfRows(rest, first.id);
      forall i | 0 <= i < |rest| ensures rest[i].id != first.id {
        assert Apart(first, rest[i]);
      }
      forall row | row in rest ensures row.id in MissingIds(rows, files) <==> !Listable(row, files) {
        assert Apart(first, row);
      }
    }
  }

  lemma FetchPaging(m: Model, files: set<string>)
    requires PagingExact(m) && AllApart(m.table)
    ensures PagingExact(Fetched(m, files))
  {
    PageIsUnread(m);
    var page := Page(m.table, m.fetchedCount);
    var m' := Fetched(m, files);
    forall i | 0 <= i < |m.table| ensures m.table[i].id in m'.read <==> i < m'.fetchedCount {
      IdsOfRows(page, m.table[i].id);
      if m.fetchedCount <= i < m'.fetchedCount {
        assert page[i - m.fetchedCount].id == m.table[i].id;
      } else if m'.fetchedCount <= i {
        forall k | 0 <= k < |page| ensures page[k].id != m.table[i].id {
          assert Apart(m.table[m.fetchedCount + k], m.table[i]);
        }
      }
    }
  }

  lemma FetchSkips(m: Model, files: set<string>)
    requires PagingExact(m) && AllApart(m.table) && m.skipped <= m.read
    ensures
      var page, m' := Page(m.table, m.fetchedCount), Fetched(m, files);
      && NotSkipped(m.table[..m.fetchedCount], m'.skipped) == NotSkipped(m.table[..m.fetchedCount], m.skipped)
      && NotSkipped(page, m'.skipped) == Stored(ListableEntries(page, files))
      && m'.skipped <= m'.read
  {
    var page := Page(m.table, m.fetchedCount);
    var prefix, rest := m.table[..m.fetchedCount], m.table[m.fetchedCount..];
    var missing := MissingIds(page, files);
    PageIsUnread(m);
    assert prefix + rest == m.table;
    ApartParts(prefix, rest);
    assert rest == page + rest[|page|..];
    ApartParts(page, rest[|page|..]);
    MissingRows(page, files);
    FetchedRows(page, files, missing);
    forall row | row in page ensures row.id in missing <==> row.id in m.skipped + missing {
    }
    NotSkippedSame(page, missing, m.skipped + missing);
    forall row | row in prefix ensures row.id in m.skipped <==> row.id in m.skipped + missing {
      var i :| 0 <= i < |prefix| && prefix[i] == row;
      assert m.table[i].id in m.read;
      IdsOfRows(page, row.id);
      forall k | 0 <= k < |page| ensures page[k].id != row.id {
        assert page[k] in page;
      }
    }
    NotSkippedSame(prefix, m.skipped, m.skipped + missing);
  }

  lemma FetchKeepsValid(m: Model, files: set<string>)
    requires Valid(m)
    ensures Valid(Fetched(m, files))
  {
    var m' := Fetched(m, files);
    var page := Page(m.table, m.fetchedCount);
    var prefix := m.table[..m.fetchedCount];
    PageIsUnread(m);
    FetchPaging(m, files);
    FetchSkips(m, files);
    StoredAppend(m.entries, ListableEntries(page, files));
    NotSkippedAppend(prefix, page, m'.skipped);
    assert m.table[..m'.fetchedCount] == prefix + page;
  }

  lemma AddPrivateKeepsValid(m: Model, row: Row)
    requires Valid(m)
    ensures Valid(Added(m, row, true))
  {
    assert ([Entry(row, true)] + m.entries)[1..] == m.entries;
  }

  /** A new stored download keeps the invariant exactly when its id is not in the table. */
  lemma AddStoredKeepsValid(m: Model, row: Row)
    requires Valid(m)
    ensures Valid(Added(m, row, false)) <==> ApartFrom(row, m.table)
  {
    ApartCons(row, m.table);
    if ApartFrom(row, m.table) {
      var m' := Added(m, row, false);
      var prefix := m.table[..m.fetchedCount];
      assert ([Entry(row, false)] + m.entries)[1..] == m.entries;
      assert m'.table[..m'.fetchedCount] == [row] + prefix;
      assert ([row] + prefix)[1..] == prefix;
      forall r | r in prefix ensures r.id in m.skipped <==> r.id in m'.skipped {
        var i :| 0 <= i < |prefix| && prefix[i] == r;
        assert Apart(row, m.table[i]);
      }
      NotSkippedSame(prefix, m.skipped, m'.skipped);
      forall i | 0 < i < |m'.table| ensures m'.table[i].id in m'.read <==> i < m'.fetchedCount {
        assert m'.table[i] == m.table[i - 1];
        assert Apart(row, m.table[i - 1]);
      }
    }
  }

  lemma PruneKeepsValid(m: Model)
    requires Valid(m)
    ensures Valid(Pruned(m)) && forall e :: e in Pruned(m).entries <==> e in m.entries && !e.incognito
  {
    PublicKeepsStored(m.entries);
  }

  lemma {:induction false} PublicKeepsStored(entries: seq<Entry>)
    ensures Stored(Public(entries)) == Stored(entries)
    ensures forall e :: e in Public(entries) <==> e in entries && !e.incognito
  {
    if entries != [] {
      PublicKeepsStored(entries[1..]);
      assert entries == [entries[0]] + entries[1..];
      if !entries[0].incognito {
        assert ([entries[0]] + Public(entries[1..]))[1..] == Public(entries[1..]);
      }
    }
  }

  /** The table row of a listed entry: it is in the part already read, and was not skipped. */
  lemma StoredEntryRow(m: Model, index: int) returns (k: int)
    requires Valid(m) && 0 <= index < |m.entries| && !m.entries[index].incognito
    ensures 0 <= k < m.fetchedCount && m.table[k] == m.entries[index].row && m.table[k].id !in m.skipped
  {
    AroundEntry(m.entries, index);
    var row := m.entries[index].row;
    var prefix := m.table[..m.fetchedCount];
    assert Stored(m.entries)[|Stored(m.entries[..index])|] == row;
    NotSkippedMember(prefix, m.skipped, row);
    k :| 0 <= k < |prefix| && prefix[k] == row;
  }

  // ---- Deleting ----

  /** The rows left of a stretch of rows that were all read, or all not. */
  lemma LeftAlike(rows: seq<Row>, key: Key, read: set<string>, wasRead: bool)
    requires forall i :: 0 <= i < |rows| ==> (rows[i].id in read <==> wasRead)
    ensures
      var left := Without(rows, key);
      forall i :: 0 <= i < |left| ==> (left[i].id in read <==> wasRead)
  {
    var left := Without(rows, key);
    WithoutMembers(rows, key);
    forall i | 0 <= i < |left| ensures left[i].id in read <==> wasRead {
      assert left[i] in left;
      var j :| 0 <= j < |rows| && rows[j] == left[i];
    }
  }

  /** The rows left by a delete are the rows left of those read, then the rows left of the others. */
  lemma DeleteParts(m: Model, key: Key)
    requires PagingExact(m)
    ensures
      var low, left := Without(m.table[..m.fetchedCount], key), Without(m.table, key);
      && |low| <= |left| && left[..|low|] == low
      && forall i :: 0 <= i < |left| ==> (left[i].id in m.read <==> i < |low|)
  {
    var prefix, rest := m.table[..m.fetchedCount], m.table[m.fetchedCount..];
    assert m.table == prefix + rest;
    WithoutAppend(prefix, rest, key);
    LeftAlike(prefix, key, m.read, true);
    LeftAlike(rest, key, m.read, false);
  }

  lemma BoundaryUnique(table: seq<Row>, read: set<string>, n: int, k: nat)
    requires k <= |table| && forall i :: 0 <= i < |table| ==> (table[i].id in read <==> i < k)
    ensures (0 <= n <= |table| && forall i :: 0 <= i < |table| ==> (table[i].id in read <==> i < n)) <==> n == k
  {
    if 0 <= n <= |table| && n != k {
      var i := if n < k then n else k;
      assert !(table[i].id in read <==> i < n);
    }
  }

  /** If the delete reaches the table, its statement hits exactly one of the rows read. */
  predicate DeletesOneRead(m: Model, key: Key) {
    var index := IndexOf(m.entries, key);
    index == -1 || m.entries[index].incognito ||
    (0 <= m.fetchedCount <= |m.table| && |Without(m.table[..m.fetchedCount], key)| == m.fetchedCount - 1)
  }

  /** For any table: after a delete exactly the first fetchedCount rows are the rows read, if and only if the
      statement hit exactly one of the rows read. */
  lemma DeletePaging(m: Model, key: Key)
    requires PagingExact(m)
    ensures PagingExact(Deleted(m, key)) <==> DeletesOneRead(m, key)
  {
    var index := IndexOf(m.entries, key);
    if index != -1 && !m.entries[index].incognito {
      DeleteParts(m, key);
      BoundaryUnique(Without(m.table, key), m.read, m.fetchedCount - 1, |Without(m.table[..m.fetchedCount], key)|);
    }
  }

  /** Taking out an entry is taking out its row when the statement deletes at most one of the stored rows. */
  lemma TakenIsWithout(entries: seq<Entry>, index: int, key: Key)
    requires 0 <= index < |entries| && !entries[index].incognito && Hits(key, entries[index].row)
    requires |Stored(entries)| - |Without(Stored(entries), key)| <= 1
    ensures Stored(TakeAt(entries, index)) == Without(Stored(entries), key)
  {
    var before, row, after := Stored(entries[..index]), entries[index].row, Stored(entries[index + 1..]);
    AroundEntry(entries, index);
    assert before + [row] + after == before + ([row] + after);
    assert ([row] + after)[1..] == after;
    WithoutAppend(before, [row] + after, key);
    WithoutShorter(before, key);
    WithoutShorter(after, key);
  }

  /** The rows read that a delete leaves are the first rows left in the table. */
  lemma DeletedPrefix(m: Model, key: Key)
    requires PagingExact(m) && DeletesOneRead(m, key) && IndexOf(m.entries, key) != -1
    requires !m.entries[IndexOf(m.entries, key)].incognito
    ensures
      var m' := Deleted(m, key);
      && 0 <= m'.fetchedCount <= |m'.table|
      && m'.table[..m'.fetchedCount] == Without(m.table[..m.fetchedCount], key)
  {
    DeleteParts(m, key);
  }

  /** After a delete of one of the rows read the list goes on showing the rows read. */
  lemma DeleteMirrors(m: Model, key: Key)
    requires Valid(m) && DeletesOneRead(m, key)
    ensures Mirrored(Deleted(m, key))
  {
    var index := IndexOf(m.entries, key);
    if index != -1 {
      AroundEntry(m.entries, index);
      if !m.entries[index].incognito {
        var prefix := m.table[..m.fetchedCount];
        DeletedPrefix(m, key);
        FewerListedHits(prefix, key, m.skipped);
        TakenIsWithout(m.entries, index, key);
        FiltersCommute(prefix, key, m.skipped);
      }
    }
  }

  /** A delete keeps the invariant exactly when its statement hits one of the rows read, or none is issued. */
  lemma DeleteKeepsValid(m: Model, key: Key)
    requires Valid(m)
    ensures Valid(Deleted(m, key)) <==> DeletesOneRead(m, key)
  {
    DeletePaging(m, key);
    if DeletesOneRead(m, key) {
      DeleteMirrors(m, key);
      WithoutApart(m.table, key);
      assert m.fetchedCount == |m.table| ==> m.table[..m.fetchedCount] == m.table;
    }
  }

  lemma {:induction false} WithoutOneId(rows: seq<Row>, id: string, k: int)
    requires AllApart(rows) && 0 <= k < |rows| && rows[k].id == id
    ensures |Without(rows, ById(id))| == |rows| - 1
  {
    var first, rest := rows[0], rows[1..];
    assert rows == [first] + rest;
    ApartCons(first, rest);
    if k == 0 {
      MemberApart(first, rest);
      WithoutNone(rest, ById(id));
    } else {
      assert Apart(first, rest[k - 1]);
      WithoutOneId(rest, id, k - 1);
    }
  }

  /** Ids are distinct, so cancelling always hits one row. */
  lemma CancelDeletesOne(m: Model, id: string)
    requires Valid(m)
    ensures DeletesOneRead(m, ById(id))
  {
    var index := IndexOf(m.entries, ById(id));
    if index != -1 && !m.entries[index].incognito {
      var k := StoredEntryRow(m, index);
      var prefix := m.table[..m.fetchedCount];
      assert prefix + m.table[m.fetchedCount..] == m.table;
      ApartParts(prefix, m.table[m.fetchedCount..]);
      WithoutOneId(prefix, id, k);
    }
  }

  /** The first entry with the path, or the id, is taken out and no other; afterwards no entry has it exactly when
      no other had it before. Unless the entry was private, no row of the table has it any more; all other rows
      stay. */
  lemma DeleteTakesEffect(m: Model, key: Key)
    requires IndexOf(m.entries, key) != -1
    ensures
      var index, m' := IndexOf(m.entries, key), Deleted(m, key);
      && multiset(m.entries) == multiset(m'.entries) + multiset{m.entries[index]}
      && ((forall x :: x in m'.entries ==> !Hits(key, x.row))
          <==> forall j :: 0 <= j < |m.entries| && j != index ==> !Hits(key, m.entries[j].row))
      && (forall row :: row in m'.table <==> row in m.table && (m.entries[index].incognito || !Hits(key, row)))
  {
    var index := IndexOf(m.entries, key);
    TakenCount(m.entries, index);
    WithoutMembers(m.table, key);
    OtherHits(m.entries, index, key);
  }

  lemma OtherHits(entries: seq<Entry>, index: int, key: Key)
    requires 0 <= index < |entries|
    ensures (forall x :: x in TakeAt(entries, index) ==> !Hits(key, x.row))
       <==> forall j :: 0 <= j < |entries| && j != index ==> !Hits(key, entries[j].row)
  {
    forall x ensures x in TakeAt(entries, index) <==> exists j :: 0 <= j < |entries| && j != index && entries[j] == x {
      TakenMembers(entries, index, x);
    }
  }

  // ---- Changing ----

  /** UPDATE by the id of a row rewrites that row only. */
  lemma UpdateOne(rows: seq<Row>, k: int, a: Assignment)
    requires AllApart(rows) && 0 <= k < |rows|
    ensures Update(rows, rows[k].id, a) == rows[k := Assigned(rows[k], a)]
  {
    forall i | 0 <= i < |rows| && rows[i].id == rows[k].id ensures i == k {
      SamePosition(rows, i, k);
    }
  }

  lemma NotSkippedAround(rows: seq<Row>, skipped: set<string>, k: int)
    requires 0 <= k < |rows| && rows[k].id !in skipped
    ensures NotSkipped(rows, skipped)
         == NotSkipped(rows[..k], skipped) + [rows[k]] + NotSkipped(rows[k + 1..], skipped)
  {
    assert rows == rows[..k] + ([rows[k]] + rows[k + 1..]);
    NotSkippedAppend(rows[..k], [rows[k]] + rows[k + 1..], skipped);
    assert ([rows[k]] + rows[k + 1..])[1..] == rows[k + 1..];
  }

  /** Rewriting a listed download in the list and in its table row keeps the two in step. */
  lemma StoredReplaced(m: Model, index: int, k: int, row: Row)
    requires Valid(m) && 0 <= index < |m.entries| && !m.entries[index].incognito
    requires 0 <= k < m.fetchedCount && m.table[k] == m.entries[index].row && m.table[k].id !in m.skipped
    requires row.id == m.table[k].id
    ensures Stored(m.entries[index := Entry(row, false)])
         == NotSkipped(m.table[k := row][..m.fetchedCount], m.skipped)
  {
    var entries := m.entries[index := Entry(row, false)];
    var prefix := m.table[..m.fetchedCount];
    var before, after := Stored(m.entries[..index]), Stored(m.entries[index + 1..]);
    AroundEntry(m.entries, index);
    AroundEntry(entries, index);
    assert entries[..index] == m.entries[..index] && entries[index + 1..] == m.entries[index + 1..];
    NotSkippedAround(prefix, m.skipped, k);
    assert m.table[k := row][..m.fetchedCount] == prefix[k := row];
    NotSkippedAround(prefix[k := row], m.skipped, k);
    assert prefix[k := row][..k] == prefix[..k] && prefix[k := row][k + 1..] == prefix[k + 1..];
    assert prefix + m.table[m.fetchedCount..] == m.table;
    ApartParts(prefix, m.table[m.fetchedCount..]);
    NotSkippedApart(prefix, m.skipped);
    var stored, low, high := Stored(m.entries), NotSkipped(prefix[..k], m.skipped), NotSkipped(prefix[k + 1..], m.skipped);
    SamePosition(stored, |before|, |low|);
    assert stored[..|before|] == before && stored[..|low|] == low;
    assert stored[|before| + 1..] == after && stored[|low| + 1..] == high;
  }

  lemma ReplaceStoredKeepsValid(m: Model, index: int, k: int, row: Row)
    requires Valid(m) && 0 <= index < |m.entries| && !m.entries[index].incognito
    requires 0 <= k < m.fetchedCount && m.table[k] == m.entries[index].row && m.table[k].id !in m.skipped
    requires row.id == m.table[k].id
    ensures Valid(m.(entries := m.entries[index := Entry(row, false)], table := m.table[k := row]))
  {
    StoredReplaced(m, index, k, row);
    var table := m.table[k := row];
    assert forall i :: 0 <= i < |table| ==> table[i].id == m.table[i].id;
    forall i, j | 0 <= i < j < |table| ensures Apart(table[i], table[j]) {
      assert Apart(m.table[i], m.table[j]);
    }
  }

  lemma ReplacePrivateKeepsValid(m: Model, index: int, row: Row)
    requires Valid(m) && 0 <= index < |m.entries| && m.entries[index].incognito
    ensures Valid(m.(entries := m.entries[index := Entry(row, true)]))
  {
    var entries := m.entries[index := Entry(row, true)];
    AroundEntry(m.entries, index);
    AroundEntry(entries, index);
    assert entries[..index] == m.entries[..index] && entries[index + 1..] == m.entries[index + 1..];
  }

  lemma ChangeKeepsValid(m: Model, id: string, a: Assignment)
    requires Valid(m)
    ensures Valid(Changed(m, id, a))
  {
    var index := IndexOf(m.entries, ById(id));
    if index != -1 {
      var e := m.entries[index];
      if e.incognito {
        ReplacePrivateKeepsValid(m, index, Assigned(e.row, a));
      } else {
        var k := StoredEntryRow(m, index);
        UpdateOne(m.table, k, a);
        ReplaceStoredKeepsValid(m, index, k, Assigned(e.row, a));
      }
    }
  }

  lemma RenamedKeepsValid(m: Model, id: string, mimetype: string, destination: string)
    requires Valid(m)
    ensures Valid(FileMoved(m, id, true, mimetype, destination, true))
  {
    var index := IndexOf(m.entries, ById(id));
    if index != -1 {
      var e := m.entries[index];
      var row := e.row.(mimetype := mimetype, path := destination);
      if e.incognito {
        ReplacePrivateKeepsValid(m, index, row);
      } else {
        var k := StoredEntryRow(m, index);
        UpdateOne(m.table, k, Moved(mimetype, destination));
        ReplaceStoredKeepsValid(m, index, k, row);
      }
    }
  }

  /** When the rename fails the table still takes the destination as soon as the type changed: list and table
      agree on the download exactly when the type did not change, or the path is the old one anyway. */
  lemma FailedRenameAgrees(m: Model, id: string, mimetype: string, destination: string)
    requires Valid(m) && IndexOf(m.entries, ById(id)) != -1 && !m.entries[IndexOf(m.entries, ById(id))].incognito
    ensures
      var row := m.entries[IndexOf(m.entries, ById(id))].row;
      Mirrored(FileMoved(m, id, true, mimetype, destination, false)) <==>
      (mimetype == row.mimetype || destination == row.path)
  {
    var index := IndexOf(m.entries, ById(id));
    var row := m.entries[index].row;
    var listed, stored := row.(mimetype := mimetype), row.(mimetype := mimetype, path := destination);
    var k := StoredEntryRow(m, index);
    var m' := FileMoved(m, id, true, mimetype, destination, false);
    UpdateOne(m.table, k, Moved(mimetype, destination));
    if mimetype == row.mimetype {
      assert m'.entries == m.entries;
    } else {
      StoredReplaced(m, index, k, stored);
      AroundEntry(m.entries[index := Entry(stored, false)], index);
      AroundEntry(m'.entries, index);
      var at := |Stored(m.entries[..index])|;
      assert m'.entries[..index] == m.entries[..index] == m.entries[index := Entry(stored, false)][..index];
      assert Stored(m'.entries)[at] == listed;
      assert NotSkipped(m'.table[..m'.fetchedCount], m'.skipped)[at] == stored;
      if destination == row.path {
        assert listed == stored;
      }
    }
  }

  /** A concrete case: the type turns out to be another one and the rename fails. */
  lemma RenameFailsAfterNewType()
    ensures
      var row := NewRow("1", "u", "tmp", "type");
      var m := Fetched(NewModel([row]), {});
      var m' := FileMoved(m, "1", true, "other", "dir/name", false);
      && Valid(m) && m'.entries == [Entry(row.(mimetype := "other"), false)]
      && m'.table == [row.(mimetype := "other", path := "dir/name")] && !Mirrored(m')
  {
    var row := NewRow("1", "u", "tmp", "type");
    FetchKeepsValid(NewModel([row]), {});
    var m := Fetched(NewModel([row]), {});
    assert Page([row], 0) == [row] && [row][1..] == [];
    assert ListableEntries([row], {}) == [Entry(row, false)] + ListableEntries([], {});
    assert m.entries == [Entry(row, false)];
    FailedRenameAgrees(m, "1", "other", "dir/name");
    assert "type"[0] != "other"[0] && "tmp"[0] != "dir/name"[0];
  }

  /** The rename succeeds, or failing it leaves nothing for list and table to differ about. */
  predicate MoveAgrees(m: Model, id: string, present: bool, mimetype: string, destination: string, renamed: bool) {
    var index := IndexOf(m.entries, ById(id));
    !present || renamed || index == -1 || m.entries[index].incognito ||
    mimetype == m.entries[index].row.mimetype || destination == m.entries[index].row.path
  }

  /** Moving a file, to whatever path, keeps the invariant exactly when list and table end up with the same path. */
  lemma MoveKeepsValid(m: Model, id: string, present: bool, mimetype: string, destination: string, renamed: bool)
    requires Valid(m)
    ensures Valid(FileMoved(m, id, present, mimetype, destination, renamed))
       <==> MoveAgrees(m, id, present, mimetype, destination, renamed)
  {
    var index := IndexOf(m.entries, ById(id));
    if present && index != -1 {
      var e := m.entries[index];
      if renamed {
        RenamedKeepsValid(m, id, mimetype, destination);
      } else if e.incognito {
        ReplacePrivateKeepsValid(m, index, e.row.(mimetype := mimetype));
      } else {
        FailedRenameAgrees(m, id, mimetype, destination);
        if destination == e.row.path && mimetype != e.row.mimetype {
          RenamedKeepsValid(m, id, mimetype, destination);
          assert FileMoved(m, id, true, mimetype, destination, false) == FileMoved(m, id, true, mimetype, destination, true);
        } else if mimetype == e.row.mimetype {
          assert FileMoved(m, id, true, mimetype, destination, false) == m;
        }
      }
    }
  }

  // ---- What each operation does, entry by entry ----

  /** Entries for rows that were read from the table. */
  function Listings(rows: seq<Row>): (entries: seq<Entry>)
    ensures |entries| == |rows| && forall i :: 0 <= i < |rows| ==> entries[i] == Entry(rows[i], false)
  {
    seq(|rows|, i requires 0 <= i < |rows| => Entry(rows[i], false))
  }

  lemma {:induction false} ListedInOrder(rows: seq<Row>, files: set<string>)
    ensures ListableEntries(rows, files)
         == Listings(Filter(rows, (row: Row) => !row.complete || row.path in files))
  {
    if rows != [] {
      ListedInOrder(rows[1..], files);
    }
  }

  lemma {:induction false} IdsExactly(rows: seq<Row>, files: set<string>, id: string)
    ensures id in Ids(rows) <==> exists row :: row in rows && row.id == id
    ensures id in MissingIds(rows, files)
       <==> exists row :: row in rows && row.id == id && row.complete && row.path !in files
  {
    if rows != [] {
      IdsExactly(rows[1..], files, id);
      assert forall row :: row in rows <==> row == rows[0] || row in rows[1..];
    }
  }

  /** A page is the next hundred rows of the table, or what is left. Its rows are listed last, in their order, except
      for the complete ones whose file is gone; those are remembered as skipped. Fetching is over with the first page
      that is empty. */
  lemma FetchEffect(m: Model, files: set<string>)
    requires 0 <= m.fetchedCount <= |m.table|
    ensures
      var m', left := Fetched(m, files), |m.table| - m.fetchedCount;
      var page := m.table[m.fetchedCount..m.fetchedCount + if left < 100 then left else 100];
      && m'.entries == m.entries + Listings(Filter(page, (row: Row) => !row.complete || row.path in files))
      && m'.numRows == m.numRows + |m'.entries| - |m.entries|
      && m'.fetchedCount == m.fetchedCount + |page|
      && (m'.canFetchMore <==> m.canFetchMore && left > 0)
      && (forall id :: id in m'.read <==> id in m.read || exists row :: row in page && row.id == id)
      && (forall id :: id in m'.skipped <==>
            id in m.skipped || exists row :: row in page && row.id == id && row.complete && row.path !in files)
      && m'.table == m.table
  {
    var left := |m.table| - m.fetchedCount;
    var page := m.table[m.fetchedCount..m.fetchedCount + if left < 100 then left else 100];
    NextPage(m.table, m.fetchedCount);
    ListedInOrder(page, files);
    AllIdsExactly(page, files);
    assert page != [] <==> left > 0;
  }

  lemma NextPage(table: seq<Row>, offset: nat)
    requires offset <= |table|
    ensures
      var left := |table| - offset;
      Page(table, offset) == table[offset..offset + if left < 100 then left else 100]
  {
  }

  lemma AllIdsExactly(rows: seq<Row>, files: set<string>)
    ensures forall id :: id in Ids(rows) <==> exists row :: row in rows && row.id == id
    ensures forall id :: id in MissingIds(rows, files)
                    <==> exists row :: row in rows && row.id == id && row.complete && row.path !in files
  {
    forall id
      ensures id in Ids(rows) <==> exists row :: row in rows && row.id == id
      ensures id in MissingIds(rows, files)
         <==> exists row :: row in rows && row.id == id && row.complete && row.path !in files
    {
      IdsExactly(rows, files, id);
    }
  }

  /** A download that starts is listed first and counts as read; unless private it is the newest row of the table. */
  lemma AddEffect(m: Model, id: string, url: string, path: string, mimetype: string, incognito: bool)
    ensures
      var row := Row(id, url, path, mimetype, false, false, "");
      var m' := Added(m, NewRow(id, url, path, mimetype), incognito);
      && m'.entries == [Entry(row, incognito)] + m.entries && m'.numRows == m.numRows + 1
      && m'.table == (if incognito then m.table else [row] + m.table)
      && m'.fetchedCount == (if incognito then m.fetchedCount else m.fetchedCount + 1)
      && m'.canFetchMore == m.canFetchMore
  {
  }

  lemma {:induction false} WithoutIsFilter(rows: seq<Row>, key: Key, wanted: Row -> bool)
    requires forall row :: wanted(row) <==> if key.ByPath? then row.path != key.path else row.id != key.id
    ensures Without(rows, key) == Filter(rows, wanted)
  {
    if rows != [] {
      WithoutIsFilter(rows[1..], key, wanted);
    }
  }

  /** Deleting a path takes out the first entry with it, and all rows with it unless that entry was private. */
  lemma DeletePathEffect(m: Model, path: string, at: nat)
    requires at <= |m.entries| && (at < |m.entries| ==> m.entries[at].row.path == path)
    requires forall j :: 0 <= j < at ==> m.entries[j].row.path != path
    ensures
      var m' := After(m, Delete(path));
      if at == |m.entries| then m' == m
      else
        && m'.entries == m.entries[..at] + m.entries[at + 1..] && m'.numRows == m.numRows - 1
        && m'.table == (if m.entries[at].incognito then m.table else Filter(m.table, (row: Row) => row.path != path))
        && m'.fetchedCount == (if m.entries[at].incognito then m.fetchedCount else m.fetchedCount - 1)
  {
    assert IndexOf(m.entries, ByPath(path)) == if at == |m.entries| then -1 else at;
    WithoutIsFilter(m.table, ByPath(path), (row: Row) => row.path != path);
  }

  /** Cancelling does the same with an id. */
  lemma CancelEffect(m: Model, id: string, at: nat)
    requires at <= |m.entries| && (at < |m.entries| ==> m.entries[at].row.id == id)
    requires forall j :: 0 <= j < at ==> m.entries[j].row.id != id
    ensures
      var m' := After(m, Cancel(id));
      if at == |m.entries| then m' == m
      else
        && m'.entries == m.entries[..at] + m.entries[at + 1..] && m'.numRows == m.numRows - 1
        && m'.table == (if m.entries[at].incognito then m.table else Filter(m.table, (row: Row) => row.id != id))
        && m'.fetchedCount == (if m.entries[at].incognito then m.fetchedCount else m.fetchedCount - 1)
  {
    assert IndexOf(m.entries, ById(id)) == if at == |m.entries| then -1 else at;
    WithoutIsFilter(m.table, ById(id), (row: Row) => row.id != id);
  }

  /** Pruning keeps the entries that are not private, in their order, and leaves the table alone. */
  lemma PruneEffect(m: Model)
    ensures
      var m' := Pruned(m);
      && m'.entries == Filter(m.entries, (e: Entry) => !e.incognito)
      && m'.numRows == m.numRows - (|m.entries| - |m'.entries|)
      && m'.table == m.table && m'.fetchedCount == m.fetchedCount
  {
    PublicIsFilter(m.entries);
  }

  lemma {:induction false} PublicIsFilter(entries: seq<Entry>)
    ensures Public(entries) == Filter(entries, (e: Entry) => !e.incognito)
  {
    if entries != [] {
      PublicIsFilter(entries[1..]);
    }
  }

  /** The entry at the position takes the row, and the rows of the table become those given, unless it is private. */
  ghost predicate Replaced(m: Model, m': Model, at: nat, row: Row, table: seq<Row>)
    requires at < |m.entries|
  {
    && m'.entries == m.entries[at := Entry(row, m.entries[at].incognito)]
    && m'.table == (if m.entries[at].incognito then m.table else table)
    && m' == m.(entries := m'.entries, table := m'.table)
  }

  /** Completing, failing and pausing each write their own value, to the entry of the id and to its row; the value it
      has already is not written. */
  lemma ChangeEffect(m: Model, id: string, at: nat, complete: bool, error: string, paused: bool)
    requires at < |m.entries| && m.entries[at].row.id == id
    requires forall j :: 0 <= j < at ==> m.entries[j].row.id != id
    ensures
      var row, n := m.entries[at].row, |m.table|;
      && (if row.complete == complete then Changed(m, id, Completed(complete)) == m
          else Replaced(m, Changed(m, id, Completed(complete)), at, row.(complete := complete),
                 seq(n, i requires 0 <= i < n =>
                   if m.table[i].id == id then m.table[i].(complete := complete) else m.table[i])))
      && (if row.error == error then Changed(m, id, Failed(error)) == m
          else Replaced(m, Changed(m, id, Failed(error)), at, row.(error := error),
                 seq(n, i requires 0 <= i < n =>
                   if m.table[i].id == id then m.table[i].(error := error) else m.table[i])))
      && (if row.paused == paused then Changed(m, id, Paused(paused)) == m
          else Replaced(m, Changed(m, id, Paused(paused)), at, row.(paused := paused),
                 seq(n, i requires 0 <= i < n =>
                   if m.table[i].id == id then m.table[i].(paused := paused) else m.table[i])))
  {
    assert IndexOf(m.entries, ById(id)) == at;
  }

  /** Moving the file of a listed download: the entry takes the type, and the path when the rename succeeds; the row
      takes type and path as soon as one of them was to change. */
  lemma MoveEffect(m: Model, id: string, at: nat, mimetype: string, destination: string, renamed: bool)
    requires at < |m.entries| && m.entries[at].row.id == id
    requires forall j :: 0 <= j < at ==> m.entries[j].row.id != id
    ensures
      var row, n := m.entries[at].row, |m.table|;
      Replaced(m, FileMoved(m, id, true, mimetype, destination, renamed), at,
        if renamed then row.(mimetype := mimetype, path := destination) else row.(mimetype := mimetype),
        if renamed || mimetype != row.mimetype then
          seq(n, i requires 0 <= i < n =>
            if m.table[i].id == id then m.table[i].(mimetype := mimetype, path := destination) else m.table[i])
        else m.table)
    ensures FileMoved(m, id, false, mimetype, destination, renamed) == m
  {
    assert IndexOf(m.entries, ById(id)) == at;
  }

  /** An id that is not listed changes nothing. */
  lemma UnlistedUnchanged(m: Model, id: string, a: Assignment, mimetype: string, destination: string, renamed: bool)
    requires forall j :: 0 <= j < |m.entries| ==> m.entries[j].row.id != id
    ensures Changed(m, id, a) == m && FileMoved(m, id, true, mimetype, destination, renamed) == m
  {
  }

  // ---- Runs ----

  datatype Step =
    | Fetch(files: set<string>)
    | Add(row: Row, incognito: bool)
    | Delete(path: string)
    | Cancel(id: string)
    | Prune
    | Change(id: string, a: Assignment)
    | Move(id: string, present: bool, mimetype: string, destination: string, renamed: bool)

  /** A stored download brings a new id, a delete that reaches the table hits one row read, and a failed rename
      leaves list and table agreed. Paths are arbitrary. */
  ghost predicate Allowed(m: Model, step: Step) {
    match step
    case Add(row, incognito) => incognito || ApartFrom(row, m.table)
    case Delete(path) => DeletesOneRead(m, ByPath(path))
    case Move(id, present, mimetype, destination, renamed) =>
      MoveAgrees(m, id, present, mimetype, destination, renamed)
    case _ => true
  }

  function After(m: Model, step: Step): Model {
    match step
    case Fetch(files) => Fetched(m, files)
    case Add(row, incognito) => Added(m, row, incognito)
    case Delete(path) => Deleted(m, ByPath(path))
    case Cancel(id) => Deleted(m, ById(id))
    case Prune => Pruned(m)
    case Change(id, a) => Changed(m, id, a)
    case Move(id, present, mimetype, destination, renamed) => FileMoved(m, id, present, mimetype, destination, renamed)
  }

  /** A step keeps paging exact and the list a mirror of the rows read, exactly when it is an allowed one. */
  lemma StepKeepsValid(m: Model, step: Step)
    requires Valid(m)
    ensures Valid(After(m, step)) <==> Allowed(m, step)
  {
    match step
    case Fetch(files) => FetchKeepsValid(m, files);
    case Add(row, incognito) =>
      if incognito {
        AddPrivateKeepsValid(m, row);
      } else {
        AddStoredKeepsValid(m, row);
      }
    case Delete(path) => DeleteKeepsValid(m, ByPath(path));
    case Cancel(id) =>
      DeleteKeepsValid(m, ById(id));
      CancelDeletesOne(m, id);
    case Prune => PruneKeepsValid(m);
    case Change(id, a) => ChangeKeepsValid(m, id, a);
    case Move(id, present, mimetype, destination, renamed) =>
      MoveKeepsValid(m, id, present, mimetype, destination, renamed);
  }

  ghost predicate IsRun(m: Model, steps: seq<Step>)
    decreases |steps|
  {
    steps == [] || (Allowed(m, steps[0]) && IsRun(After(m, steps[0]), steps[1..]))
  }

  function End(m: Model, steps: seq<Step>): Model
    decreases |steps|
  {
    if steps == [] then m else End(After(m, steps[0]), steps[1..])
  }

  lemma {:induction false} RunKeepsValid(m: Model, steps: seq<Step>)
    requires Valid(m) && IsRun(m, steps)
    ensures Valid(End(m, steps))
    decreases |steps|
  {
    if steps != [] {
      StepKeepsValid(m, steps[0]);
      RunKeepsValid(After(m, steps[0]), steps[1..]);
    }
  }

  /** Under any interleaving, starting with an unread table: the first fetchedCount rows are exactly the rows
      read, the stored entries are those rows minus the skipped ones in the same order, the next page holds no
      row read before, and once fetching is over every row has been read. */
  lemma PagingSurvives(table: seq<Row>, steps: seq<Step>)
    requires AllApart(table) && IsRun(NewModel(table), steps)
    ensures
      var m := End(NewModel(table), steps);
      && PagingExact(m)
      && Stored(m.entries) == NotSkipped(m.table[..m.fetchedCount], m.skipped)
      && m.numRows == |m.entries|
      && (forall row :: row in Page(m.table, m.fetchedCount) ==> row.id !in m.read)
      && (!m.canFetchMore ==> forall row :: row in m.table ==> row.id in m.read)
  {
    RunKeepsValid(NewModel(table), steps);
    var m := End(NewModel(table), steps);
    PageIsUnread(m);
    if !m.canFetchMore {
      forall row | row in m.table ensures row.id in m.read {
        var i :| 0 <= i < |m.table| && m.table[i] == row;
      }
    }
  }

  // ---- A free file name ----

  function Digit(n: nat): char
    requires n < 10
  {
    '0' + n as char
  }

  function Decimal(n: nat): (s: string)
    ensures s != ""
  {
    if n < 10 then [Digit(n)] else Decimal(n / 10) + [Digit(n % 10)]
  }

  lemma {:induction false} DecimalInjective(m: nat, n: nat)
    requires Decimal(m) == Decimal(n)
    ensures m == n
    decreases m
  {
    var s := Decimal(m);
    assert s[|s| - 1] == Digit(m % 10) == Digit(n % 10);
    if m >= 10 {
      assert Decimal(m / 10) == s[..|s| - 1] != [];
      assert n >= 10 ==> Decimal(n / 10) == s[..|s| - 1];
      DecimalInjective(m / 10, n / 10);
    }
  }

  function PlainName(dir: string, base: string, suffix: string): string {
    dir + "/" + base + "." + suffix
  }

  function NumberedName(dir: string, base: string, suffix: string, n: nat): string {
    dir + "/" + base + "." + Decimal(n) + "." + suffix
  }

  lemma NumberingInjective(dir: string, base: string, suffix: string, m: nat, n: nat)
    requires NumberedName(dir, base, suffix, m) == NumberedName(dir, base, suffix, n)
    ensures m == n
  {
    var head, tail := dir + "/" + base + ".", "." + suffix;
    var s := NumberedName(dir, base, suffix, m);
    assert s == head + Decimal(m) + tail == head + Decimal(n) + tail;
    assert |Decimal(m)| == |Decimal(n)|;
    assert s[|head|..|head| + |Decimal(m)|] == Decimal(m);
    assert s[|head|..|head| + |Decimal(n)|] == Decimal(n);
    DecimalInjective(m, n);
  }

  /** The part of a path after its last '/'. */
  function FileName(path: string): string {
    if path == "" || path[|path| - 1] == '/' then "" else FileName(path[..|path| - 1]) + [path[|path| - 1]]
  }

  /** The part of a name before its first '.'. */
  function BeforeDot(name: string): string {
    if name == "" || name[0] == '.' then "" else [name[0]] + BeforeDot(name[1..])
  }

  function BaseName(path: string): string {
    BeforeDot(FileName(path))
  }

  /** The part of a file name after its first '.', empty without one. */
  function CompleteSuffix(path: string): string {
    var name, base := FileName(path), BeforeDot(FileName(path));
    if |base| < |name| then name[|base| + 1..] else ""
  }

  /** A name is its base name, which has no dot, and what follows the first dot. */
  lemma {:induction false} BaseBeforeDot(name: string)
    ensures '.' !in BeforeDot(name) && BeforeDot(name) <= name
    ensures BeforeDot(name) == name <==> '.' !in name
    ensures '.' in name ==> |BeforeDot(name)| < |name| && name[|BeforeDot(name)|] == '.'
  {
    if name != "" && name[0] != '.' {
      BaseBeforeDot(name[1..]);
      assert name == [name[0]] + name[1..];
    }
  }

  lemma FileNameGrows(front: string, last: char)
    ensures FileName(front + [last]) == if last == '/' then "" else FileName(front) + [last]
  {
    assert (front + [last])[..|front|] == front;
  }

  /** A file name has no separator, and a path ends with it, after a separator or at once. */
  lemma {:induction false} FileNameIsLast(path: string) returns (folder: string)
    ensures path == folder + FileName(path) && '/' !in FileName(path)
    ensures folder == "" || folder[|folder| - 1] == '/'
  {
    if path == "" {
      folder := "";
    } else {
      var front, last := path[..|path| - 1], path[|path| - 1];
      assert path == front + [last];
      FileNameGrows(front, last);
      folder := FileNameIsLast(front);
      if last == '/' {
        folder := path;
      } else {
        assert folder + (FileName(front) + [last]) == (folder + FileName(front)) + [last];
      }
    }
  }

  /** A moved file keeps its name, or gets a number between its base name and its complete suffix; one without a dot
      gets a dot at the end. */
  lemma DestinationNames(dir: string, path: string, n: nat)
    ensures
      var name, base, suffix := FileName(path), BaseName(path), CompleteSuffix(path);
      && '.' !in base
      && name == (if '.' in name then base + "." + suffix else base)
      && PlainName(dir, base, suffix) == dir + "/" + name + (if '.' in name then "" else ".")
      && NumberedName(dir, base, suffix, n) == dir + "/" + base + "." + Decimal(n) + "." + suffix
  {
    var name, base, suffix := FileName(path), BaseName(path), CompleteSuffix(path);
    BaseBeforeDot(name);
    if '.' in name {
      assert suffix == name[|base| + 1..];
      assert name == base + "." + suffix;
      assert dir + "/" + base + "." + suffix == dir + "/" + (base + "." + suffix);
    } else {
      assert suffix == "";
    }
  }

  // ---- Numbers ----

  predicate IsNumeral(s: string) {
    s != "" && forall i :: 0 <= i < |s| ==> '0' <= s[i] <= '9'
  }

  function ValueOf(s: string): int {
    if s == "" then 0 else 10 * ValueOf(s[..|s| - 1]) + (s[|s| - 1] as int - '0' as int)
  }

  /** A number is written in decimal digits, without leading zeros, and reads back. */
  lemma {:induction false} NumbersReadBack(n: nat)
    ensures IsNumeral(Decimal(n)) && ValueOf(Decimal(n)) == n
    ensures Decimal(n)[0] == '0' ==> n == 0
  {
    var s := Decimal(n);
    if n >= 10 {
      NumbersReadBack(n / 10);
      assert s[..|s| - 1] == Decimal(n / 10);
    } else {
      assert s[..0] == "" && ValueOf("") == 0;
    }
  }

  /** The first n numbered names. */
  function Numbered(dir: string, base: string, suffix: string, n: nat): set<string> {
    if n == 0 then {} else Numbered(dir, base, suffix, n - 1) + {NumberedName(dir, base, suffix, n)}
  }

  lemma {:induction false} NumberedIsNew(dir: string, base: string, suffix: string, n: nat, m: nat)
    requires n < m
    ensures NumberedName(dir, base, suffix, m) !in Numbered(dir, base, suffix, n)
  {
    if n > 0 {
      NumberedIsNew(dir, base, suffix, n - 1, m);
      if NumberedName(dir, base, suffix, n) == NumberedName(dir, base, suffix, m) {
        NumberingInjective(dir, base, suffix, n, m);
      }
    }
  }

  lemma {:induction false} NumberedCount(dir: string, base: string, suffix: string, n: nat)
    ensures |Numbered(dir, base, suffix, n)| == n
  {
    if n > 0 {
      NumberedIsNew(dir, base, suffix, n - 1, n);
      NumberedCount(dir, base, suffix, n - 1);
    }
  }

  lemma {:induction false} NumberedTaken(files: set<string>, dir: string, base: string, suffix: string, n: nat)
    requires forall k: nat :: 1 <= k <= n ==> NumberedName(dir, base, suffix, k) in files
    ensures Numbered(dir, base, suffix, n) <= files
  {
    if n > 0 {
      NumberedTaken(files, dir, base, suffix, n - 1);
    }
  }

  lemma {:induction false} SubsetSize(a: set<string>, b: set<string>)
    requires a <= b
    ensures |a| <= |b|
  {
    if a != {} {
      var x :| x in a;
      SubsetSize(a - {x}, b - {x});
    }
  }

  /** A free path: the plain name, or the one with the least free number. */
  ghost predicate IsFreeDestination(destination: string, files: set<string>, dir: string, base: string, suffix: string) {
    && destination !in files
    && if PlainName(dir, base, suffix) !in files then destination == PlainName(dir, base, suffix)
       else
         exists n: nat :: n >= 1 && destination == NumberedName(dir, base, suffix, n) &&
           forall k: nat :: 1 <= k < n ==> NumberedName(dir, base, suffix, k) in files
  }

  /** The collision loop ends for every set of existing files, with the plain name or the least free number. */
  method FreeDestination(files: set<string>, dir: string, base: string, suffix: string) returns (destination: string)
    ensures IsFreeDestination(destination, files, dir, base, suffix)
  {
    destination := PlainName(dir, base, suffix);
    var append := 1;
    while destination in files
      invariant 1 <= append
      invariant append == 1 ==> destination == PlainName(dir, base, suffix)
      invariant append > 1 ==> destination == NumberedName(dir, base, suffix, append - 1)
      invariant append > 1 ==> PlainName(dir, base, suffix) in files
      invariant forall k: nat :: 1 <= k < append - 1 ==> NumberedName(dir, base, suffix, k) in files
      decreases |files| + 1 - append
    {
      NumberedCount(dir, base, suffix, append - 1);
      NumberedTaken(files, dir, base, suffix, append - 1);
      SubsetSize(Numbered(dir, base, suffix, append - 1), files);
      destination := NumberedName(dir, base, suffix, append);
      append := append + 1;
    }
  }

  // ---- A path that is used again ----

  /** One more row than a page holds, where the newest is complete, its file is gone, and nothing else has its path. */
  ghost predicate ForgottenFile(table: seq<Row>, files: set<string>, path: string) {
    && |table| == PAGE + 1 && AllApart(table)
    && table[0].complete && table[0].path == path && path !in files
    && forall i :: 0 < i < |table| ==> table[i].path != path
  }

  /** Reading a page, starting a download with the path again, deleting it, and reading on. */
  function Reuse(files: set<string>, reused: Row): seq<Step> {
    [Fetch(files), Add(reused, false), Delete(reused.path), Fetch(files)]
  }

  lemma ReuseEnd(m: Model, files: set<string>, reused: Row)
    ensures End(m, Reuse(files, reused))
         == Fetched(Deleted(Added(Fetched(m, files), reused, false), ByPath(reused.path)), files)
  {
    var s := Reuse(files, reused);
    var m1 := Fetched(m, files);
    var m2 := Added(m1, reused, false);
    var m3 := Deleted(m2, ByPath(reused.path));
    assert s[1..] == [s[1], s[2], s[3]] && s[1..][1..] == [s[2], s[3]] && s[1..][1..][1..] == [s[3]];
    assert s[1..][1..][1..][1..] == [];
    assert End(m3, [s[3]]) == Fetched(m3, files);
    assert End(m2, [s[2], s[3]]) == End(m3, [s[3]]);
    assert End(m1, [s[1], s[2], s[3]]) == End(m2, [s[2], s[3]]);
  }

  lemma ReusedTable(table: seq<Row>, reused: Row)
    requires |table| == PAGE + 1 && table[0].path == reused.path
    requires forall i :: 0 < i < |table| ==> table[i].path != reused.path
    ensures Without([reused] + table, ByPath(reused.path)) == table[1..]
  {
    var rest := table[1..];
    assert table == [table[0]] + rest && ([reused] + table)[1..] == table;
    forall row | row in rest ensures row.path != reused.path {
      var i :| 0 <= i < |rest| && rest[i] == row;
      assert table[i + 1] == row;
    }
    WithoutNone(rest, ByPath(reused.path));
  }

  /** Deleting the new download deletes two rows read and counts one: the last row is in the table, fetching is
      over, and the row was never read. */
  lemma ReuseLosesARow(table: seq<Row>, files: set<string>, reused: Row)
    requires ForgottenFile(table, files, reused.path) && ApartFrom(reused, table)
    ensures
      var m := End(NewModel(table), Reuse(files, reused));
      && m.table == table[1..] && table[PAGE] in m.table
      && !m.canFetchMore && table[PAGE].id !in m.read
  {
    var page := table[..PAGE];
    var m1 := Fetched(NewModel(table), files);
    var m2 := Added(m1, reused, false);
    var m3 := Deleted(m2, ByPath(reused.path));
    ReuseEnd(NewModel(table), files, reused);
    assert Page(table, 0) == page;
    ReusedTable(table, reused);
    assert m3.table == table[1..] && m3.fetchedCount == PAGE;
    assert Page(m3.table, m3.fetchedCount) == [];
    assert table[1..][PAGE - 1] == table[PAGE];
    assert Apart(reused, table[PAGE]);
    IdsOfRows(page, table[PAGE].id);
    forall k | 0 <= k < |page| ensures page[k].id != table[PAGE].id {
      assert Apart(table[k], table[PAGE]);
    }
  }

  /** Row i of a concrete table: all but the first are unfinished downloads. */
  function PlainRow(i: nat): Row {
    Row(Decimal(i), "", if i == 0 then "p" else "q", "", i == 0, false, "")
  }

  /** A concrete run of that kind. */
  lemma DeleteLosesARow()
    ensures
      var table := seq(PAGE + 1, i requires 0 <= i < PAGE + 1 => PlainRow(i));
      var reused := NewRow(Decimal(PAGE + 1), "", "p", "");
      var m := End(NewModel(table), Reuse({}, reused));
      AllApart(table) && m.table == table[1..] && !m.canFetchMore && table[PAGE].id !in m.read
  {
    var table := seq(PAGE + 1, i requires 0 <= i < PAGE + 1 => PlainRow(i));
    var reused := NewRow(Decimal(PAGE + 1), "", "p", "");
    forall i, j | 0 <= i < j < |table| ensures Apart(table[i], table[j]) {
      if Decimal(i) == Decimal(j) {
        DecimalInjective(i, j);
      }
    }
    forall i | 0 <= i < |table| ensures Apart(reused, table[i]) {
      if Decimal(i) == Decimal(PAGE + 1) {
        DecimalInjective(i, PAGE + 1);
      }
    }
    assert "p"[0] != "q"[0];
    ReuseLosesARow(table, {}, reused);
  }

  // ---- The model object ----

  class DownloadsModel {
    var table: seq<Row>
    var orderedEntries: seq<Entry>
    var numRows: int
    var fetchedCount: int
    var canFetchMore: bool
    ghost var read: set<string>
    ghost var skipped: set<string>

    ghost function State(): Model
      reads this
    {
      Model(table, orderedEntries, numRows, fetchedCount, canFetchMore, read, skipped)
    }

    constructor (table: seq<Row>)
      ensures State() == NewModel(table)
    {
      this.table, orderedEntries, numRows, fetchedCount, canFetchMore := table, [], 0, 0, true;
      read, skipped := {}, {};
    }

    method ListRow(row: Row, files: set<string>)
      modifies this`orderedEntries, this`numRows
      ensures orderedEntries
           == if Listable(row, files) then old(orderedEntries) + [Entry(row, false)] else old(orderedEntries)
      ensures numRows - |orderedEntries| == old(numRows - |orderedEntries|)
    {
      if !row.complete || row.path in files {
        orderedEntries := orderedEntries + [Entry(row, false)];
        numRows := numRows + 1;
      }
    }

    method ListPage(page: seq<Row>, files: set<string>) returns (count: nat)
      modifies this`orderedEntries, this`numRows
      ensures count == |page|
      ensures orderedEntries == old(orderedEntries) + ListableEntries(page, files)
      ensures numRows - |orderedEntries| == old(numRows - |orderedEntries|)
    {
      count := 0;
      while count < |page|
        invariant 0 <= count <= |page|
        invariant orderedEntries + ListableEntries(page[count..], files)
               == old(orderedEntries) + ListableEntries(page, files)
        invariant numRows - |orderedEntries| == old(numRows - |orderedEntries|)
      {
        ListNext(orderedEntries, page, count, files);
        ListRow(page[count], files);
        count := count + 1;
      }
      assert page[count..] == [];
    }

    method FetchMore(files: set<string>)
      modifies this
      ensures State() == Fetched(old(State()), files)
    {
      var page := Page(table, fetchedCount);
      var count := ListPage(page, files);
      fetchedCount := fetchedCount + count;
      if count == 0 {
        canFetchMore := false;
      }
      read, skipped := read + Ids(page), skipped + MissingIds(page, files);
    }

    /** Fetching for as long as more can be fetched reads every row. */
    method FetchAll(files: set<string>)
      requires Valid(State())
      modifies this
      ensures Valid(State()) && table == old(table)
      ensures !canFetchMore && fetchedCount == |table| && forall row :: row in table ==> row.id in read
    {
      while canFetchMore
        invariant Valid(State()) && table == old(table)
        decreases |table| - fetchedCount, canFetchMore
      {
        FetchKeepsValid(State(), files);
        PageIsUnread(State());
        FetchMore(files);
      }
      forall row | row in table ensures row.id in read {
        var i :| 0 <= i < |table| && table[i] == row;
      }
    }

    method GetIndex(key: Key) returns (index: int)
      ensures index == IndexOf(orderedEntries, key)
    {
      index := 0;
      while index < |orderedEntries|
        invariant 0 <= index <= |orderedEntries|
        invariant forall j :: 0 <= j < index ==> !Hits(key, orderedEntries[j].row)
      {
        if Hits(key, orderedEntries[index].row) {
          return;
        }
        index := index + 1;
      }
      index := -1;
    }

    method Add(id: string, url: string, path: string, mimetype: string, incognito: bool)
      modifies this
      ensures State() == Added(old(State()), NewRow(id, url, path, mimetype), incognito)
    {
      var row := Row(id, url, path, mimetype, false, false, "");
      orderedEntries := [Entry(row, incognito)] + orderedEntries;
      numRows := numRows + 1;
      if !incognito {
        table := [row] + table;
        fetchedCount := fetchedCount + 1;
        read, skipped := read + {row.id}, skipped - {row.id};
      }
    }

    /** deleteDownload and cancelDownload: the first entry with the path, or the id. */
    method Delete(key: Key)
      modifies this
      ensures State() == Deleted(old(State()), key)
    {
      var index := GetIndex(key);
      if index != -1 {
        var incognito := orderedEntries[index].incognito;
        orderedEntries := orderedEntries[..index] + orderedEntries[index + 1..];
        numRows := numRows - 1;
        if !incognito {
          table := Without(table, key);
          fetchedCount := fetchedCount - 1;
        }
      }
    }

    method PruneIncognitoDownloads()
      modifies this
      ensures State() == Pruned(old(State()))
    {
      var i := |orderedEntries| - 1;
      while i >= 0
        invariant -1 <= i < |old(orderedEntries)|
        invariant orderedEntries == old(orderedEntries)[..i + 1] + Public(old(orderedEntries)[i + 1..])
        invariant numRows - |orderedEntries| == old(numRows - |orderedEntries|)
        invariant unchanged(`table) && unchanged(`fetchedCount) && unchanged(`canFetchMore)
        invariant unchanged(`read) && unchanged(`skipped)
      {
        PublicStep(old(orderedEntries), i);
        if orderedEntries[i].incognito {
          orderedEntries := TakeAt(orderedEntries, i);
          numRows := numRows - 1;
        }
        i := i - 1;
      }
      assert old(orderedEntries)[0..] == old(orderedEntries);
    }

    method SetComplete(id: string, complete: bool)
      modifies this
      ensures State() == Changed(old(State()), id, Completed(complete))
    {
      var index := GetIndex(ById(id));
      if index != -1 {
        var entry := orderedEntries[index];
        if entry.row.complete == complete {
          return;
        }
        orderedEntries := orderedEntries[index := entry.(row := entry.row.(complete := complete))];
        if !entry.incognito {
          table := Update(table, id, Completed(complete));
        }
      }
    }

    method SetError(id: string, error: string)
      modifies this
      ensures State() == Changed(old(State()), id, Failed(error))
    {
      var index := GetIndex(ById(id));
      if index != -1 {
        var entry := orderedEntries[index];
        if entry.row.error == error {
          return;
        }
        orderedEntries := orderedEntries[index := entry.(row := entry.row.(error := error))];
        if !entry.incognito {
          table := Update(table, id, Failed(error));
        }
      }
    }

    method SetPaused(id: string, paused: bool)
      modifies this
      ensures State() == Changed(old(State()), id, Paused(paused))
    {
      var index := GetIndex(ById(id));
      if index != -1 {
        var entry := orderedEntries[index];
        if entry.row.paused == paused {
          return;
        }
        orderedEntries := orderedEntries[index := entry.(row := entry.row.(paused := paused))];
        if !entry.incognito {
          table := Update(table, id, Paused(paused));
        }
      }
    }

    /** The file at path goes to the downloads folder dir under a free name; renamed says whether that worked. */
    method MoveToDownloads(id: string, path: string, mimetype: string, files: set<string>, dir: string, renamed: bool)
      returns (destination: string)
      modifies this
      ensures State() == FileMoved(old(State()), id, path in files, mimetype, destination, renamed)
      ensures old(IndexOf(orderedEntries, ById(id))) != -1 && path in files ==>
        IsFreeDestination(destination, files, dir, BaseName(path), CompleteSuffix(path))
    {
      destination := "";
      var index := GetIndex(ById(id));
      if index == -1 || path !in files {
        return;
      }
      var entry := orderedEntries[index];
      var updated := false;
      if mimetype != entry.row.mimetype {
        entry := entry.(row := entry.row.(mimetype := mimetype));
        updated := true;
      }
      destination := FreeDestination(files, dir, BaseName(path), CompleteSuffix(path));
      if renamed {
        entry := entry.(row := entry.row.(path := destination));
        updated := true;
      }
      orderedEntries := orderedEntries[index := entry];
      if !entry.incognito && updated {
        table := Update(table, id, Moved(mimetype, destination));
      }
    }
  }

  /** One step of the fetching loop. */
  lemma ListNext(entries: seq<Entry>, page: seq<Row>, count: nat, files: set<string>)
    requires count < |page|
    ensures
      var rest := ListableEntries(page[count + 1..], files);
      entries + ListableEntries(page[count..], files)
        == (if Listable(page[count], files) then entries + [Entry(page[count], false)] else entries) + rest
  {
    assert page[count..][1..] == page[count + 1..];
  }

  /** One step of the backward pruning loop. */
  lemma PublicStep(all: seq<Entry>, i: nat)
    requires i < |all|
    ensures
      var now := all[..i + 1] + Public(all[i + 1..]);
      && now[i] == all[i]
      && all[..i] + Public(all[i..]) == if all[i].incognito then TakeAt(now, i) else now
  {
    assert all[i..][0] == all[i] && all[i..][1..] == all[i + 1..];
    var rest := Public(all[i + 1..]);
    assert TakeAt(all[..i + 1] + rest, i) == all[..i] + rest;
    assert all[..i] + ([all[i]] + rest) == all[..i + 1] + rest;
  }
}
