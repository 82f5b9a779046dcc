/** The history database, its statements, and the worker that queues statements and flushes them later. */
module HistoryDb {
  import opened Calendar
  import opened Collections

  datatype Row = Row(url: string, domain: string, title: string, icon: string, visits: nat, lastVisit: Seconds)

  /** The tables history and history_hidden of one database file, rows in insertion order. */
  datatype Db = Db(history: seq<Row>, hidden: seq<string>)

  datatype Table = History | HistoryHidden

  datatype Op =
    | InsertNewEntry(url: string, domain: string, title: string, icon: string, lastVisit: Seconds)
    | InsertNewHiddenEntry(url: string)
    | UpdateExistingEntry(domain: string, title: string, icon: string, visits: nat, lastVisit: Seconds, url: string)
    | RemoveEntryByUrl(url: string)
    | RemoveHiddenEntryByUrl(url: string)
    | RemoveEntriesByDate(first: int, last: int)
    | RemoveEntriesByDomain(domain: string)
    | Clear(table: Table)

  const EMPTY_DB := Db([], [])
  const MEMORY := ":memory:"

  // ---- Statements ----

  /** The rows of the history table that a DELETE statement matches. */
  predicate Deletes(op: Op, row: Row) {
    match op
    case RemoveEntryByUrl(url) => row.url == url
    case RemoveEntriesByDate(first, last) => first <= row.lastVisit <= last
    case RemoveEntriesByDomain(domain) => row.domain == domain
    case Clear(table) => table == History
    case _ => false
  }

  function DeleteWhere(rows: seq<Row>, op: Op): seq<Row> {
    if rows == [] then []
    else (if Deletes(op, rows[0]) then [] else [rows[0]]) + DeleteWhere(rows[1..], op)
  }

  lemma {:induction false} DeletedRows(rows: seq<Row>, op: Op)
    ensures forall row :: row in DeleteWhere(rows, op) <==> row in rows && !Deletes(op, row)
  {
    if rows != [] {
      DeletedRows(rows[1..], op);
      assert rows == [rows[0]] + rows[1..];
    }
  }

  function Overwritten(row: Row, op: Op): Row
    requires op.UpdateExistingEntry?
  {
    if row.url == op.url then Row(op.url, op.domain, op.title, op.icon, op.visits, op.lastVisit) else row
  }

  function UpdateWhere(rows: seq<Row>, op: Op): (out: seq<Row>)
    requires op.UpdateExistingEntry?
    ensures |out| == |rows|
    ensures forall i :: 0 <= i < |rows| ==> out[i] == Overwritten(rows[i], op)
  {
    seq(|rows|, i requires 0 <= i < |rows| => Overwritten(rows[i], op))
  }

  function Without(urls: seq<string>, url: string): (left: seq<string>)
    ensures forall u :: u in left <==> u in urls && u != url
  {
    if urls == [] then []
    else (if urls[0] == url then [] else [urls[0]]) + Without(urls[1..], url)
  }

  function Apply(db: Db, op: Op): Db {
    match op
    case InsertNewEntry(url, domain, title, icon, lastVisit) =>
      db.(history := db.history + [Row(url, domain, title, icon, 1, lastVisit)])
    case InsertNewHiddenEntry(url) => db.(hidden := db.hidden + [url])
    case UpdateExistingEntry(_, _, _, _, _, _) => db.(history := UpdateWhere(db.history, op))
    case RemoveHiddenEntryByUrl(url) => db.(hidden := Without(db.hidden, url))
    case Clear(HistoryHidden) => db.(hidden := [])
    case _ => db.(history := DeleteWhere(db.history, op))
  }

  function ApplyAll(db: Db, ops: seq<Op>): Db
    decreases |ops|
  {
    if ops == [] then db else ApplyAll(Apply(db, ops[0]), ops[1..])
  }

  lemma {:induction false} ApplyAllAppend(db: Db, ops: seq<Op>, more: seq<Op>)
    ensures ApplyAll(db, ops + more) == ApplyAll(ApplyAll(db, ops), more)
    decreases |ops|
  {
    if ops == [] {
      assert ops + more == more;
    } else {
      assert (ops + more)[1..] == ops[1..] + more;
      ApplyAllAppend(Apply(db, ops[0]), ops[1..], more);
    }
  }

  // ---- SELECT ... ORDER BY lastVisit DESC ----

  ghost predicate NewestFirst(rows: seq<Row>) {
    forall i, j :: 0 <= i < j < |rows| ==> rows[i].lastVisit >= rows[j].lastVisit
  }

  function InsertByVisit(row: Row, sorted: seq<Row>): (out: seq<Row>)
    ensures multiset(out) == multiset(sorted) + multiset{row}
  {
    if sorted == [] || row.lastVisit >= sorted[0].lastVisit then
      [row] + sorted
    else
      assert sorted == [sorted[0]] + sorted[1..];
      [sorted[0]] + InsertByVisit(row, sorted[1..])
  }

  lemma {:induction false} InsertKeepsOrder(row: Row, sorted: seq<Row>)
    requires NewestFirst(sorted)
    ensures NewestFirst(InsertByVisit(row, sorted))
  {
    if sorted != [] && row.lastVisit < sorted[0].lastVisit {
      var rest := InsertByVisit(row, sorted[1..]);
      InsertKeepsOrder(row, sorted[1..]);
      forall r | r in rest ensures sorted[0].lastVisit >= r.lastVisit {
        InsertedFrom(row, sorted[1..], r);
      }
    }
  }

  lemma InsertedFrom(row: Row, sorted: seq<Row>, r: Row)
    requires r in InsertByVisit(row, sorted)
    ensures r == row || r in sorted
  {
    assert r in multiset(InsertByVisit(row, sorted));
  }

  function SortByVisit(rows: seq<Row>): (out: seq<Row>)
    ensures multiset(out) == multiset(rows)
    ensures NewestFirst(out)
  {
    if rows == [] then []
    else
      assert rows == [rows[0]] + rows[1..];
      var rest := SortByVisit(rows[1..]);
      InsertKeepsOrder(rows[0], rest);
      InsertByVisit(rows[0], rest)
  }

  // ---- The worker ----

  datatype WorkerEvent = ResetDatabase(name: string) | FetchEntries | Enqueue(op: Op)

  datatype UiEvent = HiddenFetched(url: string) | EntryFetched(row: Row) | Loaded

  /** The worker thread: the open database, the files it can open, the queue of unflushed operations, whether
      the flush timer runs, and the signals on their way to the UI thread. */
  datatype Worker = Worker(
    current: Option<string>,
    disk: map<string, Db>,
    pending: seq<Op>,
    timer: bool,
    posted: seq<UiEvent>)

  /** The contents of a database file; one that does not exist yet has nothing in its tables. */
  function FileOf(disk: map<string, Db>, name: string): Db {
    if name in disk then disk[name] else EMPTY_DB
  }

  /** Closing a connection loses an in-memory database and keeps a file. */
  function Closed(disk: map<string, Db>, current: Option<string>): map<string, Db> {
    if current == Some(MEMORY) then disk - {MEMORY} else disk
  }

  /** Opening creates the tables when they are missing. */
  function Opened(disk: map<string, Db>, name: string): map<string, Db> {
    if name in disk then disk else disk[name := EMPTY_DB]
  }

  function HiddenEvents(urls: seq<string>): (events: seq<UiEvent>)
    ensures |events| == |urls| && forall i :: 0 <= i < |urls| ==> events[i] == HiddenFetched(urls[i])
  {
    seq(|urls|, i requires 0 <= i < |urls| => HiddenFetched(urls[i]))
  }

  function EntryEvents(rows: seq<Row>): (events: seq<UiEvent>)
    ensures |events| == |rows| && forall i :: 0 <= i < |rows| ==> events[i] == EntryFetched(rows[i])
  {
    seq(|rows|, i requires 0 <= i < |rows| => EntryFetched(rows[i]))
  }

  /** Everything a fetch signals: the hidden urls, the rows newest first, then loaded. */
  function FetchEvents(db: Db): seq<UiEvent> {
    HiddenEvents(db.hidden) + EntryEvents(SortByVisit(db.history)) + [Loaded]
  }

  lemma FetchEventsAfter(before: seq<UiEvent>, db: Db)
    ensures before + HiddenEvents(db.hidden) + EntryEvents(SortByVisit(db.history)) + [Loaded] == before + FetchEvents(db)
  {
  }

  ghost predicate WorkerValid(w: Worker) {
    && (w.current.Some? ==> w.current.value in w.disk)
    && (w.pending != [] ==> w.timer)
  }

  function Enqueued(w: Worker, op: Op): Worker {
    w.(pending := w.pending + [op], timer := true)
  }

  /** Operations flushed while no database is open cannot be prepared and are discarded. */
  function Flushed(w: Worker): Worker
  {
    match w.current
    case None => w.(pending := [])
    case Some(name) => w.(pending := [], disk := w.disk[name := ApplyAll(FileOf(w.disk, name), w.pending)])
  }

  /** The single-shot timer fires. */
  function TimedOut(w: Worker): Worker
  {
    Flushed(w).(timer := false)
  }

  function DatabaseReset(w: Worker, name: string): Worker
  {
    var f := Flushed(w);
    f.(timer := false, current := Some(name), disk := Opened(Closed(f.disk, f.current), name))
  }

  /** A fetch reads the database file only: operations still queued are not visible to it. */
  function Fetched(w: Worker): Worker
  {
    match w.current
    case None => w.(posted := w.posted + [Loaded])
    case Some(name) => w.(posted := w.posted + FetchEvents(FileOf(w.disk, name)))
  }

  function Destroyed(w: Worker): Worker
  {
    var f := Flushed(w);
    f.(timer := false, current := None, disk := Closed(f.disk, f.current))
  }

  function Handled(w: Worker, event: WorkerEvent): Worker
  {
    match event
    case ResetDatabase(name) => DatabaseReset(w, name)
    case FetchEntries => Fetched(w)
    case Enqueue(op) => Enqueued(w, op)
  }

  /** The in-memory database lives as long as its connection. */
  predicate MemoryOnlyOpen(w: Worker) {
    MEMORY in w.disk ==> w.current == Some(MEMORY)
  }

  /** It is empty whenever it is opened, and gone when another database is opened or the worker ends. */
  lemma MemoryStartsEmpty(w: Worker, event: WorkerEvent)
    requires MemoryOnlyOpen(w)
    ensures MemoryOnlyOpen(Handled(w, event)) && MemoryOnlyOpen(TimedOut(w)) && MEMORY !in Destroyed(w).disk
    ensures DatabaseReset(w, MEMORY).disk[MEMORY] == Db([], [])
  {
  }

  /** The timer runs exactly while operations wait for it. */
  predicate TimerExact(w: Worker) {
    w.timer <==> w.pending != []
  }

  lemma TimerRunsForPending(w: Worker, event: WorkerEvent)
    requires TimerExact(w)
    ensures TimerExact(Handled(w, event)) && TimerExact(TimedOut(w)) && TimerExact(Destroyed(w))
    ensures event.Enqueue? ==> Handled(w, event).timer
    ensures !TimedOut(w).timer && !Destroyed(w).timer && !DatabaseReset(w, MEMORY).timer
  {
  }

  /** The worker object. Each slot is proved against the function above that describes its effect. */
  class DbWorker {
    var current: Option<string>
    var disk: map<string, Db>
    var pending: seq<Op>
    var timer: bool
    var posted: seq<UiEvent>

    function State(): Worker
      reads this
    {
      Worker(current, disk, pending, timer, posted)
    }

    ghost predicate Valid()
      reads this
    {
      WorkerValid(State())
    }

    constructor (disk: map<string, Db>)
      ensures Valid() && State() == Worker(None, disk, [], false, [])
    {
      this.current, this.disk, pending, timer, posted := None, disk, [], false, [];
    }

    method DoEnqueue(op: Op)
      requires Valid()
      modifies this
      ensures Valid() && State() == Enqueued(old(State()), op)
    {
      pending := pending + [op];
      timer := true;
    }

    method DoFlush()
      requires Valid()
      modifies this`pending, this`disk
      ensures Valid() && State() == Flushed(old(State()))
    {
      while pending != []
        invariant current.Some? ==> current.value in disk && current.value in old(disk)
        invariant current.None? ==> disk == old(disk)
        invariant pending != [] ==> timer
        invariant current.Some? ==>
          disk == old(disk)[current.value := disk[current.value]] &&
          ApplyAll(disk[current.value], pending) == ApplyAll(old(disk)[current.value], old(pending))
        decreases |pending|
      {
        var op := pending[0];
        pending := pending[1..];
        if current.None? {
          continue;
        }
        disk := disk[current.value := Apply(disk[current.value], op)];
      }
    }

    method OnTimeout()
      requires Valid()
      modifies this
      ensures Valid() && State() == TimedOut(old(State()))
    {
      DoFlush();
      timer := false;
    }

    method DoResetDatabase(name: string)
      requires Valid()
      modifies this
      ensures Valid() && State() == DatabaseReset(old(State()), name)
    {
      DoFlush();
      timer := false;
      disk := Closed(disk, current);
      current := Some(name);
      disk := Opened(disk, name);
    }

    method PostHidden(hidden: seq<string>)
      modifies this`posted
      ensures posted == old(posted) + HiddenEvents(hidden)
    {
      for i := 0 to |hidden|
        invariant posted == old(posted) + HiddenEvents(hidden)[..i]
      {
        posted := posted + [HiddenFetched(hidden[i])];
      }
    }

    method PostEntries(rows: seq<Row>)
      modifies this`posted
      ensures posted == old(posted) + EntryEvents(rows)
    {
      for i := 0 to |rows|
        invariant posted == old(posted) + EntryEvents(rows)[..i]
      {
        posted := posted + [EntryFetched(rows[i])];
      }
    }

    method DoFetchEntries()
      requires Valid()
      modifies this`posted
      ensures Valid() && State() == Fetched(old(State()))
    {
      if current.Some? {
        var db := disk[current.value];
        PostHidden(db.hidden);
        PostEntries(SortByVisit(db.history));
        FetchEventsAfter(old(posted), db);
      }
      posted := posted + [Loaded];
    }

    /** The destructor: a last flush, then the connection is closed. */
    method Destroy()
      requires Valid()
      modifies this
      ensures Valid() && State() == Destroyed(old(State()))
    {
      DoFlush();
      timer := false;
      disk := Closed(disk, current);
      current := None;
    }
  }
}
