/** The index of visit dates over the rows of a source: which dates occur, newest first, and which rows have them. */
module DateList {
  import opened Calendar
  import opened Collections

  /** A source row: its persistent index, which stays valid until the row is removed, and its unchanging date. */
  datatype Row = Row(id: nat, date: Date)

  /** What the list signals; every inserted or removed range is a single row. */
  datatype Note = RowInserted(at: int) | RowRemoved(at: int) | WasReset

  /** A signal together with the list that can be read when the change ends. */
  datatype Emission = Emission(note: Note, dates: seq<Date>)

  /** Whether the source has a lastVisitDate role, the persistent indexes by date, and the list. */
  datatype Model = Model(role: bool, buckets: map<Date, seq<nat>>, dates: seq<Date>)

  /** QDate's order, in which an invalid date comes before every other. */
  predicate Later(a: Date, b: Date) {
    a.Day? && (b.Day? ==> a.number > b.number)
  }

  // ---- A listener that knows nothing but the signals ----

  /** The listener's view after one signal, or None when the range or the row count is wrong. */
  function Heard(view: seq<Date>, e: Emission): Option<seq<Date>> {
    match e.note
    case RowInserted(at) =>
      if 0 <= at <= |view| && |e.dates| == |view| + 1 then Some(view[..at] + [e.dates[at]] + view[at..]) else None
    case RowRemoved(at) =>
      if 0 <= at < |view| && |e.dates| == |view| - 1 then Some(view[..at] + view[at + 1..]) else None
    case WasReset => Some(e.dates)
  }

  // ---- A new row ----

  /** The first position from the given one that holds an older date, or the end. */
  function Position(dates: seq<Date>, date: Date, from: nat): (at: nat)
    requires from <= |dates|
    ensures from <= at <= |dates|
    ensures forall j :: from <= j < at ==> !Later(date, dates[j])
    ensures at < |dates| ==> Later(date, dates[at])
    decreases |dates| - from
  {
    if from == |dates| || Later(date, dates[from]) then from else Position(dates, date, from + 1)
  }

  /** The list with its default entry, which stands for all dates. */
  function WithDefault(dates: seq<Date>): seq<Date> {
    if dates == [] then [NoDate] else dates
  }

  function WithDate(dates: seq<Date>, date: Date): seq<Date> {
    var headed := WithDefault(dates);
    var at := Position(headed, date, 1);
    headed[..at] + [date] + headed[at..]
  }

  function WithDateLog(dates: seq<Date>, date: Date): seq<Emission> {
    (if dates == [] then [Emission(RowInserted(0), [NoDate])] else []) +
    [Emission(RowInserted(Position(WithDefault(dates), date, 1)), WithDate(dates, date))]
  }

  function Entered(m: Model, row: Row): Model {
    if !m.role then m
    else if row.date in m.buckets then m.(buckets := m.buckets[row.date := m.buckets[row.date] + [row.id]])
    else m.(buckets := m.buckets[row.date := [row.id]], dates := WithDate(m.dates, row.date))
  }

  function EnteredLog(m: Model, row: Row): seq<Emission> {
    if !m.role || row.date in m.buckets then [] else WithDateLog(m.dates, row.date)
  }

  function EnteredAll(m: Model, rows: seq<Row>): Model
    decreases |rows|
  {
    if rows == [] then m else EnteredAll(Entered(m, rows[0]), rows[1..])
  }

  function EnteredAllLog(m: Model, rows: seq<Row>): seq<Emission>
    decreases |rows|
  {
    if rows == [] then [] else EnteredLog(m, rows[0]) + EnteredAllLog(Entered(m, rows[0]), rows[1..])
  }

  // ---- Removed rows ----

  function Ids(rows: seq<Row>): set<nat> {
    set row | row in rows :: row.id
  }

  /** The indexes of a bucket that are still valid. */
  function Alive(bucket: seq<nat>, live: set<nat>): seq<nat> {
    if bucket == [] then []
    else if bucket[0] in live then [bucket[0]] + Alive(bucket[1..], live)
    else Alive(bucket[1..], live)
  }

  function IndexOf(dates: seq<Date>, date: Date): (index: int)
    ensures -1 <= index < |dates|
    ensures index >= 0 ==> dates[index] == date && date !in dates[..index]
    ensures index == -1 ==> date !in dates
  {
    if dates == [] then -1
    else if dates[0] == date then 0
    else
      var rest := IndexOf(dates[1..], date);
      assert dates == [dates[0]] + dates[1..];
      assert rest >= 0 ==> dates[..rest + 1] == [dates[0]] + dates[1..][..rest];
      if rest == -1 then -1 else rest + 1
  }

  function DropAt(dates: seq<Date>, index: int): seq<Date> {
    if 0 <= index < |dates| then TakeAt(dates, index) else dates
  }

  /** Sweeping one bucket: dead indexes are erased, and the date goes with its last index. */
  function SweptOne(m: Model, live: set<nat>, date: Date): Model {
    if date !in m.buckets then m
    else
      var kept := Alive(m.buckets[date], live);
      if kept != [] then m.(buckets := m.buckets[date := kept])
      else m.(buckets := m.buckets - {date}, dates := DropAt(m.dates, IndexOf(m.dates, date)))
  }

  function SweptOneLog(m: Model, live: set<nat>, date: Date): seq<Emission> {
    if date !in m.buckets || Alive(m.buckets[date], live) != [] then []
    else [Emission(RowRemoved(IndexOf(m.dates, date)), SweptOne(m, live, date).dates)]
  }

  function Swept(m: Model, live: set<nat>, order: seq<Date>): Model
    decreases |order|
  {
    if order == [] then m else Swept(SweptOne(m, live, order[0]), live, order[1..])
  }

  function SweptLog(m: Model, live: set<nat>, order: seq<Date>): seq<Emission>
    decreases |order|
  {
    if order == [] then []
    else SweptOneLog(m, live, order[0]) + SweptLog(SweptOne(m, live, order[0]), live, order[1..])
  }

  /** Rows were removed and the buckets are swept in some order; the default entry goes with the last bucket. */
  function Removed(m: Model, live: set<nat>, order: seq<Date>): Model {
    var swept := Swept(m, live, order);
    if swept.buckets == map[] then swept.(dates := []) else swept
  }

  function RemovedLog(m: Model, live: set<nat>, order: seq<Date>): seq<Emission> {
    SweptLog(m, live, order) +
    (if Swept(m, live, order).buckets == map[] then [Emission(RowRemoved(0), [])] else [])
  }

  function WasResetTo(role: bool, rows: seq<Row>): Model {
    EnteredAll(Model(role, map[], []), rows)
  }

  // ---- The invariant ----

  /** The default entry, then the given dates, newest first. */
  ghost predicate Headed(dates: seq<Date>, keys: set<Date>) {
    && dates != [] && dates[0] == NoDate
    && (forall i, j :: 1 <= i < j < |dates| ==> Later(dates[i], dates[j]))
    && (forall date :: date in dates[1..] <==> date in keys)
  }

  ghost predicate Listing(dates: seq<Date>, keys: set<Date>) {
    if keys == {} then dates == [] else Headed(dates, keys)
  }

  predicate Holds(buckets: map<Date, seq<nat>>, date: Date, id: nat) {
    date in buckets && id in buckets[date]
  }

  /** The buckets hold exactly the rows, each under its date, and none is empty. */
  ghost predicate Bucketed(buckets: map<Date, seq<nat>>, rows: seq<Row>) {
    && (forall date :: date in buckets ==> buckets[date] != [] && Distinct(buckets[date]))
    && (forall date, id :: Holds(buckets, date, id) <==> Row(id, date) in rows)
  }

  ghost predicate DistinctIds(rows: seq<Row>) {
    forall i, j :: 0 <= i < j < |rows| ==> rows[i].id != rows[j].id
  }

  /** What is left of the list once the default entry was taken away for the entry of the undated rows. */
  ghost predicate Headless(dates: seq<Date>, keys: set<Date>) {
    && NoDate !in keys
    && (forall i, j :: 0 <= i < j < |dates| ==> Later(dates[i], dates[j]))
    && (forall date :: date in dates <==> date in keys || date == NoDate)
  }

  ghost predicate Valid(m: Model, rows: seq<Row>) {
    if m.role then Bucketed(m.buckets, rows) && Listing(m.dates, m.buckets.Keys)
    else m.buckets == map[] && m.dates == []
  }

  // ---- Entering rows ----

  lemma WithDateListed(dates: seq<Date>, keys: set<Date>, date: Date)
    requires Listing(dates, keys) && date !in keys
    ensures Listing(WithDate(dates, date), keys + {date})
    ensures HeardAll(Heard, dates, WithDateLog(dates, date)) == Some(WithDate(dates, date))
  {
    var headed := WithDefault(dates);
    var at := Position(headed, date, 1);
    var list := WithDate(dates, date);
    assert Headed(headed, keys);
    WithDateHeaded(headed, keys, date);
    var last := Emission(RowInserted(at), list);
    HeardOne(Heard, headed, last);
    if dates == [] {
      var first := Emission(RowInserted(0), [NoDate]);
      HeardOne(Heard, dates, first);
      assert dates[..0] + [NoDate] + dates[0..] == headed;
      HeardAppend(Heard, dates, [first], [last]);
    }
  }

  lemma WithDateHeaded(headed: seq<Date>, keys: set<Date>, date: Date)
    requires Headed(headed, keys) && date !in keys
    ensures
      var at := Position(headed, date, 1);
      Headed(headed[..at] + [date] + headed[at..], keys + {date})
  {
    var at := Position(headed, date, 1);
    var list := headed[..at] + [date] + headed[at..];
    forall j | 1 <= j < |headed| ensures headed[j] != date {
      assert headed[j] in headed[1..];
    }
    assert list[1..] == headed[1..at] + [date] + headed[at..];
    assert headed[1..] == headed[1..at] + headed[at..];
    forall i, j | 1 <= i < j < |list| ensures Later(list[i], list[j]) {
      if i == at {
        assert at < j - 1 ==> Later(headed[at], headed[j - 1]);
      } else if j == at {
        assert !Later(date, headed[i]);
      }
    }
  }

  lemma EnteredBucketed(buckets: map<Date, seq<nat>>, rows: seq<Row>, row: Row)
    requires Bucketed(buckets, rows) && forall r :: r in rows ==> r.id != row.id
    ensures
      var before := if row.date in buckets then buckets[row.date] else [];
      Bucketed(buckets[row.date := before + [row.id]], rows + [row])
  {
    var before := if row.date in buckets then buckets[row.date] else [];
    var after := buckets[row.date := before + [row.id]];
    forall i | 0 <= i < |before| ensures before[i] != row.id {
      assert Holds(buckets, row.date, before[i]);
    }
    forall date, id ensures Holds(after, date, id) <==> Row(id, date) in rows + [row] {
      assert Holds(buckets, date, id) <==> Row(id, date) in rows;
    }
  }

  lemma EnterKeepsListing(m: Model, row: Row)
    requires m.role && Listing(m.dates, m.buckets.Keys)
    ensures Listing(Entered(m, row).dates, Entered(m, row).buckets.Keys)
    ensures HeardAll(Heard, m.dates, EnteredLog(m, row)) == Some(Entered(m, row).dates)
  {
    if row.date in m.buckets {
      assert Entered(m, row).buckets.Keys == m.buckets.Keys;
    } else {
      WithDateListed(m.dates, m.buckets.Keys, row.date);
      assert Entered(m, row).buckets.Keys == m.buckets.Keys + {row.date};
    }
  }

  lemma EnterKeepsValid(m: Model, rows: seq<Row>, row: Row)
    requires Valid(m, rows) && forall r :: r in rows ==> r.id != row.id
    ensures Valid(Entered(m, row), rows + [row])
    ensures HeardAll(Heard, m.dates, EnteredLog(m, row)) == Some(Entered(m, row).dates)
  {
    if m.role {
      EnteredBucketed(m.buckets, rows, row);
      EnterKeepsListing(m, row);
      assert Entered(m, row).role;
      var before := if row.date in m.buckets then m.buckets[row.date] else [];
      assert row.date !in m.buckets ==> before + [row.id] == [row.id];
      assert Entered(m, row).buckets == m.buckets[row.date := before + [row.id]];
    }
  }

  lemma {:induction false} EnterAllKeepsValid(m: Model, rows: seq<Row>, added: seq<Row>)
    requires Valid(m, rows) && DistinctIds(rows + added)
    ensures Valid(EnteredAll(m, added), rows + added)
    ensures HeardAll(Heard, m.dates, EnteredAllLog(m, added)) == Some(EnteredAll(m, added).dates)
    decreases |added|
  {
    if added == [] {
      assert rows + added == rows;
    } else {
      var row, rest := added[0], added[1..];
      var next := Entered(m, row);
      forall r | r in rows ensures r.id != row.id {
        var i :| 0 <= i < |rows| && rows[i] == r;
        assert (rows + added)[i].id != (rows + added)[|rows|].id;
      }
      EnterKeepsValid(m, rows, row);
      assert (rows + [row]) + rest == rows + added;
      EnterAllKeepsValid(next, rows + [row], rest);
      HeardAppend(Heard, m.dates, EnteredLog(m, row), EnteredAllLog(next, rest));
    }
  }

  /** The invariant does not depend on where the rows are. */
  lemma ValidAnywhere(m: Model, a: seq<Row>, b: seq<Row>)
    requires Valid(m, a) && SameElements(a, b)
    ensures Valid(m, b)
  {
    if m.role {
      forall date, id ensures Holds(m.buckets, date, id) <==> Row(id, date) in b {
        assert Row(id, date) in a <==> Row(id, date) in b;
      }
    }
  }

  // ---- Sweeping the buckets ----

  lemma {:induction false} AliveMembers(bucket: seq<nat>, live: set<nat>)
    ensures forall id :: id in Alive(bucket, live) <==> id in bucket && id in live
  {
    if bucket != [] {
      AliveMembers(bucket[1..], live);
      assert bucket == [bucket[0]] + bucket[1..];
    }
  }

  lemma {:induction false} AliveDistinct(bucket: seq<nat>, live: set<nat>)
    requires Distinct(bucket)
    ensures Distinct(Alive(bucket, live))
  {
    if bucket != [] {
      AliveDistinct(bucket[1..], live);
      AliveMembers(bucket[1..], live);
      assert bucket[0] !in bucket[1..];
      var rest := Alive(bucket[1..], live);
      forall i | 0 <= i < |rest| ensures rest[i] != bucket[0] {
        assert rest[i] in rest;
      }
    }
  }

  lemma DropHeaded(dates: seq<Date>, keys: set<Date>, date: Date)
    requires Headed(dates, keys) && date in keys && date.Day?
    ensures
      var at := IndexOf(dates, date);
      && Headed(DropAt(dates, at), keys - {date})
      && Heard(dates, Emission(RowRemoved(at), DropAt(dates, at))) == Some(DropAt(dates, at))
  {
    var at := IndexOf(dates, date);
    var left := DropAt(dates, at);
    assert date in dates[1..];
    assert dates == [NoDate] + dates[1..];
    assert at >= 1;
    assert left[1..] == dates[1..at] + dates[at + 1..];
    assert dates[1..] == dates[1..at] + [date] + dates[at + 1..];
    forall i, j | 1 <= i < j < |left| ensures Later(left[i], left[j]) {
      assert Later(dates[if i < at then i else i + 1], dates[if j < at then j else j + 1]);
    }
    forall i | 1 <= i < |dates| && i != at ensures dates[i] != date {
      assert i < at ==> Later(dates[i], dates[at]);
      assert at < i ==> Later(dates[at], dates[i]);
    }
    forall d ensures d in left[1..] <==> d in keys - {date} {
      assert d in dates[1..] <==> d in keys;
      assert date !in left[1..];
    }
  }

  /** The buckets after a sweep of the given dates. */
  ghost predicate Sweeps(before: map<Date, seq<nat>>, after: map<Date, seq<nat>>, live: set<nat>, order: seq<Date>) {
    forall date ::
      && (date in after <==> date in before && (date in order ==> Alive(before[date], live) != []))
      && (date in after ==> after[date] == if date in order then Alive(before[date], live) else before[date])
  }

  lemma DropHeadless(dates: seq<Date>, keys: set<Date>, date: Date)
    requires Headless(dates, keys) && date in keys
    ensures
      var at := IndexOf(dates, date);
      && Headless(DropAt(dates, at), keys - {date})
      && Heard(dates, Emission(RowRemoved(at), DropAt(dates, at))) == Some(DropAt(dates, at))
  {
    var at := IndexOf(dates, date);
    var left := DropAt(dates, at);
    assert dates == dates[..at] + [date] + dates[at + 1..];
    forall i, j | 0 <= i < j < |left| ensures Later(left[i], left[j]) {
      assert Later(dates[if i < at then i else i + 1], dates[if j < at then j else j + 1]);
    }
    forall i | 0 <= i < |dates| && i != at ensures dates[i] != date {
      assert i < at ==> Later(dates[i], dates[at]);
      assert at < i ==> Later(dates[at], dates[i]);
    }
    assert date !in left;
    forall d ensures d in left <==> d in keys - {date} || d == NoDate {
      assert d in dates <==> d in keys || d == NoDate;
    }
  }

  /** The entry of the undated rows is looked up at the default entry. */
  lemma DropDefault(dates: seq<Date>, keys: set<Date>)
    requires Headed(dates, keys) && NoDate in keys
    ensures IndexOf(dates, NoDate) == 0
    ensures Headless(DropAt(dates, 0), keys - {NoDate})
    ensures Heard(dates, Emission(RowRemoved(0), DropAt(dates, 0))) == Some(DropAt(dates, 0))
  {
    var left := dates[1..];
    assert DropAt(dates, 0) == left;
    forall i, j | 0 <= i < j < |left| ensures Later(left[i], left[j]) {
      assert Later(dates[i + 1], dates[j + 1]);
    }
    forall date ensures date in left <==> date in keys - {NoDate} || date == NoDate {
      assert date in left <==> date in keys;
    }
  }

  /** The undated rows lose their last index. */
  ghost predicate DropsUndated(m: Model, live: set<nat>, date: Date) {
    date == NoDate && date in m.buckets && Alive(m.buckets[date], live) == []
  }

  ghost predicate Shaped(dates: seq<Date>, keys: set<Date>, headless: bool) {
    if headless then Headless(dates, keys) else Headed(dates, keys)
  }

  lemma SweepOneSweeps(m: Model, live: set<nat>, date: Date)
    requires date in m.buckets
    ensures Sweeps(m.buckets, SweptOne(m, live, date).buckets, live, [date])
  {
    forall d ensures d in [date] <==> d == date {
    }
  }

  /** Dropping the entry of a bucket, wherever it is found. */
  lemma DropShapes(dates: seq<Date>, keys: set<Date>, date: Date, headless: bool)
    requires Shaped(dates, keys, headless) && date in keys
    ensures
      var at := IndexOf(dates, date);
      && Shaped(DropAt(dates, at), keys - {date}, headless || date == NoDate)
      && Heard(dates, Emission(RowRemoved(at), DropAt(dates, at))) == Some(DropAt(dates, at))
  {
    if headless {
      DropHeadless(dates, keys, date);
    } else if date == NoDate {
      DropDefault(dates, keys);
    } else {
      DropHeaded(dates, keys, date);
    }
  }

  lemma SweepOneDrops(m: Model, live: set<nat>, date: Date, headless: bool)
    requires Shaped(m.dates, m.buckets.Keys, headless) && date in m.buckets && Alive(m.buckets[date], live) == []
    ensures
      var next := SweptOne(m, live, date);
      && Shaped(next.dates, m.buckets.Keys - {date}, headless || date == NoDate)
      && HeardAll(Heard, m.dates, SweptOneLog(m, live, date)) == Some(next.dates)
  {
    DropShapes(m.dates, m.buckets.Keys, date, headless);
    HeardOne(Heard, m.dates, Emission(RowRemoved(IndexOf(m.dates, date)), SweptOne(m, live, date).dates));
  }

  lemma SweepOneKeys(m: Model, live: set<nat>, date: Date)
    requires date in m.buckets
    ensures SweptOne(m, live, date).buckets.Keys
         == if Alive(m.buckets[date], live) == [] then m.buckets.Keys - {date} else m.buckets.Keys
  {
  }

  lemma SweepOneShapes(m: Model, live: set<nat>, date: Date, headless: bool)
    requires Shaped(m.dates, m.buckets.Keys, headless) && date in m.buckets
    ensures
      var next := SweptOne(m, live, date);
      && Shaped(next.dates, next.buckets.Keys, headless || DropsUndated(m, live, date))
      && HeardAll(Heard, m.dates, SweptOneLog(m, live, date)) == Some(next.dates)
      && Sweeps(m.buckets, next.buckets, live, [date])
  {
    SweepOneSweeps(m, live, date);
    SweepOneKeys(m, live, date);
    if Alive(m.buckets[date], live) == [] {
      SweepOneDrops(m, live, date, headless);
    }
  }

  lemma {:induction false} SweepShapes(m: Model, live: set<nat>, order: seq<Date>, headless: bool)
    requires Shaped(m.dates, m.buckets.Keys, headless) && Distinct(order)
    requires forall date :: date in order ==> date in m.buckets
    ensures
      var swept := Swept(m, live, order);
      && swept.role == m.role
      && Shaped(swept.dates, swept.buckets.Keys, headless || (NoDate in order && DropsUndated(m, live, NoDate)))
      && HeardAll(Heard, m.dates, SweptLog(m, live, order)) == Some(swept.dates)
      && Sweeps(m.buckets, swept.buckets, live, order)
    decreases |order|
  {
    if order != [] {
      var date, rest := order[0], order[1..];
      var next := SweptOne(m, live, date);
      SweepOneShapes(m, live, date, headless);
      assert order == [date] + rest;
      assert date !in rest;
      forall d | d in rest ensures d in next.buckets && next.buckets[d] == m.buckets[d] {
        assert d in order && d !in [date];
      }
      SweepShapes(next, live, rest, headless || DropsUndated(m, live, date));
      HeardAppend(Heard, m.dates, SweptOneLog(m, live, date), SweptLog(next, live, rest));
      SweepsCompose(m.buckets, next.buckets, Swept(m, live, order).buckets, live, date, rest);
    }
  }

  lemma SweepsCompose(a: map<Date, seq<nat>>, b: map<Date, seq<nat>>, c: map<Date, seq<nat>>,
                      live: set<nat>, date: Date, rest: seq<Date>)
    requires Sweeps(a, b, live, [date]) && Sweeps(b, c, live, rest) && date !in rest
    ensures Sweeps(a, c, live, [date] + rest)
  {
    forall d
      ensures d in c <==> d in a && (d in [date] + rest ==> Alive(a[d], live) != [])
      ensures d in c ==> c[d] == if d in [date] + rest then Alive(a[d], live) else a[d]
    {
      assert d in [date] + rest <==> d == date || d in rest;
      assert d in [date] <==> d == date;
    }
  }

  lemma SweptBucketed(before: map<Date, seq<nat>>, after: map<Date, seq<nat>>, rows: seq<Row>, left: seq<Row>,
                      order: seq<Date>)
    requires Bucketed(before, rows) && Enumerates(order, before.Keys) && Sweeps(before, after, Ids(left), order)
    requires DistinctIds(rows) && forall row :: row in left ==> row in rows
    ensures Bucketed(after, left)
  {
    forall date | date in after ensures after[date] != [] && Distinct(after[date]) {
      AliveDistinct(before[date], Ids(left));
    }
    forall date, id ensures Holds(after, date, id) <==> Row(id, date) in left {
      if date in before {
        AliveMembers(before[date], Ids(left));
      }
      assert Holds(before, date, id) <==> Row(id, date) in rows;
      assert Row(id, date) in left ==> Row(id, date).id in Ids(left);
      if Row(id, date) in rows && id in Ids(left) {
        var row :| row in left && row.id == id;
        SameRow(rows, row, Row(id, date));
      }
    }
  }

  lemma SameRow(rows: seq<Row>, a: Row, b: Row)
    requires DistinctIds(rows) && a in rows && b in rows && a.id == b.id
    ensures a == b
  {
    var i :| 0 <= i < |rows| && rows[i] == a;
    var j :| 0 <= j < |rows| && rows[j] == b;
    assert i == j;
  }

  /** The last undated row goes while a dated one stays. */
  ghost predicate LosesUndated(rows: seq<Row>, left: seq<Row>) {
    Occurs(rows, NoDate) && !Occurs(left, NoDate) && left != []
  }

  /** A row has the date. */
  ghost predicate Occurs(rows: seq<Row>, date: Date) {
    exists i :: 0 <= i < |rows| && rows[i].date == date
  }

  lemma KeysOccur(buckets: map<Date, seq<nat>>, rows: seq<Row>)
    requires Bucketed(buckets, rows)
    ensures forall date :: date in buckets <==> Occurs(rows, date)
  {
    forall date ensures date in buckets <==> Occurs(rows, date) {
      if date in buckets {
        assert Holds(buckets, date, buckets[date][0]);
        var i :| 0 <= i < |rows| && rows[i] == Row(buckets[date][0], date);
      }
      if i :| 0 <= i < |rows| && rows[i].date == date {
        assert rows[i] == Row(rows[i].id, date);
        assert Holds(buckets, date, rows[i].id);
      }
    }
  }

  /** With the last bucket the default entry goes too. */
  lemma LastBucketGone(view: seq<Date>, swept: Model, log: seq<Emission>, headless: bool)
    requires HeardAll(Heard, view, log) == Some(swept.dates) && Shaped(swept.dates, swept.buckets.Keys, headless)
    ensures
      var gone := swept.buckets == map[];
      var dates := if gone then [] else swept.dates;
      && HeardAll(Heard, view, log + if gone then [Emission(RowRemoved(0), [])] else []) == Some(dates)
      && (Listing(dates, swept.buckets.Keys) <==> gone || !headless)
  {
    if swept.buckets == map[] {
      var last := Emission(RowRemoved(0), []);
      OneLeft(swept.dates, headless);
      assert swept.dates[..0] + swept.dates[1..] == [];
      HeardOne(Heard, swept.dates, last);
      HeardAppend(Heard, view, log, [last]);
    } else {
      assert swept.buckets.Keys != {};
      assert log + [] == log;
      if headless {
        var date :| date in swept.buckets;
        var i :| 0 <= i < |swept.dates| && swept.dates[i] == date;
        assert i > 0 ==> Later(swept.dates[0], swept.dates[i]);
      }
    }
  }

  lemma OneLeft(dates: seq<Date>, headless: bool)
    requires Shaped(dates, {}, headless)
    ensures dates == [NoDate]
  {
    if headless {
      var last := |dates| - 1;
      assert dates[0] in dates && dates[last] in dates;
      assert dates[0] == NoDate && dates[last] == NoDate;
    } else {
      HasMember(dates[1..]);
    }
  }

  lemma SweptState(m: Model, rows: seq<Row>, left: seq<Row>, order: seq<Date>) returns (headless: bool)
    requires Valid(m, rows) && m.role && rows != [] && DistinctIds(rows)
    requires Enumerates(order, m.buckets.Keys) && forall row :: row in left ==> row in rows
    ensures
      var swept := Swept(m, Ids(left), order);
      && swept.role
      && Bucketed(swept.buckets, left)
      && Shaped(swept.dates, swept.buckets.Keys, headless)
      && HeardAll(Heard, m.dates, SweptLog(m, Ids(left), order)) == Some(swept.dates)
      && (headless <==> Occurs(rows, NoDate) && !Occurs(left, NoDate))
  {
    var live := Ids(left);
    var swept := Swept(m, live, order);
    assert Row(rows[0].id, rows[0].date) in rows;
    assert Holds(m.buckets, rows[0].date, rows[0].id);
    headless := NoDate in order && DropsUndated(m, live, NoDate);
    SweepShapes(m, live, order, false);
    SweptBucketed(m.buckets, swept.buckets, rows, left, order);
    KeysOccur(m.buckets, rows);
    KeysOccur(swept.buckets, left);
  }

  /** Removing rows keeps the list right exactly unless the last undated row goes while a dated one stays: the
      entry of the undated rows is then found at the default entry. The signals replay in either case. */
  lemma RemoveKeepsValid(m: Model, rows: seq<Row>, left: seq<Row>, order: seq<Date>)
    requires Valid(m, rows) && m.role && rows != [] && DistinctIds(rows)
    requires Enumerates(order, m.buckets.Keys) && forall row :: row in left ==> row in rows
    ensures Valid(Removed(m, Ids(left), order), left) <==> !LosesUndated(rows, left)
    ensures HeardAll(Heard, m.dates, RemovedLog(m, Ids(left), order)) == Some(Removed(m, Ids(left), order).dates)
  {
    var swept := Swept(m, Ids(left), order);
    var headless := SweptState(m, rows, left, order);
    LastBucketGone(m.dates, swept, SweptLog(m, Ids(left), order), headless);
    KeysOccur(swept.buckets, left);
    if swept.buckets == map[] {
      assert left != [] ==> Occurs(left, left[0].date);
    } else {
      var date :| date in swept.buckets;
      assert Occurs(left, date);
    }
  }

  /** Without the role no row is indexed, and removing rows announces the removal of a row that does not exist:
      a removal is announced well exactly when the source has the role. */
  lemma RemovalHeard(m: Model, rows: seq<Row>, left: seq<Row>, order: seq<Date>)
    requires Valid(m, rows) && rows != [] && DistinctIds(rows)
    requires Enumerates(order, m.buckets.Keys) && forall row :: row in left ==> row in rows
    ensures HeardAll(Heard, m.dates, RemovedLog(m, Ids(left), order)).Some? <==> m.role
  {
    if m.role {
      RemoveKeepsValid(m, rows, left, order);
    } else {
      HasMember(order);
      HeardOne(Heard, [], Emission(RowRemoved(0), []));
    }
  }

  /** A concrete case of the exception: the default entry is gone and an undated entry is listed last. */
  lemma UndatedRowBreaksTheList()
    ensures
      var rows := [Row(0, Day(5)), Row(1, NoDate)];
      var m := WasResetTo(true, rows);
      var left := Removed(m, {0}, [NoDate, Day(5)]);
      && m.dates == [NoDate, Day(5), NoDate]
      && left.buckets == map[Day(5) := [0]] && left.dates == [Day(5), NoDate]
  {
    var rows := [Row(0, Day(5)), Row(1, NoDate)];
    assert rows[1..] == [Row(1, NoDate)] && rows[1..][1..] == [];
    var one := Entered(Model(true, map[], []), rows[0]);
    assert one.dates == [NoDate, Day(5)];
    var m := Entered(one, rows[1]);
    assert WasResetTo(true, rows) == EnteredAll(one, rows[1..]) == EnteredAll(m, []) == m;
    assert m.dates == [NoDate, Day(5), NoDate];
    var order := [NoDate, Day(5)];
    assert order[1..] == [Day(5)] && order[1..][1..] == [];
    assert Alive([1], {0}) == [] && Alive([0], {0}) == [0];
    var next := SweptOne(m, {0}, NoDate);
    assert next.buckets == map[Day(5) := [0]];
    assert next.dates == [Day(5), NoDate];
    assert SweptOne(next, {0}, Day(5)) == next;
    assert Swept(m, {0}, order) == Swept(next, {0}, order[1..]) == Swept(next, {0}, []) == next;
    assert Day(5) in next.buckets;
  }

  // ---- Runs ----

  datatype World = World(model: Model, rows: seq<Row>)

  datatype Step =
    | Insert(at: nat, added: seq<Row>)
    | Remove(first: nat, last: nat, order: seq<Date>)
    | Reset(role: bool, rows: seq<Row>)

  function RowsAfter(w: World, step: Step): seq<Row> {
    match step
    case Insert(at, added) => if at <= |w.rows| then w.rows[..at] + added + w.rows[at..] else w.rows
    case Remove(first, last, _) => if first <= last < |w.rows| then w.rows[..first] + w.rows[last + 1..] else w.rows
    case Reset(_, rows) => rows
  }

  /** Rows are distinct; rows are removed from a source that has the role, an undated last one only with all. */
  ghost predicate Possible(w: World, step: Step) {
    match step
    case Insert(at, added) => at <= |w.rows| && DistinctIds(RowsAfter(w, step))
    case Remove(first, last, order) =>
      && first <= last < |w.rows| && Enumerates(order, w.model.buckets.Keys)
      && w.model.role && !LosesUndated(w.rows, RowsAfter(w, step))
    case Reset(_, rows) => DistinctIds(rows)
  }

  function Next(w: World, step: Step): World {
    var rows := RowsAfter(w, step);
    match step
    case Insert(_, added) => World(EnteredAll(w.model, added), rows)
    case Remove(_, _, order) => World(Removed(w.model, Ids(rows), order), rows)
    case Reset(role, _) => World(WasResetTo(role, rows), rows)
  }

  function Signals(w: World, step: Step): seq<Emission> {
    match step
    case Insert(_, added) => EnteredAllLog(w.model, added)
    case Remove(_, _, order) => RemovedLog(w.model, Ids(RowsAfter(w, step)), order)
    case Reset(_, _) => [Emission(WasReset, Next(w, step).model.dates)]
  }

  ghost predicate Consistent(w: World) {
    Valid(w.model, w.rows) && DistinctIds(w.rows)
  }

  lemma InsertConsistent(w: World, at: nat, added: seq<Row>)
    requires Consistent(w) && Possible(w, Insert(at, added))
    ensures Consistent(Next(w, Insert(at, added)))
    ensures HeardAll(Heard, w.model.dates, EnteredAllLog(w.model, added)) == Some(EnteredAll(w.model, added).dates)
  {
    var rows := RowsAfter(w, Insert(at, added));
    var k, n := |added|, |w.rows|;
    var appended := w.rows + added;
    forall i, j | 0 <= i < j < |appended| ensures appended[i].id != appended[j].id {
      var p := if i >= n then i - n + at else if i < at then i else i + k;
      var q := if j >= n then j - n + at else if j < at then j else j + k;
      assert rows[p] == appended[i] && rows[q] == appended[j] && p != q;
      assert rows[if p < q then p else q].id != rows[if p < q then q else p].id;
    }
    EnterAllKeepsValid(w.model, w.rows, added);
    assert w.rows == w.rows[..at] + w.rows[at..];
    assert SameElements(appended, rows);
    ValidAnywhere(EnteredAll(w.model, added), appended, rows);
  }

  lemma RemoveConsistent(w: World, first: nat, last: nat, order: seq<Date>)
    requires Consistent(w) && Possible(w, Remove(first, last, order))
    ensures
      var w' := Next(w, Remove(first, last, order));
      Consistent(w') && HeardAll(Heard, w.model.dates, Signals(w, Remove(first, last, order))) == Some(w'.model.dates)
  {
    var left := RowsAfter(w, Remove(first, last, order));
    forall i, j | 0 <= i < j < |left| ensures left[i].id != left[j].id {
      var k := last + 1 - first;
      assert w.rows[if i < first then i else i + k].id != w.rows[if j < first then j else j + k].id;
    }
    RemoveKeepsValid(w.model, w.rows, left, order);
  }

  lemma ResetValid(role: bool, rows: seq<Row>)
    requires DistinctIds(rows)
    ensures Valid(WasResetTo(role, rows), rows)
  {
    assert [] + rows == rows;
    EnterAllKeepsValid(Model(role, map[], []), [], rows);
  }

  lemma ResetConsistent(w: World, role: bool, rows: seq<Row>)
    requires DistinctIds(rows)
    ensures
      var w' := Next(w, Reset(role, rows));
      Consistent(w') && HeardAll(Heard, w.model.dates, Signals(w, Reset(role, rows))) == Some(w'.model.dates)
  {
    ResetValid(role, rows);
    HeardOne(Heard, w.model.dates, Emission(WasReset, WasResetTo(role, rows).dates));
  }

  lemma StepConsistent(w: World, step: Step)
    requires Consistent(w) && Possible(w, step)
    ensures Consistent(Next(w, step))
    ensures HeardAll(Heard, w.model.dates, Signals(w, step)) == Some(Next(w, step).model.dates)
  {
    match step
    case Insert(at, added) => InsertConsistent(w, at, added);
    case Remove(first, last, order) => RemoveConsistent(w, first, last, order);
    case Reset(role, rows) => ResetConsistent(w, role, rows);
  }

  ghost predicate IsRun(w: World, steps: seq<Step>)
    decreases |steps|
  {
    steps == [] || (Possible(w, steps[0]) && IsRun(Next(w, steps[0]), steps[1..]))
  }

  function End(w: World, steps: seq<Step>): World
    decreases |steps|
  {
    if steps == [] then w else End(Next(w, steps[0]), steps[1..])
  }

  function AllSignals(w: World, steps: seq<Step>): seq<Emission>
    decreases |steps|
  {
    if steps == [] then [] else Signals(w, steps[0]) + AllSignals(Next(w, steps[0]), steps[1..])
  }

  lemma {:induction false} RunConsistent(w: World, steps: seq<Step>)
    requires Consistent(w) && IsRun(w, steps)
    ensures Consistent(End(w, steps))
    ensures HeardAll(Heard, w.model.dates, AllSignals(w, steps)) == Some(End(w, steps).model.dates)
    decreases |steps|
  {
    if steps != [] {
      var next := Next(w, steps[0]);
      StepConsistent(w, steps[0]);
      RunConsistent(next, steps[1..]);
      HeardAppend(Heard, w.model.dates, Signals(w, steps[0]), AllSignals(next, steps[1..]));
    }
  }

  /** From the second entry on the day numbers fall, and an undated entry can only be the last. */
  ghost predicate NumbersFall(dates: seq<Date>) {
    && (forall i :: 1 <= i < |dates| - 1 ==> dates[i].Day?)
    && (forall i, j :: 1 <= i < j < |dates| && dates[i].Day? && dates[j].Day? ==> dates[i].number > dates[j].number)
  }

  /** No rows, or no role: no list. Otherwise the default entry, then the distinct dates of the rows, the newest
      first, and a bucket for each of them. */
  ghost predicate ListsTheDates(m: Model, rows: seq<Row>) {
    if rows == [] || !m.role then m.dates == [] && m.buckets == map[]
    else
      && m.dates != [] && m.dates[0] == NoDate
      && NumbersFall(m.dates)
      && (forall date :: date in m.dates[1..] <==> Occurs(rows, date))
      && (forall date :: date in m.buckets <==> Occurs(rows, date))
  }

  /** The row is once in the bucket of its date, and in no other bucket. */
  ghost predicate InOneBucket(buckets: map<Date, seq<nat>>, row: Row) {
    && row.date in buckets && multiset(buckets[row.date])[row.id] == 1
    && forall date :: date != row.date ==> !Holds(buckets, date, row.id)
  }

  lemma HeadedByNumber(dates: seq<Date>, keys: set<Date>)
    requires Headed(dates, keys)
    ensures NumbersFall(dates)
  {
    forall i | 1 <= i < |dates| - 1 ensures dates[i].Day? {
      assert Later(dates[i], dates[i + 1]);
    }
    forall i, j | 1 <= i < j < |dates| && dates[i].Day? && dates[j].Day?
      ensures dates[i].number > dates[j].number
    {
      assert Later(dates[i], dates[j]);
    }
  }

  lemma ValidListsTheDates(m: Model, rows: seq<Row>)
    requires Valid(m, rows)
    ensures ListsTheDates(m, rows)
  {
    if m.role {
      KeysOccur(m.buckets, rows);
      if rows == [] {
        assert m.buckets.Keys == {};
      } else {
        assert Occurs(rows, rows[0].date);
        assert rows[0].date in m.buckets.Keys;
        assert Headed(m.dates, m.buckets.Keys);
        HeadedByNumber(m.dates, m.buckets.Keys);
        forall date ensures date in m.dates[1..] <==> Occurs(rows, date) {
          assert date in m.dates[1..] <==> date in m.buckets.Keys;
        }
      }
    }
  }

  /** Over any run: the list is the list of the rows' dates, every row is in exactly one bucket, and whoever replays
      the signals of the run holds the list. */
  lemma DatesFollowTheRows(role: bool, rows: seq<Row>, steps: seq<Step>)
    requires DistinctIds(rows) && IsRun(World(WasResetTo(role, rows), rows), steps)
    ensures
      var start := World(WasResetTo(role, rows), rows);
      var w := End(start, steps);
      && ListsTheDates(w.model, w.rows)
      && (w.model.role ==> forall row :: row in w.rows ==> InOneBucket(w.model.buckets, row))
      && HeardAll(Heard, start.model.dates, AllSignals(start, steps)) == Some(w.model.dates)
  {
    var start := World(WasResetTo(role, rows), rows);
    ResetValid(role, rows);
    RunConsistent(start, steps);
    var w := End(start, steps);
    ValidListsTheDates(w.model, w.rows);
    if w.model.role {
      forall row | row in w.rows ensures InOneBucket(w.model.buckets, row) {
        OneBucket(w.model.buckets, w.rows, row);
      }
    }
  }

  lemma OneBucket(buckets: map<Date, seq<nat>>, rows: seq<Row>, row: Row)
    requires Bucketed(buckets, rows) && DistinctIds(rows) && row in rows
    ensures InOneBucket(buckets, row)
  {
    assert row == Row(row.id, row.date);
    assert Holds(buckets, row.date, row.id);
    DistinctCount(buckets[row.date], row.id);
    forall date | date != row.date ensures !Holds(buckets, date, row.id) {
      if Row(row.id, date) in rows {
        SameRow(rows, row, Row(row.id, date));
      }
    }
  }

  // ---- The model object ----

  class HistoryLastVisitDateListModel {
    var role: bool
    var lastVisitDates: map<Date, seq<nat>>
    var orderedDates: seq<Date>
    ghost var log: seq<Emission>

    ghost function State(): Model
      reads this
    {
      Model(role, lastVisitDates, orderedDates)
    }

    constructor ()
      ensures State() == Model(false, map[], []) && log == []
    {
      role, lastVisitDates, orderedDates, log := false, map[], [], [];
    }

    method InsertNewHistoryEntry(row: Row, notify: bool)
      modifies this
      ensures State() == Entered(old(State()), row)
      ensures log == old(log) + if notify then EnteredLog(old(State()), row) else []
    {
      if !role {
        return;
      }
      if row.date !in lastVisitDates {
        if orderedDates == [] {
          orderedDates := [NoDate];
          if notify {
            log := log + [Emission(RowInserted(0), orderedDates)];
          }
        }
        var insertAt := 1;
        while insertAt < |orderedDates|
          invariant 1 <= insertAt <= |orderedDates|
          invariant Position(orderedDates, row.date, 1) == Position(orderedDates, row.date, insertAt)
        {
          if Later(row.date, orderedDates[insertAt]) {
            break;
          }
          insertAt := insertAt + 1;
        }
        assert Position(orderedDates, row.date, insertAt) == insertAt;
        assert orderedDates == WithDefault(old(orderedDates));
        orderedDates := orderedDates[..insertAt] + [row.date] + orderedDates[insertAt..];
        lastVisitDates := lastVisitDates[row.date := []];
        if notify {
          log := log + [Emission(RowInserted(insertAt), orderedDates)];
        }
      }
      lastVisitDates := lastVisitDates[row.date := lastVisitDates[row.date] + [row.id]];
      assert [] + [row.id] == [row.id];
      assert lastVisitDates
          == old(lastVisitDates)[row.date := (if row.date in old(lastVisitDates) then old(lastVisitDates)[row.date] else []) + [row.id]];
    }

    method PopulateModel(rows: seq<Row>)
      modifies this
      ensures State() == EnteredAll(old(State()), rows) && log == old(log)
    {
      var i := 0;
      while i < |rows|
        invariant 0 <= i <= |rows|
        invariant EnteredAll(State(), rows[i..]) == EnteredAll(old(State()), rows) && log == old(log)
      {
        assert rows[i..][1..] == rows[i + 1..];
        InsertNewHistoryEntry(rows[i], false);
        i := i + 1;
      }
    }

    /** The rows from start to end of the source are new. */
    method OnRowsInserted(rows: seq<Row>, start: nat, end: int)
      requires start <= end < |rows|
      modifies this
      ensures State() == EnteredAll(old(State()), rows[start..end + 1])
      ensures log == old(log) + EnteredAllLog(old(State()), rows[start..end + 1])
    {
      var i := start;
      while i <= end
        invariant start <= i <= end + 1
        invariant EnteredAll(State(), rows[i..end + 1]) == EnteredAll(old(State()), rows[start..end + 1])
        invariant log + EnteredAllLog(State(), rows[i..end + 1])
               == old(log) + EnteredAllLog(old(State()), rows[start..end + 1])
      {
        assert rows[i..end + 1][1..] == rows[i + 1..end + 1];
        ghost var before, entered := log, EnteredLog(State(), rows[i]);
        ghost var rest := EnteredAllLog(Entered(State(), rows[i]), rows[i + 1..end + 1]);
        InsertNewHistoryEntry(rows[i], true);
        assert before + (entered + rest) == (before + entered) + rest;
        i := i + 1;
      }
    }

    /** Erases the indexes that are no longer valid. */
    method EraseInvalid(indexes: seq<nat>, live: set<nat>) returns (entries: seq<nat>)
      ensures entries == Alive(indexes, live)
    {
      entries := indexes;
      var entry := 0;
      while entry < |entries|
        invariant 0 <= entry <= |entries|
        invariant entries[..entry] + Alive(entries[entry..], live) == Alive(indexes, live)
        decreases |entries| - entry
      {
        ghost var before := entries;
        assert before[entry..][1..] == before[entry + 1..];
        if entries[entry] !in live {
          entries := entries[..entry] + entries[entry + 1..];
          assert entries[entry..] == before[entry + 1..];
        } else {
          assert before[..entry] + ([before[entry]] + Alive(before[entry + 1..], live))
              == before[..entry + 1] + Alive(before[entry + 1..], live);
          entry := entry + 1;
        }
      }
      assert entries[entry..] == [] && entries[..entry] == entries;
    }

    method SweepBucket(date: Date, live: set<nat>)
      requires date in lastVisitDates
      modifies this
      ensures State() == SweptOne(old(State()), live, date)
      ensures log == old(log) + SweptOneLog(old(State()), live, date)
    {
      var entries := EraseInvalid(lastVisitDates[date], live);
      lastVisitDates := lastVisitDates[date := entries];
      if entries == [] {
        var removeAt := IndexOf(orderedDates, date);
        orderedDates := DropAt(orderedDates, removeAt);
        lastVisitDates := lastVisitDates - {date};
        assert lastVisitDates == old(lastVisitDates) - {date};
        log := log + [Emission(RowRemoved(removeAt), orderedDates)];
      }
    }

    method OnRowsRemoved(live: set<nat>) returns (ghost order: seq<Date>)
      modifies this
      ensures Enumerates(order, old(lastVisitDates).Keys)
      ensures State() == Removed(old(State()), live, order)
      ensures log == old(log) + RemovedLog(old(State()), live, order)
    {
      order := [];
      var left := lastVisitDates.Keys;
      while left != {}
        invariant left <= lastVisitDates.Keys && left <= old(lastVisitDates).Keys
        invariant Enumerates(order, old(lastVisitDates).Keys - left)
        invariant State() == Swept(old(State()), live, order)
        invariant log == old(log) + SweptLog(old(State()), live, order)
        decreases left
      {
        var date :| date in left;
        SweptOneMore(old(State()), live, order, date);
        EnumeratesMore(order, old(lastVisitDates).Keys, left, date);
        SweepBucket(date, live);
        left := left - {date};
        order := order + [date];
      }
      if lastVisitDates == map[] {
        orderedDates := [];
        log := log + [Emission(RowRemoved(0), orderedDates)];
      }
    }

    method OnModelReset(hasRole: bool, rows: seq<Row>)
      modifies this
      ensures State() == WasResetTo(hasRole, rows)
      ensures log == old(log) + [Emission(WasReset, orderedDates)]
    {
      role := hasRole;
      orderedDates, lastVisitDates := [], map[];
      PopulateModel(rows);
      log := log + [Emission(WasReset, orderedDates)];
    }
  }

  lemma {:induction false} SweptOneMore(m: Model, live: set<nat>, order: seq<Date>, date: Date)
    ensures Swept(m, live, order + [date]) == SweptOne(Swept(m, live, order), live, date)
    ensures SweptLog(m, live, order + [date])
         == SweptLog(m, live, order) + SweptOneLog(Swept(m, live, order), live, date)
    decreases |order|
  {
    if order == [] {
      assert [] + [date] == [date];
      SweptFirst(m, live, date, []);
    } else {
      var next, rest := SweptOne(m, live, order[0]), order[1..];
      assert order == [order[0]] + rest && order + [date] == [order[0]] + (rest + [date]);
      SweptFirst(m, live, order[0], rest);
      SweptFirst(m, live, order[0], rest + [date]);
      SweptOneMore(next, live, rest, date);
    }
  }

  lemma SweptFirst(m: Model, live: set<nat>, first: Date, rest: seq<Date>)
    ensures Swept(m, live, [first] + rest) == Swept(SweptOne(m, live, first), live, rest)
    ensures SweptLog(m, live, [first] + rest)
         == SweptOneLog(m, live, first) + SweptLog(SweptOne(m, live, first), live, rest)
  {
    assert ([first] + rest)[1..] == rest;
  }
}
