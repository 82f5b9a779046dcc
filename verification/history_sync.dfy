/** One operation at a time: the edit of the in-memory list and the statement posted for it have the same effect. */
module HistorySync {
  import opened Calendar
  import opened Collections
  import opened HistoryDb
  import opened HistoryUi

  // ---- The list as the database would store it ----

  function RowOf(e: Entry): Row {
    Row(e.url, e.domain, e.title, e.icon, e.visits, SecondsOf(e.lastVisit))
  }

  function RowsOf(entries: seq<Entry>): (rows: seq<Row>)
    ensures |rows| == |entries|
    ensures forall i :: 0 <= i < |entries| ==> rows[i] == RowOf(entries[i])
  {
    seq(|entries|, i requires 0 <= i < |entries| => RowOf(entries[i]))
  }

  ghost predicate DistinctUrls(rows: seq<Row>) {
    forall i, j :: 0 <= i < j < |rows| ==> rows[i].url != rows[j].url
  }

  ghost predicate HasUrl(rows: seq<Row>, url: string) {
    exists i :: 0 <= i < |rows| && rows[i].url == url
  }

  /** Rows the model itself can have written: distinct non-empty urls with a known domain. */
  ghost predicate GoodRows(rows: seq<Row>) {
    && DistinctUrls(rows)
    && forall row :: row in rows ==> row.url != "" && row.domain != ""
  }

  ghost predicate RowsInStep(listed: seq<Row>, stored: seq<Row>) {
    GoodRows(listed) && GoodRows(stored) && SameElements(listed, stored)
  }

  /** The database stores exactly the list (in whole seconds) and exactly the hidden urls. */
  ghost predicate InStep(ui: Ui, db: Db) {
    && RowsInStep(RowsOf(ui.entries), db.history)
    && (forall url :: url in ui.hiddenEntries <==> url in db.hidden)
    && FlagsMatch(ui)
  }

  /** An entry is flagged hidden exactly when its url is among the hidden urls. */
  ghost predicate FlagsMatch(ui: Ui) {
    forall i :: 0 <= i < |ui.entries| ==> (ui.entries[i].hidden <==> ui.entries[i].url in ui.hiddenEntries)
  }

  lemma SameListInStep(a: Ui, b: Ui, db: Db)
    requires InStep(a, db) && a.entries == b.entries && a.hiddenEntries == b.hiddenEntries
    ensures InStep(b, db)
  {
  }

  // ---- Rows under the statements ----

  lemma SameUrls(a: seq<Row>, b: seq<Row>, url: string)
    requires SameElements(a, b) && HasUrl(a, url)
    ensures HasUrl(b, url)
  {
    var i :| 0 <= i < |a| && a[i].url == url;
    assert a[i] in b;
  }

  lemma RowsOfCons(e: Entry, entries: seq<Entry>)
    ensures RowsOf([e] + entries) == [RowOf(e)] + RowsOf(entries)
  {
  }

  lemma RowsOfRemoved(entries: seq<Entry>, index: int)
    requires -1 <= index < |entries|
    ensures RowsOf(Removed(entries, index)) == Removed(RowsOf(entries), index)
  {
  }

  /** Taking out the row of a url leaves exactly the rows of the other urls. */
  lemma RemovedRows(rows: seq<Row>, index: nat)
    requires DistinctUrls(rows) && index < |rows|
    ensures DistinctUrls(Removed(rows, index))
    ensures forall row :: row in Removed(rows, index) <==> row in rows && row.url != rows[index].url
  {
    var left := Removed(rows, index);
    assert forall i :: 0 <= i < |left| ==> left[i] == rows[if i < index then i else i + 1];
    RemovedOthers(rows, index);
    forall row | row in left ensures row in rows && row.url != rows[index].url {
      var i :| 0 <= i < |left| && left[i] == row;
      assert rows[if i < index then i else i + 1] == row;
    }
  }

  lemma RemovedOthers(rows: seq<Row>, index: nat)
    requires index < |rows|
    ensures forall row :: row in rows && row.url != rows[index].url ==> row in Removed(rows, index)
  {
    var left := Removed(rows, index);
    forall row | row in rows && row.url != rows[index].url ensures row in left {
      var i :| 0 <= i < |rows| && rows[i] == row;
      assert left[if i < index then i else i - 1] == row;
    }
  }

  lemma {:induction false} DeletedRowsDistinct(rows: seq<Row>, op: Op)
    requires DistinctUrls(rows)
    ensures DistinctUrls(DeleteWhere(rows, op))
  {
    if rows != [] {
      DeletedRowsDistinct(rows[1..], op);
      DeletedRows(rows[1..], op);
      var rest := DeleteWhere(rows[1..], op);
      forall i | 0 <= i < |rest| ensures rest[i].url != rows[0].url {
        assert rest[i] in rest;
        assert rest[i] in rows[1..];
      }
    }
  }

  /** UPDATE ... WHERE url=? replaces the one row of that url. */
  lemma UpdatedRows(rows: seq<Row>, op: Op)
    requires op.UpdateExistingEntry? && DistinctUrls(rows) && HasUrl(rows, op.url)
    ensures
      var out := UpdateWhere(rows, op);
      var stored := Row(op.url, op.domain, op.title, op.icon, op.visits, op.lastVisit);
      && DistinctUrls(out)
      && forall row :: row in out <==> row == stored || (row in rows && row.url != op.url)
  {
    var out := UpdateWhere(rows, op);
    var stored := Row(op.url, op.domain, op.title, op.icon, op.visits, op.lastVisit);
    var k :| 0 <= k < |rows| && rows[k].url == op.url;
    assert out[k] == stored;
    forall row | row in rows && row.url != op.url ensures row in out {
      var i :| 0 <= i < |rows| && rows[i] == row;
      assert out[i] == row;
    }
  }

  /** The bulk removal of entries and the statement keep the same rows in the same order. */
  lemma {:induction false} KeptIsDelete(entries: seq<Entry>, sel: Selector, utcOffset: int, op: Op)
    requires forall i :: 0 <= i < |entries| ==>
      (Selects(entries[i], sel, utcOffset) <==> Deletes(op, RowOf(entries[i])))
    ensures RowsOf(Kept(entries, sel, utcOffset)) == DeleteWhere(RowsOf(entries), op)
  {
    if entries != [] {
      var rest := entries[1..];
      KeptIsDelete(rest, sel, utcOffset, op);
      assert RowsOf(entries)[1..] == RowsOf(rest);
      RowsOfCons(entries[0], Kept(rest, sel, utcOffset));
      assert Selects(entries[0], sel, utcOffset) <==> Deletes(op, RowOf(entries[0]));
    }
  }

  lemma RowReplaced(rows: seq<Row>, index: nat, row: Row)
    requires DistinctUrls(rows) && index < |rows| && rows[index].url == row.url
    ensures DistinctUrls(rows[index := row])
    ensures SameElements(rows[index := row], [row] + Removed(rows, index))
  {
    RemovedRows(rows, index);
    var out := rows[index := row];
    forall r ensures r in out <==> r in [row] + Removed(rows, index) {
      if r in rows && r.url != row.url {
        var i :| 0 <= i < |rows| && rows[i] == r;
        assert out[i] == r;
      }
      assert out[index] == row;
    }
  }

  /** Writing a new row for a listed url to the list and UPDATE-ing it in the database keep both in step. */
  lemma ReplacedInStep(listed: seq<Row>, stored: seq<Row>, index: nat, listed': seq<Row>, op: Op)
    requires RowsInStep(listed, stored) && op.UpdateExistingEntry?
    requires index < |listed| && listed[index].url == op.url && op.url != "" && op.domain != ""
    requires
      var row := Row(op.url, op.domain, op.title, op.icon, op.visits, op.lastVisit);
      SameElements(listed', [row] + Removed(listed, index)) &&
      (listed' == [row] + Removed(listed, index) || DistinctUrls(listed'))
    ensures RowsInStep(listed', UpdateWhere(stored, op))
  {
    var row := Row(op.url, op.domain, op.title, op.icon, op.visits, op.lastVisit);
    var others := Removed(listed, index);
    RemovedRows(listed, index);
    SameUrls(listed, stored, op.url);
    UpdatedRows(stored, op);
    DistinctInFront(row, others);
    forall r ensures r in listed' <==> r in UpdateWhere(stored, op) {
      assert r in [row] + others <==> r == row || r in others;
    }
  }

  lemma DistinctInFront(row: Row, others: seq<Row>)
    requires DistinctUrls(others) && forall other :: other in others ==> other.url != row.url
    ensures DistinctUrls([row] + others)
  {
    forall i | 0 <= i < |others| ensures others[i].url != row.url {
      assert others[i] in others;
    }
  }

  // ---- The operations ----

  lemma FirstVisitInStep(ui: Ui, db: Db, url: string, title: string, icon: string, domain: string, now: Millis)
    requires InStep(ui, db) && url != "" && domain != "" && IndexOf(ui.entries, url) == -1
    ensures InStep(Added(ui, url, title, icon, domain, now),
      Apply(db, InsertNewEntry(url, domain, title, icon, SecondsOf(now))))
  {
    var rows := RowsOf(ui.entries);
    var row := Row(url, domain, title, icon, 1, SecondsOf(now));
    var ui' := Added(ui, url, title, icon, domain, now);
    RowsOfCons(ui'.entries[0], ui.entries);
    assert !HasUrl(rows, url);
    assert RowsOf(ui'.entries) == [row] + rows;
    NewRowInStep(rows, db.history, row);
  }

  lemma NewRowInStep(listed: seq<Row>, stored: seq<Row>, row: Row)
    requires RowsInStep(listed, stored) && !HasUrl(listed, row.url) && row.url != "" && row.domain != ""
    ensures RowsInStep([row] + listed, stored + [row])
  {
    if HasUrl(stored, row.url) {
      SameUrls(stored, listed, row.url);
    }
  }

  lemma NextVisitInStep(ui: Ui, db: Db, url: string, title: string, icon: string, domain: string, now: Millis)
    requires InStep(ui, db) && url != "" && IndexOf(ui.entries, url) != -1
    ensures
      var ui' := Added(ui, url, title, icon, domain, now);
      InStep(ui', Apply(db, UpdateOp(ui'.entries[0])))
  {
    var index := IndexOf(ui.entries, url);
    var rows := RowsOf(ui.entries);
    var ui' := Added(ui, url, title, icon, domain, now);
    var visited := ui'.entries[0];
    var others := Removed(ui.entries, index);
    RowsOfCons(visited, others);
    RowsOfRemoved(ui.entries, index);
    assert rows[index].url == url;
    assert rows[index] in rows;
    ReplacedInStep(rows, db.history, index, [RowOf(visited)] + Removed(rows, index), UpdateOp(visited));
    FlagsInFront(ui, index, visited);
    assert ui'.entries == [visited] + others;
  }

  lemma FlagsInFront(ui: Ui, index: nat, e: Entry)
    requires FlagsMatch(ui) && index < |ui.entries|
    requires e.url == ui.entries[index].url && e.hidden == ui.entries[index].hidden
    ensures FlagsMatch(ui.(entries := [e] + Removed(ui.entries, index)))
  {
  }

  lemma UpdateInStep(ui: Ui, db: Db, url: string, title: string, icon: string)
    requires InStep(ui, db) && UpdateApplies(ui, url, title, icon)
    ensures
      var ui' := Updated(ui, url, title, icon);
      |ui'.posted| == |ui.posted| + 1 && ui'.posted[|ui.posted|].Enqueue? &&
      InStep(ui', Apply(db, ui'.posted[|ui.posted|].op))
  {
    var index := IndexOf(ui.entries, url);
    var rows := RowsOf(ui.entries);
    var ui' := Updated(ui, url, title, icon);
    var e := ui'.entries[index];
    assert rows[index].url == url && rows[index] in rows;
    assert RowsOf(ui'.entries) == rows[index := RowOf(e)];
    RowReplaced(rows, index, RowOf(e));
    ReplacedInStep(rows, db.history, index, rows[index := RowOf(e)], UpdateOp(e));
  }

  /** Taking out the first entry of a url and deleting every row of it are the same on distinct urls. */
  lemma RemoveByUrlInStep(ui: Ui, db: Db, url: string)
    requires InStep(ui, db) && url != ""
    ensures InStep(RemovedByUrl(ui, url), Apply(db, RemoveEntryByUrl(url)))
  {
    if IndexOf(ui.entries, url) == -1 {
      UnlistedUrl(RowsOf(ui.entries), db.history, url);
      assert RemovedByUrl(ui, url).entries == ui.entries;
      assert Apply(db, RemoveEntryByUrl(url)) == db;
    } else {
      RemoveListedInStep(ui, db, url);
    }
  }

  lemma RemoveListedInStep(ui: Ui, db: Db, url: string)
    requires InStep(ui, db) && url != "" && IndexOf(ui.entries, url) != -1
    ensures InStep(RemovedByUrl(ui, url), Apply(db, RemoveEntryByUrl(url)))
  {
    var index := IndexOf(ui.entries, url);
    RowsOfRemoved(ui.entries, index);
    ListedUrl(RowsOf(ui.entries), db.history, index);
    FlagsWithout(ui, index);
  }

  lemma FlagsWithout(ui: Ui, index: nat)
    requires FlagsMatch(ui) && index < |ui.entries|
    ensures FlagsMatch(ui.(entries := Removed(ui.entries, index)))
  {
  }

  lemma UnlistedUrl(listed: seq<Row>, stored: seq<Row>, url: string)
    requires SameElements(listed, stored) && !HasUrl(listed, url)
    ensures DeleteWhere(stored, RemoveEntryByUrl(url)) == stored
  {
    forall row | row in stored ensures row.url != url {
      assert row in listed;
    }
    NothingDeleted(stored, RemoveEntryByUrl(url));
  }

  lemma ListedUrl(listed: seq<Row>, stored: seq<Row>, index: nat)
    requires RowsInStep(listed, stored) && index < |listed|
    ensures RowsInStep(Removed(listed, index), DeleteWhere(stored, RemoveEntryByUrl(listed[index].url)))
  {
    var op := RemoveEntryByUrl(listed[index].url);
    RemovedRows(listed, index);
    DeletedRowsDistinct(stored, op);
    DeletedRows(stored, op);
  }

  /** The statement for a selector matches the stored form of exactly the entries the selector takes. */
  lemma SelectorMatchesStatement(e: Entry, sel: Selector, utcOffset: int)
    requires sel.OnDay? ==> !StraddlesEpoch(sel.day, utcOffset)
    ensures Selects(e, sel, utcOffset) <==> Deletes(DeleteOp(sel, utcOffset), RowOf(e))
  {
    if sel.OnDay? {
      DayIsTimeTRange(e.lastVisit, sel.day, utcOffset);
    }
  }

  lemma RemoveSelectedInStep(ui: Ui, db: Db, sel: Selector)
    requires InStep(ui, db)
    requires sel.OnDay? ==> !StraddlesEpoch(sel.day, ui.utcOffset)
    ensures InStep(RemovedSelected(ui, sel), Apply(db, DeleteOp(sel, ui.utcOffset)))
  {
    var op := DeleteOp(sel, ui.utcOffset);
    forall i | 0 <= i < |ui.entries|
      ensures Selects(ui.entries[i], sel, ui.utcOffset) <==> Deletes(op, RowOf(ui.entries[i]))
    {
      SelectorMatchesStatement(ui.entries[i], sel, ui.utcOffset);
    }
    KeptIsDelete(ui.entries, sel, ui.utcOffset, op);
    DeletedInStep(RowsOf(ui.entries), db.history, op);
    KeptFlags(ui, sel);
  }

  lemma DeletedInStep(listed: seq<Row>, stored: seq<Row>, op: Op)
    requires RowsInStep(listed, stored)
    ensures RowsInStep(DeleteWhere(listed, op), DeleteWhere(stored, op))
  {
    DeletedRowsDistinct(listed, op);
    DeletedRowsDistinct(stored, op);
    DeletedRows(listed, op);
    DeletedRows(stored, op);
  }

  lemma {:induction false} KeptIsSubset(entries: seq<Entry>, sel: Selector, utcOffset: int)
    ensures forall e :: e in Kept(entries, sel, utcOffset) ==> e in entries
  {
    if entries != [] {
      KeptIsSubset(entries[1..], sel, utcOffset);
    }
  }

  lemma KeptFlags(ui: Ui, sel: Selector)
    requires FlagsMatch(ui)
    ensures FlagsMatch(RemovedSelected(ui, sel))
  {
    KeptIsSubset(ui.entries, sel, ui.utcOffset);
    var kept := Kept(ui.entries, sel, ui.utcOffset);
    forall i | 0 <= i < |kept| ensures kept[i].hidden <==> kept[i].url in ui.hiddenEntries {
      assert kept[i] in kept;
    }
  }

  lemma {:induction false} DeleteAllRows(rows: seq<Row>)
    ensures DeleteWhere(rows, Clear(History)) == []
  {
    if rows != [] {
      DeleteAllRows(rows[1..]);
    }
  }

  lemma ClearAllInStep(ui: Ui, db: Db)
    requires InStep(ui, db)
    ensures ui.entries != [] ==>
      InStep(ClearedAll(ui), Apply(Apply(db, Clear(History)), Clear(HistoryHidden)))
  {
    DeleteAllRows(db.history);
  }

  lemma HideInStep(ui: Ui, db: Db, url: string)
    requires InStep(ui, db)
    ensures url != "" && url !in ui.hiddenEntries ==> InStep(Hidden(ui, url), Apply(db, InsertNewHiddenEntry(url)))
    ensures url != "" && url in ui.hiddenEntries ==> InStep(UnHidden(ui, url), Apply(db, RemoveHiddenEntryByUrl(url)))
  {
    assert RowsOf(Marked(ui.entries, url, true)) == RowsOf(ui.entries);
    assert RowsOf(Marked(ui.entries, url, false)) == RowsOf(ui.entries);
  }

  /** The one day on which memory and database disagree: for a clock ahead of UTC the first day of 1970 began
      before the epoch, so the statement matches no row while the list loses its entries of that day. Removing
      that day keeps list and database in step exactly when the list has no entry of it. */
  lemma EpochDayRemoval(ui: Ui, db: Db, day: int)
    requires InStep(ui, db) && StraddlesEpoch(day, ui.utcOffset)
    ensures InStep(RemovedByDate(ui, Day(day)), Apply(db, DeleteOp(OnDay(day), ui.utcOffset)))
       <==> forall e :: e in ui.entries ==> LocalDay(e.lastVisit, ui.utcOffset) != day
  {
    EpochDayStatement(db.history, day, ui.utcOffset);
    assert Apply(db, DeleteOp(OnDay(day), ui.utcOffset)) == db;
    if e :| e in ui.entries && Selects(e, OnDay(day), ui.utcOffset) {
      RemovedEntryStaysStored(ui, db, OnDay(day), e);
    } else {
      NothingRemoved(ui, OnDay(day));
      SameListInStep(ui, RemovedByDate(ui, Day(day)), db);
    }
  }

  lemma NothingRemoved(ui: Ui, sel: Selector)
    requires forall e :: e in ui.entries ==> !Selects(e, sel, ui.utcOffset)
    ensures Kept(ui.entries, sel, ui.utcOffset) == ui.entries
  {
    NothingKeptBack(ui.entries, sel, ui.utcOffset);
  }

  /** An entry dropped from the list while the file stays as it is. */
  lemma RemovedEntryStaysStored(ui: Ui, db: Db, sel: Selector, e: Entry)
    requires InStep(ui, db) && e in ui.entries && Selects(e, sel, ui.utcOffset)
    ensures !InStep(RemovedSelected(ui, sel), db)
  {
    var i :| 0 <= i < |ui.entries| && ui.entries[i] == e;
    assert RowsOf(ui.entries)[i] in RowsOf(ui.entries);
    assert RowOf(e) in db.history;
    RemovedEntryIsMissed(ui, sel, e);
    assert !SameElements(RowsOf(RemovedSelected(ui, sel).entries), db.history);
  }

  /** A concrete case: an hour ahead of UTC, a visit at the epoch is removed from the list and stays in the file. */
  lemma EpochVisitStays()
    ensures
      var e := Entry("u", "d", "t", "i", 1, 0, false);
      var ui, db := Ui(3600, "file", Ready, [e], {}, []), Db([RowOf(e)], []);
      && InStep(ui, db) && RemovedByDate(ui, Day(0)).entries == []
      && Apply(db, DeleteOp(OnDay(0), 3600)) == db
      && !InStep(RemovedByDate(ui, Day(0)), Apply(db, DeleteOp(OnDay(0), 3600)))
  {
    var e := Entry("u", "d", "t", "i", 1, 0, false);
    var ui, db := Ui(3600, "file", Ready, [e], {}, []), Db([RowOf(e)], []);
    assert RowsOf([e]) == [RowOf(e)];
    assert LocalDay(0, 3600) == 0 && StraddlesEpoch(0, 3600);
    EpochDayStatement(db.history, 0, 3600);
    EpochDayRemoval(ui, db, 0);
    assert e in ui.entries;
  }

  lemma EpochDayStatement(rows: seq<Row>, day: int, utcOffset: int)
    requires StraddlesEpoch(day, utcOffset)
    ensures DeleteWhere(rows, DeleteOp(OnDay(day), utcOffset)) == rows
  {
    forall row | row in rows ensures !Deletes(DeleteOp(OnDay(day), utcOffset), row) {
      DayIsTimeTRange(row.lastVisit * 1000, day, utcOffset);
    }
    NothingDeleted(rows, DeleteOp(OnDay(day), utcOffset));
  }

  lemma RemovedEntryIsMissed(ui: Ui, sel: Selector, e: Entry)
    requires DistinctUrls(RowsOf(ui.entries)) && e in ui.entries && Selects(e, sel, ui.utcOffset)
    ensures RowOf(e) !in RowsOf(Kept(ui.entries, sel, ui.utcOffset))
  {
    var kept := Kept(ui.entries, sel, ui.utcOffset);
    var i :| 0 <= i < |ui.entries| && ui.entries[i] == e;
    KeptIsSubset(ui.entries, sel, ui.utcOffset);
    KeptUnselected(ui.entries, sel, ui.utcOffset);
    forall k | 0 <= k < |kept| ensures RowsOf(kept)[k] != RowOf(e) {
      assert kept[k] in kept;
      var j :| 0 <= j < |ui.entries| && ui.entries[j] == kept[k];
      assert RowsOf(ui.entries)[i].url != RowsOf(ui.entries)[j].url;
    }
  }

  lemma {:induction false} NothingDeleted(rows: seq<Row>, op: Op)
    requires forall row :: row in rows ==> !Deletes(op, row)
    ensures DeleteWhere(rows, op) == rows
  {
    if rows != [] {
      NothingDeleted(rows[1..], op);
    }
  }

  lemma {:induction false} NothingKeptBack(entries: seq<Entry>, sel: Selector, utcOffset: int)
    ensures |Kept(entries, sel, utcOffset)| <= |entries|
    ensures (forall e :: e in entries ==> !Selects(e, sel, utcOffset))
       <==> |Kept(entries, sel, utcOffset)| == |entries|
    ensures |Kept(entries, sel, utcOffset)| == |entries| ==> Kept(entries, sel, utcOffset) == entries
  {
    if entries != [] {
      NothingKeptBack(entries[1..], sel, utcOffset);
      assert entries == [entries[0]] + entries[1..];
    }
  }

  lemma {:induction false} KeptUnselected(entries: seq<Entry>, sel: Selector, utcOffset: int)
    ensures forall e :: e in Kept(entries, sel, utcOffset) ==> !Selects(e, sel, utcOffset)
  {
    if entries != [] {
      KeptUnselected(entries[1..], sel, utcOffset);
    }
  }
}
