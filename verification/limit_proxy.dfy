/** The proxy that shows the first rows of a source and reports every change of that view in place. */
module LimitProxy {
  import opened Collections

  /** What the proxy signals. A begin announces a range; the rows are there, or gone, at the matching end. */
  datatype Note =
    | BeginInsert(first: int, last: int)
    | EndInsert
    | BeginRemove(first: int, last: int)
    | EndRemove
    | Changed(first: int, last: int)

  /** A signal together with what a listener can read from the proxy at that moment: the source rows behind it
      and its row count. */
  datatype Emission<T> = Emission(note: Note, rows: seq<T>, count: int)

  datatype Proxy = Proxy(limit: int, inserting: bool, removing: bool, changedBegin: int, changedEnd: int)

  const NEW_PROXY := Proxy(-1, false, false, -1, -1)

  // ---- A listener that knows nothing but the signals ----

  datatype Announced = Nothing | Insertion(first: int, last: int) | Removal(first: int, last: int)

  datatype Listener<T> = Listener(view: seq<T>, announced: Announced)

  /** The listener after one signal, or None when the signal is not well formed: a range that is empty or out of
      bounds, a change announced while another is open, or a row count other than the listener's own. */
  function Heard<T>(listener: Listener<T>, e: Emission<T>): Option<Listener<T>> {
    var view := listener.view;
    match (e.note, listener.announced)
    case (BeginInsert(first, last), Nothing) =>
      if 0 <= first <= last && first <= |view| == e.count then Some(Listener(view, Insertion(first, last))) else None
    case (EndInsert, Insertion(first, last)) =>
      if 0 <= first <= last < |e.rows| && first <= |view| && |view| + last - first + 1 == e.count then
        Some(Listener(view[..first] + e.rows[first..last + 1] + view[first..], Nothing))
      else None
    case (BeginRemove(first, last), Nothing) =>
      if 0 <= first <= last < |view| == e.count then Some(Listener(view, Removal(first, last))) else None
    case (EndRemove, Removal(first, last)) =>
      if 0 <= first <= last < |view| && |view| - (last - first + 1) == e.count then
        Some(Listener(view[..first] + view[last + 1..], Nothing))
      else None
    case (Changed(first, last), Nothing) =>
      if 0 <= first <= last < |view| == e.count && last < |e.rows| then
        Some(Listener(view[..first] + e.rows[first..last + 1] + view[last + 1..], Nothing))
      else None
    case _ => None
  }

  // ---- The proxy ----

  function Min(a: int, b: int): int {
    if a < b then a else b
  }

  /** The number of rows the proxy shows of a source with the given number of rows. */
  function RowCount(limit: int, unlimited: nat): int {
    if limit < 0 then unlimited else Min(limit, unlimited)
  }

  /** The rows the proxy shows: all of them, or the first ones up to the limit. */
  function Shown<T>(limit: int, rows: seq<T>): (shown: seq<T>)
    ensures limit < 0 || limit >= |rows| ==> shown == rows
    ensures 0 <= limit <= |rows| ==> shown == rows[..limit]
  {
    assert rows[..|rows|] == rows;
    rows[..RowCount(limit, |rows|)]
  }

  /** The range setLimit announces, if any. */
  function LimitChange(limit: int, newLimit: int, unlimited: nat): Announced {
    var oldCount := RowCount(limit, unlimited);
    if newLimit == limit then Nothing
    else if limit < 0 then
      if newLimit < oldCount then Removal(newLimit, oldCount - 1) else Nothing
    else if newLimit < 0 then
      if limit < unlimited then Insertion(limit, unlimited - 1) else Nothing
    else if newLimit > limit && unlimited > limit then
      Insertion(limit, Min(newLimit, unlimited) - 1)
    else if newLimit < limit && newLimit < oldCount then
      Removal(newLimit, oldCount - 1)
    else Nothing
  }

  function LimitLog<T>(p: Proxy, newLimit: int, rows: seq<T>): seq<Emission<T>> {
    var before, after := RowCount(p.limit, |rows|), RowCount(newLimit, |rows|);
    match LimitChange(p.limit, newLimit, |rows|)
    case Nothing => []
    case Insertion(first, last) =>
      [Emission(BeginInsert(first, last), rows, before), Emission(EndInsert, rows, after)]
    case Removal(first, last) =>
      [Emission(BeginRemove(first, last), rows, before), Emission(EndRemove, rows, after)]
  }

  /** Before the source inserts n rows at start: the flags, the range to report as changed afterwards, and the
      insertion announced now. */
  function AboutToInsert(p: Proxy, start: int, end: int, unlimited: nat): (Proxy, Announced) {
    var added := end - start + 1;
    if p.limit < 0 || (start < p.limit && unlimited + added <= p.limit) then
      (p.(inserting := true), Insertion(start, end))
    else if start >= p.limit then
      (p, Nothing)
    else if unlimited >= p.limit then
      (p.(changedBegin := start, changedEnd := p.limit - 1), Nothing)
    else
      var room := p.limit - unlimited;
      var changed := if start + room > p.limit - 1 then (-1, -1) else (start + room, p.limit - 1);
      (p.(inserting := true, changedBegin := changed.0, changedEnd := changed.1), Insertion(start, start + room - 1))
  }

  function AboutToRemove(p: Proxy, start: int, end: int, unlimited: nat): (Proxy, Announced) {
    var gone := end - start + 1;
    if p.limit < 0 || (start < p.limit && unlimited <= p.limit) then
      (p.(removing := true), Removal(start, end))
    else if start >= p.limit then
      (p, Nothing)
    else if unlimited - gone >= p.limit then
      (p.(changedBegin := start, changedEnd := p.limit - 1), Nothing)
    else
      var lost := p.limit - (unlimited - gone);
      var changed := if start > p.limit - lost - 1 then (-1, -1) else (start, p.limit - lost - 1);
      (p.(removing := true, changedBegin := changed.0, changedEnd := changed.1),
       Removal(p.limit - lost, p.limit - 1))
  }

  function Begins<T>(announced: Announced, rows: seq<T>, count: int): seq<Emission<T>> {
    match announced
    case Nothing => []
    case Insertion(first, last) => [Emission(BeginInsert(first, last), rows, count)]
    case Removal(first, last) => [Emission(BeginRemove(first, last), rows, count)]
  }

  /** After the source changed: the announced change ends, then the changed range is reported. */
  function Ends<T>(p: Proxy, rows: seq<T>): seq<Emission<T>> {
    var count := RowCount(p.limit, |rows|);
    (if p.inserting then [Emission(EndInsert, rows, count)] else []) +
    (if p.removing then [Emission(EndRemove, rows, count)] else []) +
    (if p.changedBegin != -1 && p.changedEnd != -1
      then [Emission(Changed(p.changedBegin, p.changedEnd), rows, count)] else [])
  }

  function Idle(p: Proxy): Proxy {
    p.(inserting := false, removing := false, changedBegin := -1, changedEnd := -1)
  }

  // ---- Runs ----

  datatype Step<T> = Insert(start: nat, added: seq<T>) | Remove(start: nat, end: nat) | SetLimit(limit: int)

  datatype World<T> = World(proxy: Proxy, rows: seq<T>)

  /** The source inserts at least one row at a valid place, or removes a valid range. */
  predicate Possible<T>(w: World<T>, step: Step<T>) {
    match step
    case Insert(start, added) => start <= |w.rows| && added != []
    case Remove(start, end) => start <= end < |w.rows|
    case SetLimit(_) => true
  }

  function Inserted<T>(rows: seq<T>, start: nat, added: seq<T>): seq<T>
    requires start <= |rows|
  {
    rows[..start] + added + rows[start..]
  }

  function Taken<T>(rows: seq<T>, start: nat, end: nat): seq<T>
    requires start <= end < |rows|
  {
    rows[..start] + rows[end + 1..]
  }

  /** A step of the source with the two slots around it, or a change of the limit, and what is signalled. */
  function Next<T>(w: World<T>, step: Step<T>): (World<T>, seq<Emission<T>>)
    requires Possible(w, step)
  {
    var count := RowCount(w.proxy.limit, |w.rows|);
    match step
    case Insert(start, added) =>
      var (p, announced) := AboutToInsert(w.proxy, start, start + |added| - 1, |w.rows|);
      var rows := Inserted(w.rows, start, added);
      (World(Idle(p), rows), Begins(announced, w.rows, count) + Ends(p, rows))
    case Remove(start, end) =>
      var (p, announced) := AboutToRemove(w.proxy, start, end, |w.rows|);
      var rows := Taken(w.rows, start, end);
      (World(Idle(p), rows), Begins(announced, w.rows, count) + Ends(p, rows))
    case SetLimit(limit) =>
      (World(w.proxy.(limit := limit), w.rows), LimitLog(w.proxy, limit, w.rows))
  }

  /** A listener in step with the proxy: its view is what the proxy shows and nothing is open. */
  function Tracking<T>(w: World<T>): Listener<T> {
    Listener(Shown(w.proxy.limit, w.rows), Nothing)
  }

  predicate ProxyIdle(p: Proxy) {
    p == Idle(p)
  }

  lemma Two<T>(listener: Listener<T>, a: Emission<T>, b: Emission<T>)
    requires Heard(listener, a).Some?
    ensures HeardAll(Heard, listener, [a, b]) == Heard(Heard(listener, a).value, b)
  {
    assert [a, b][1..] == [b];
    HeardOne(Heard, Heard(listener, a).value, b);
  }

  lemma Three<T>(listener: Listener<T>, a: Emission<T>, b: Emission<T>, c: Emission<T>)
    requires Heard(listener, a).Some? && Heard(Heard(listener, a).value, b).Some?
    ensures HeardAll(Heard, listener, [a, b, c]) == Heard(Heard(Heard(listener, a).value, b).value, c)
  {
    assert [a, b, c][1..] == [b, c];
    Two(Heard(listener, a).value, b, c);
  }

  /** Reporting the rest of the view as changed makes a view right whose beginning is right. */
  lemma ViewRefreshed<T>(view: seq<T>, view': seq<T>, rows: seq<T>, first: int, last: int)
    requires 0 <= first <= last && last + 1 == |view| == |view'| <= |rows| && view' == rows[..|view|]
    requires view[..first] == view'[..first]
    ensures view[..first] + rows[first..last + 1] + view[last + 1..] == view'
  {
  }

  ghost predicate Correct<T>(w: World<T>, step: Step<T>)
    requires Possible(w, step)
  {
    var (w', log) := Next(w, step);
    ProxyIdle(w'.proxy) && HeardAll(Heard, Tracking(w), log) == Some(Tracking(w'))
  }

  /** Room for all new rows: they are announced as they are. */
  lemma InsertFits<T>(w: World<T>, start: nat, added: seq<T>)
    requires ProxyIdle(w.proxy) && Possible(w, Insert(start, added))
    requires w.proxy.limit < 0 || (start < w.proxy.limit && |w.rows| + |added| <= w.proxy.limit)
    ensures Correct(w, Insert(start, added))
  {
    var (w', log) := Next(w, Insert(start, added));
    var last := start + |added| - 1;
    assert w.rows[..start] + w'.rows[start..last + 1] + w.rows[start..] == w'.rows;
    assert log == [log[0], log[1]];
    Two(Tracking(w), log[0], log[1]);
  }

  /** No room at all: the rows from the insertion on change in place. */
  lemma InsertRefreshes<T>(w: World<T>, start: nat, added: seq<T>)
    requires ProxyIdle(w.proxy) && Possible(w, Insert(start, added))
    requires start < w.proxy.limit <= |w.rows|
    ensures Correct(w, Insert(start, added))
  {
    var (w', log) := Next(w, Insert(start, added));
    var limit := w.proxy.limit;
    var view, view' := w.rows[..limit], w'.rows[..limit];
    assert view[..start] == w.rows[..start] == w'.rows[..start] == view'[..start];
    ViewRefreshed(view, view', w'.rows, start, limit - 1);
    HeardOne(Heard, Tracking(w), log[0]);
  }

  /** Room for some of the new rows: that many are inserted, the rows behind them change. */
  lemma InsertOverflows<T>(w: World<T>, start: nat, added: seq<T>)
    requires ProxyIdle(w.proxy) && Possible(w, Insert(start, added))
    requires start < w.proxy.limit && |w.rows| < w.proxy.limit < |w.rows| + |added|
    ensures Correct(w, Insert(start, added))
  {
    var (w', log) := Next(w, Insert(start, added));
    var limit := w.proxy.limit;
    var after := start + limit - |w.rows|;
    var grown := w.rows[..start] + w'.rows[start..after] + w.rows[start..];
    assert grown[..after] == w'.rows[..after];
    if start == |w.rows| {
      assert grown == w'.rows[..limit];
      assert log == [log[0], log[1]];
      Two(Tracking(w), log[0], log[1]);
    } else {
      ViewRefreshed(grown, w'.rows[..limit], w'.rows, after, limit - 1);
      Three(Tracking(w), log[0], log[1], log[2]);
    }
  }

  /** An insertion into the source: the signals are well formed and bring a tracking listener to the new view. */
  lemma InsertTracked<T>(w: World<T>, start: nat, added: seq<T>)
    requires ProxyIdle(w.proxy) && Possible(w, Insert(start, added))
    ensures Correct(w, Insert(start, added))
  {
    var limit := w.proxy.limit;
    if limit < 0 || (start < limit && |w.rows| + |added| <= limit) {
      InsertFits(w, start, added);
    } else if start >= limit {
      assert Shown(limit, w.rows) == Shown(limit, Inserted(w.rows, start, added));
    } else if |w.rows| >= limit {
      InsertRefreshes(w, start, added);
    } else {
      InsertOverflows(w, start, added);
    }
  }

  /** The whole source is shown: the removal is announced as it is. */
  lemma RemoveShown<T>(w: World<T>, start: nat, end: nat)
    requires ProxyIdle(w.proxy) && Possible(w, Remove(start, end))
    requires w.proxy.limit < 0 || (start < w.proxy.limit && |w.rows| <= w.proxy.limit)
    ensures Correct(w, Remove(start, end))
  {
    var (w', log) := Next(w, Remove(start, end));
    assert log == [log[0], log[1]];
    Two(Tracking(w), log[0], log[1]);
  }

  /** Enough rows behind the limit to fill the gap: the rows from the removal on change in place. */
  lemma RemoveRefreshes<T>(w: World<T>, start: nat, end: nat)
    requires ProxyIdle(w.proxy) && Possible(w, Remove(start, end))
    requires start < w.proxy.limit < |w.rows| && w.proxy.limit <= |w.rows| - (end - start + 1)
    ensures Correct(w, Remove(start, end))
  {
    var (w', log) := Next(w, Remove(start, end));
    var limit := w.proxy.limit;
    var view, view' := w.rows[..limit], w'.rows[..limit];
    assert view[..start] == w.rows[..start] == w'.rows[..start] == view'[..start];
    ViewRefreshed(view, view', w'.rows, start, limit - 1);
    HeardOne(Heard, Tracking(w), log[0]);
  }

  /** Too few rows behind the limit: the last rows of the view go, the rows before them change. */
  lemma RemoveUnderflows<T>(w: World<T>, start: nat, end: nat)
    requires ProxyIdle(w.proxy) && Possible(w, Remove(start, end))
    requires start < w.proxy.limit < |w.rows| && |w.rows| - (end - start + 1) < w.proxy.limit
    ensures Correct(w, Remove(start, end))
  {
    var (w', log) := Next(w, Remove(start, end));
    var limit, left := w.proxy.limit, |w'.rows|;
    var shrunk := w.rows[..limit][..left] + w.rows[..limit][limit..];
    assert shrunk == w.rows[..left];
    if start == left {
      assert shrunk == w'.rows;
      assert log == [log[0], log[1]];
      Two(Tracking(w), log[0], log[1]);
    } else {
      assert shrunk[..start] == w'.rows[..start];
      ViewRefreshed(shrunk, w'.rows, w'.rows, start, left - 1);
      Three(Tracking(w), log[0], log[1], log[2]);
    }
  }

  /** A removal from the source likewise. */
  lemma RemoveTracked<T>(w: World<T>, start: nat, end: nat)
    requires ProxyIdle(w.proxy) && Possible(w, Remove(start, end))
    ensures Correct(w, Remove(start, end))
  {
    var limit := w.proxy.limit;
    if limit < 0 || (start < limit && |w.rows| <= limit) {
      RemoveShown(w, start, end);
    } else if start >= limit {
      assert Shown(limit, w.rows) == Shown(limit, Taken(w.rows, start, end));
    } else if |w.rows| - (end - start + 1) >= limit {
      RemoveRefreshes(w, start, end);
    } else {
      RemoveUnderflows(w, start, end);
    }
  }

  lemma LimitKept<T>(w: World<T>, limit: int)
    requires ProxyIdle(w.proxy) && LimitChange(w.proxy.limit, limit, |w.rows|).Nothing?
    ensures Correct(w, SetLimit(limit))
  {
    assert Shown(w.proxy.limit, w.rows) == Shown(limit, w.rows);
  }

  lemma LimitRaised<T>(w: World<T>, limit: int)
    requires ProxyIdle(w.proxy) && LimitChange(w.proxy.limit, limit, |w.rows|).Insertion?
    ensures Correct(w, SetLimit(limit))
  {
    var log, view := LimitLog(w.proxy, limit, w.rows), Shown(w.proxy.limit, w.rows);
    var change := LimitChange(w.proxy.limit, limit, |w.rows|);
    Two(Tracking(w), log[0], log[1]);
    assert view[..change.first] + w.rows[change.first..change.last + 1] + view[change.first..] == Shown(limit, w.rows);
  }

  lemma LimitLowered<T>(w: World<T>, limit: int)
    requires ProxyIdle(w.proxy) && LimitChange(w.proxy.limit, limit, |w.rows|).Removal? && limit >= 0
    ensures Correct(w, SetLimit(limit))
  {
    var log, view := LimitLog(w.proxy, limit, w.rows), Shown(w.proxy.limit, w.rows);
    Two(Tracking(w), log[0], log[1]);
    assert view[..limit] + view[|view|..] == Shown(limit, w.rows);
  }

  lemma NegativeLimits<T>(w: World<T>, limit: int)
    requires w.proxy.limit < 0 && limit < 0 && limit != w.proxy.limit
    ensures !Correct(w, SetLimit(limit))
  {
    var log := LimitLog(w.proxy, limit, w.rows);
    assert Heard(Tracking(w), log[0]).None?;
  }

  /** A change of the limit is reported correctly exactly when it is not from one negative limit to another. */
  lemma SetLimitTracked<T>(w: World<T>, limit: int)
    requires ProxyIdle(w.proxy)
    ensures Correct(w, SetLimit(limit)) <==> w.proxy.limit >= 0 || limit >= 0 || limit == w.proxy.limit
  {
    if w.proxy.limit < 0 && limit < 0 && limit != w.proxy.limit {
      NegativeLimits(w, limit);
    } else {
      match LimitChange(w.proxy.limit, limit, |w.rows|)
      case Nothing => LimitKept(w, limit);
      case Insertion(_, _) => LimitRaised(w, limit);
      case Removal(_, _) => LimitLowered(w, limit);
    }
  }

  // ---- Runs ----

  /** Every step but a change from one negative limit to another. */
  predicate Allowed<T>(w: World<T>, step: Step<T>) {
    Possible(w, step) &&
    (step.SetLimit? ==> w.proxy.limit >= 0 || step.limit >= 0 || step.limit == w.proxy.limit)
  }

  ghost predicate IsRun<T>(w: World<T>, steps: seq<Step<T>>)
    decreases |steps|
  {
    steps == [] || (Allowed(w, steps[0]) && IsRun(Next(w, steps[0]).0, steps[1..]))
  }

  ghost function End<T>(w: World<T>, steps: seq<Step<T>>): World<T>
    requires IsRun(w, steps)
    decreases |steps|
  {
    if steps == [] then w else End(Next(w, steps[0]).0, steps[1..])
  }

  /** All the signals of a run. */
  ghost function Log<T>(w: World<T>, steps: seq<Step<T>>): seq<Emission<T>>
    requires IsRun(w, steps)
    decreases |steps|
  {
    if steps == [] then [] else Next(w, steps[0]).1 + Log(Next(w, steps[0]).0, steps[1..])
  }

  /** Over every run of source insertions, removals and limit changes: every signal is well formed, and a
      listener that replays only the signals always holds exactly the rows the proxy shows. */
  lemma {:induction false} ListenerAlwaysInStep<T>(w: World<T>, steps: seq<Step<T>>)
    requires ProxyIdle(w.proxy) && IsRun(w, steps)
    ensures ProxyIdle(End(w, steps).proxy)
    ensures HeardAll(Heard, Tracking(w), Log(w, steps)) == Some(Tracking(End(w, steps)))
    decreases |steps|
  {
    if steps != [] {
      var (w', log) := Next(w, steps[0]);
      match steps[0] {
        case Insert(start, added) => InsertTracked(w, start, added);
        case Remove(start, end) => RemoveTracked(w, start, end);
        case SetLimit(limit) => SetLimitTracked(w, limit);
      }
      ListenerAlwaysInStep(w', steps[1..]);
      HeardAppend(Heard, Tracking(w), log, Log(w', steps[1..]));
    }
  }

  /** The view after any run is the first limit rows of the source, or all rows when the limit is negative. */
  lemma ViewIsPrefix<T>(rows: seq<T>, steps: seq<Step<T>>)
    requires IsRun(World(NEW_PROXY, rows), steps)
    ensures
      var w := End(World(NEW_PROXY, rows), steps);
      var heard := HeardAll(Heard, Listener(rows, Nothing), Log(World(NEW_PROXY, rows), steps));
      && heard.Some?
      && heard.value.view <= w.rows
      && |heard.value.view| == RowCount(w.proxy.limit, |w.rows|)
  {
    ListenerAlwaysInStep(World(NEW_PROXY, rows), steps);
  }

  /** The limit set last in a run, or the one given when none was. */
  function LastLimit<T>(limit: int, steps: seq<Step<T>>): int
    decreases |steps|
  {
    if steps == [] then limit
    else LastLimit(if steps[0].SetLimit? then steps[0].limit else limit, steps[1..])
  }

  lemma {:induction false} LimitIsLast<T>(w: World<T>, steps: seq<Step<T>>)
    requires IsRun(w, steps)
    ensures End(w, steps).proxy.limit == LastLimit(w.proxy.limit, steps)
    decreases |steps|
  {
    if steps != [] {
      LimitIsLast(Next(w, steps[0]).0, steps[1..]);
    }
  }

  /** After any run the view holds the first rows of the source, as many as the limit set last says, or all rows when
      that is negative or when there are no more. */
  lemma ViewObeysLastLimit<T>(rows: seq<T>, steps: seq<Step<T>>)
    requires IsRun(World(NEW_PROXY, rows), steps)
    ensures
      var source, limit := End(World(NEW_PROXY, rows), steps).rows, LastLimit(-1, steps);
      var heard := HeardAll(Heard, Listener(rows, Nothing), Log(World(NEW_PROXY, rows), steps));
      heard.Some? &&
      heard.value.view == if limit < 0 || limit > |source| then source else source[..limit]
  {
    ListenerAlwaysInStep(World(NEW_PROXY, rows), steps);
    LimitIsLast(World(NEW_PROXY, rows), steps);
  }

  // ---- The proxy object ----

  /** The proxy's slots over the rows of a source that changes between an about-to slot and its done slot. Each
      slot is proved against the functions above. */
  class LimitProxyModel<T> {
    var limit: int
    var sourceInserting: bool
    var sourceRemoving: bool
    var dataChangedBegin: int
    var dataChangedEnd: int
    var source: seq<T>
    var log: seq<Emission<T>>

    function State(): Proxy
      reads this
    {
      Proxy(limit, sourceInserting, sourceRemoving, dataChangedBegin, dataChangedEnd)
    }

    constructor (rows: seq<T>)
      ensures State() == NEW_PROXY && source == rows && log == []
    {
      limit, sourceInserting, sourceRemoving, dataChangedBegin, dataChangedEnd := -1, false, false, -1, -1;
      source, log := rows, [];
    }

    method Count() returns (count: int)
      ensures count == RowCount(limit, |source|)
    {
      var unlimitedCount := |source|;
      count := if limit < 0 then unlimitedCount else if limit < unlimitedCount then limit else unlimitedCount;
    }

    method Emit(note: Note)
      modifies this`log
      ensures log == old(log) + [Emission(note, source, RowCount(limit, |source|))]
    {
      var count := Count();
      log := log + [Emission(note, source, count)];
    }

    method SetLimit(newLimit: int)
      modifies this`limit, this`log
      ensures limit == newLimit
      ensures log == old(log) + LimitLog(old(State()), newLimit, source)
    {
      if newLimit != limit {
        var inserting, removing := false, false;
        var oldCount := Count();
        var unlimitedCount := |source|;
        if limit < 0 {
          if newLimit < oldCount {
            removing := true;
            Emit(BeginRemove(newLimit, oldCount - 1));
          }
        } else if newLimit < 0 {
          if limit < unlimitedCount {
            inserting := true;
            Emit(BeginInsert(limit, unlimitedCount - 1));
          }
        } else {
          if newLimit > limit && unlimitedCount > limit {
            inserting := true;
            Emit(BeginInsert(limit, Min(newLimit, unlimitedCount) - 1));
          } else if newLimit < limit && newLimit < oldCount {
            removing := true;
            Emit(BeginRemove(newLimit, oldCount - 1));
          }
        }
        limit := newLimit;
        if inserting {
          Emit(EndInsert);
        } else if removing {
          Emit(EndRemove);
        }
      }
    }

    method SourceRowsAboutToBeInserted(start: int, end: int)
      requires ProxyIdle(State())
      modifies this
      ensures source == old(source)
      ensures
        var (p, announced) := AboutToInsert(old(State()), start, end, |source|);
        State() == p && log == old(log) + Begins(announced, source, RowCount(limit, |source|))
    {
      if limit < 0 {
        Emit(BeginInsert(start, end));
        sourceInserting := true;
      } else if start < limit {
        var nSourceAddedItems := end - start + 1;
        var currentCount := |source|;
        if currentCount + nSourceAddedItems <= limit {
          Emit(BeginInsert(start, end));
          sourceInserting := true;
        } else if currentCount >= limit {
          dataChangedBegin := start;
          dataChangedEnd := limit - 1;
        } else {
          var nItemsToInsert := limit - currentCount;
          Emit(BeginInsert(start, start + nItemsToInsert - 1));
          sourceInserting := true;
          dataChangedBegin := start + nItemsToInsert;
          dataChangedEnd := limit - 1;
          if dataChangedBegin > dataChangedEnd {
            dataChangedBegin := -1;
            dataChangedEnd := -1;
          }
        }
      }
    }

    method SourceRowsAboutToBeRemoved(start: int, end: int)
      requires ProxyIdle(State())
      modifies this
      ensures source == old(source)
      ensures
        var (p, announced) := AboutToRemove(old(State()), start, end, |source|);
        State() == p && log == old(log) + Begins(announced, source, RowCount(limit, |source|))
    {
      if limit < 0 {
        Emit(BeginRemove(start, end));
        sourceRemoving := true;
      } else if start < limit {
        var nSourceRemovedItems := end - start + 1;
        var currentCount := |source|;
        if currentCount <= limit {
          Emit(BeginRemove(start, end));
          sourceRemoving := true;
        } else if currentCount - nSourceRemovedItems >= limit {
          dataChangedBegin := start;
          dataChangedEnd := limit - 1;
        } else {
          var nItemsToRemove := limit - (currentCount - nSourceRemovedItems);
          Emit(BeginRemove(limit - nItemsToRemove, limit - 1));
          sourceRemoving := true;
          dataChangedBegin := start;
          dataChangedEnd := limit - nItemsToRemove - 1;
          if dataChangedBegin > dataChangedEnd {
            dataChangedBegin := -1;
            dataChangedEnd := -1;
          }
        }
      }
    }

    method SourceRowsInserted()
      requires !sourceRemoving
      modifies this
      ensures source == old(source)
      ensures log == old(log) + Ends(old(State()), source)
      ensures old(dataChangedBegin == -1 <==> dataChangedEnd == -1) ==> State() == Idle(old(State()))
    {
      if sourceInserting {
        Emit(EndInsert);
        sourceInserting := false;
      }
      if dataChangedBegin != -1 && dataChangedEnd != -1 {
        Emit(Changed(dataChangedBegin, dataChangedEnd));
        dataChangedBegin := -1;
        dataChangedEnd := -1;
      }
    }

    method SourceRowsRemoved()
      requires !sourceInserting
      modifies this
      ensures source == old(source)
      ensures log == old(log) + Ends(old(State()), source)
      ensures old(dataChangedBegin == -1 <==> dataChangedEnd == -1) ==> State() == Idle(old(State()))
    {
      if sourceRemoving {
        Emit(EndRemove);
        sourceRemoving := false;
      }
      if dataChangedBegin != -1 && dataChangedEnd != -1 {
        Emit(Changed(dataChangedBegin, dataChangedEnd));
        dataChangedBegin := -1;
        dataChangedEnd := -1;
      }
    }

    /** The source inserts rows: its about-to signal, the change, its done signal. */
    method InsertIntoSource(start: nat, added: seq<T>)
      requires ProxyIdle(State()) && start <= |source| && added != []
      modifies this
      ensures
        var (w', signals) := Next(World(old(State()), old(source)), Insert(start, added));
        State() == w'.proxy && source == w'.rows && log == old(log) + signals
    {
      SourceRowsAboutToBeInserted(start, start + |added| - 1);
      source := Inserted(source, start, added);
      SourceRowsInserted();
    }

    method RemoveFromSource(start: nat, end: nat)
      requires ProxyIdle(State()) && start <= end < |source|
      modifies this
      ensures
        var (w', signals) := Next(World(old(State()), old(source)), Remove(start, end));
        State() == w'.proxy && source == w'.rows && log == old(log) + signals
    {
      SourceRowsAboutToBeRemoved(start, end);
      source := Taken(source, start, end);
      SourceRowsRemoved();
    }
  }
}
