/** The list of open tabs, its current index, and the signals that follow both. */
module Tabs {
  import opened Collections

  /** Tab objects are compared by identity only; a number stands for an object. */
  type Tab = int

  /** The signals of the model. RowsInserted carries the tab a listener finds in the new row, RowsMoved the row before
      which the moved row is put, in the numbering before the move. */
  datatype Signal =
    | RowsInserted(row: int, tab: Tab)
    | RowsRemoved(row: int)
    | RowsMoved(row: int, before: int)
    | CountChanged
    | CurrentIndexChanged
    | CurrentTabChanged

  datatype Model = Model(tabs: seq<Tab>, current: int)

  const NO_TABS := Model([], -1)

  /** A tab handed to insert may be missing. */
  type TabRef = Option<Tab>

  ghost predicate Valid(m: Model) {
    && Distinct(m.tabs)
    && (m.tabs == [] <==> m.current == -1)
    && (m.tabs != [] ==> 0 <= m.current < |m.tabs|)
  }

  predicate ValidIndex(m: Model, index: int) {
    0 <= index < |m.tabs|
  }

  function CurrentTab(m: Model): TabRef {
    if ValidIndex(m, m.current) then Some(m.tabs[m.current]) else None
  }

  function Clamped(index: int, count: nat): int {
    if index < 0 then 0 else if index > count then count else index
  }

  // ---- List surgery ----

  function InsertAt<T>(s: seq<T>, index: int, x: T): seq<T>
    requires 0 <= index <= |s|
  {
    s[..index] + [x] + s[index..]
  }

  /** Taking the element at from out and putting it in at to. */
  function Relocated<T>(s: seq<T>, from: int, to: int): seq<T>
    requires 0 <= from < |s| && 0 <= to < |s|
  {
    InsertAt(TakeAt(s, from), to, s[from])
  }

  lemma RelocatedAt<T>(s: seq<T>, from: int, to: int, k: int)
    requires 0 <= from < |s| && 0 <= to < |s| && 0 <= k < |s|
    ensures |Relocated(s, from, to)| == |s|
    ensures Relocated(s, from, to)[k] ==
      if k == to then s[from]
      else if from <= k < to then s[k + 1]
      else if to < k <= from then s[k - 1]
      else s[k]
  {
  }

  lemma RelocatedDistinct<T>(s: seq<T>, from: int, to: int)
    requires 0 <= from < |s| && 0 <= to < |s| && Distinct(s)
    ensures Distinct(Relocated(s, from, to)) && |Relocated(s, from, to)| == |s|
  {
    forall i, j | 0 <= i < j < |Relocated(s, from, to)|
      ensures Relocated(s, from, to)[i] != Relocated(s, from, to)[j]
    {
      RelocatedAt(s, from, to, i);
      RelocatedAt(s, from, to, j);
    }
  }

  /** Moving there and back restores the list. */
  lemma RelocatedBack<T>(s: seq<T>, from: int, to: int)
    requires 0 <= from < |s| && 0 <= to < |s|
    ensures |Relocated(s, from, to)| == |s|
    ensures Relocated(Relocated(s, from, to), to, from) == s
  {
    var there := Relocated(s, from, to);
    RelocatedAt(s, from, to, to);
    forall k | 0 <= k < |s| ensures Relocated(there, to, from)[k] == s[k] {
      RelocatedAt(there, to, from, k);
      if k != from {
        RelocatedAt(s, from, to, if from < k <= to then k - 1 else if to <= k < from then k + 1 else k);
      }
    }
  }

  /** One more adjacent swap carries the element one place further. */
  lemma RelocatedStep<T>(s: seq<T>, from: int, i: int, next: int)
    requires 0 <= from < |s| && 0 <= i < |s| && 0 <= next < |s|
    requires (from <= i && next == i + 1) || (i <= from && next == i - 1)
    ensures |Relocated(s, from, i)| == |s|
    ensures Relocated(Relocated(s, from, i), i, next) == Relocated(s, from, next)
    ensures Relocated(Relocated(s, from, i), next, i) == Relocated(s, from, next)
  {
    var here := Relocated(s, from, i);
    forall k | 0 <= k < |s|
      ensures Relocated(here, i, next)[k] == Relocated(s, from, next)[k]
      ensures Relocated(here, next, i)[k] == Relocated(s, from, next)[k]
    {
      RelocatedAt(here, i, next, k);
      RelocatedAt(here, next, i, k);
      RelocatedAt(s, from, next, k);
      RelocatedAt(s, from, i, k);
      RelocatedAt(s, from, i, i);
      RelocatedAt(s, from, i, next);
    }
  }

  // ---- Operations ----

  datatype Operation =
    | Insert(tab: TabRef, index: int)
    | Remove(index: int)
    | Move(from: int, to: int)
    | SetCurrentIndex(index: int)

  /** The index that keeps pointing at the same tab when the tab at from goes to to. */
  function CurrentAfterMove(current: int, from: int, to: int): int {
    if current == from then to
    else if to <= current < from then current + 1
    else if from < current <= to then current - 1
    else current
  }

  function After(m: Model, op: Operation): Model {
    match op
    case Insert(tab, index) =>
      if tab.None? then m else
      var at := Clamped(index, |m.tabs|);
      Model(InsertAt(m.tabs, at, tab.value),
        if m.current == -1 then 0 else if at < m.current then m.current + 1 else m.current)
    case Remove(index) =>
      if !ValidIndex(m, index) then m else
      Model(TakeAt(m.tabs, index),
        if index < m.current || (index == m.current && m.current == |m.tabs| - 1) then m.current - 1 else m.current)
    case Move(from, to) =>
      if from == to || !ValidIndex(m, from) || !ValidIndex(m, to) then m else
      Model(Relocated(m.tabs, from, to), CurrentAfterMove(m.current, from, to))
    case SetCurrentIndex(index) =>
      if ValidIndex(m, index) then m.(current := index) else m
  }

  /** The steps in which a tab is moved: each row move is by one place. */
  function MoveSteps(from: int, to: int): seq<Signal>
    decreases if from < to then to - from else from - to
  {
    if from == to then []
    else if from < to then [RowsMoved(from, from + 2)] + MoveSteps(from + 1, to)
    else [RowsMoved(from, from - 1)] + MoveSteps(from - 1, to)
  }

  lemma MoveStepsFrom(log: seq<Signal>, i: int, to: int)
    ensures i < to ==> log + MoveSteps(i, to) == (log + [RowsMoved(i, i + 2)]) + MoveSteps(i + 1, to)
    ensures i > to ==> log + MoveSteps(i, to) == (log + [RowsMoved(i, i - 1)]) + MoveSteps(i - 1, to)
  {
  }

  function SignalsOf(m: Model, op: Operation): seq<Signal> {
    match op
    case Insert(tab, index) =>
      if tab.None? then [] else
      var at := Clamped(index, |m.tabs|);
      [RowsInserted(at, tab.value), CountChanged] +
      (if m.current == -1 then [CurrentIndexChanged, CurrentTabChanged]
       else if at == m.current then [CurrentTabChanged]
       else if at < m.current then [CurrentIndexChanged]
       else [])
    case Remove(index) =>
      if !ValidIndex(m, index) then [] else
      [RowsRemoved(index), CountChanged] +
      (if index < m.current then [CurrentIndexChanged]
       else if index == m.current then
         (if m.current == |m.tabs| - 1 then [CurrentIndexChanged] else []) + [CurrentTabChanged]
       else [])
    case Move(from, to) =>
      if from == to || !ValidIndex(m, from) || !ValidIndex(m, to) then [] else
      MoveSteps(from, to) +
      (if m.current == from || to <= m.current < from || from < m.current <= to then [CurrentIndexChanged] else [])
    case SetCurrentIndex(index) =>
      if ValidIndex(m, index) && index != m.current then [CurrentIndexChanged, CurrentTabChanged] else []
  }

  // ---- What each operation does to the tabs and to the current one ----

  /** A tab is put in at the index, or at the nearest end when there is no such place, and the others make room. The
      first tab becomes current; so does one put in at the current index; otherwise the current tab stays. */
  lemma InsertEffect(m: Model, tab: Tab, index: int)
    requires Valid(m)
    ensures
      var m', n := After(m, Insert(Some(tab), index)), |m.tabs|;
      var at := if index < 0 then 0 else if index > n then n else index;
      && |m'.tabs| == n + 1 && m'.tabs[at] == tab
      && (forall j :: 0 <= j < at ==> m'.tabs[j] == m.tabs[j])
      && (forall j :: at <= j < n ==> m'.tabs[j + 1] == m.tabs[j])
      && 0 <= m'.current <= n
      && (n == 0 || at == m.current ==> m'.current == at)
      && (n > 0 && at != m.current ==> m'.tabs[m'.current] == m.tabs[m.current])
    ensures After(m, Insert(None, index)) == m
  {
  }

  /** A removed tab leaves the others in their order. The current tab stays, or gives way to the next one, or to the
      one before it when it was the last. */
  lemma RemoveEffect(m: Model, index: int)
    requires Valid(m)
    ensures
      var m', n := After(m, Remove(index)), |m.tabs|;
      if index < 0 || index >= n then m' == m
      else
        && |m'.tabs| == n - 1
        && (forall j :: 0 <= j < index ==> m'.tabs[j] == m.tabs[j])
        && (forall j :: index < j < n ==> m'.tabs[j - 1] == m.tabs[j])
        && (if n == 1 then m'.current == -1
            else
              && 0 <= m'.current < n - 1
              && m'.tabs[m'.current] ==
                   if index != m.current then m.tabs[m.current]
                   else if index < n - 1 then m.tabs[index + 1]
                   else m.tabs[index - 1])
  {
  }

  /** The moved tab is at its new place, and the others keep their order. */
  lemma MoveEffect(m: Model, from: int, to: int)
    requires Valid(m)
    ensures
      var m', n := After(m, Move(from, to)), |m.tabs|;
      if from < 0 || from >= n || to < 0 || to >= n then m' == m
      else
        && |m'.tabs| == n && m'.tabs[to] == m.tabs[from]
        && m'.tabs[..to] + m'.tabs[to + 1..] == m.tabs[..from] + m.tabs[from + 1..]
        && 0 <= m'.current < n && m'.tabs[m'.current] == m.tabs[m.current]
  {
    if ValidIndex(m, from) && ValidIndex(m, to) {
      RelocatedAt(m.tabs, from, to, to);
      if from != to {
        RelocatedAt(m.tabs, from, to, After(m, Move(from, to)).current);
      }
    }
  }

  /** The index asked for is selected if there is a tab at it. */
  lemma SelectEffect(m: Model, index: int)
    ensures After(m, SetCurrentIndex(index)) == if 0 <= index < |m.tabs| then Model(m.tabs, index) else m
  {
  }

  /** Where a signal stands among those of one operation. */
  function Rank(signal: Signal): int {
    match signal
    case CountChanged => 1
    case CurrentIndexChanged => 2
    case CurrentTabChanged => 3
    case _ => 0
  }

  lemma {:induction false} MoveStepsAreRows(from: int, to: int)
    ensures forall i :: 0 <= i < |MoveSteps(from, to)| ==> Rank(MoveSteps(from, to)[i]) == 0
    decreases if from < to then to - from else from - to
  {
    if from != to {
      MoveStepsAreRows(if from < to then from + 1 else from - 1, to);
    }
  }

  /** An operation announces its rows, then the count, exactly when it changed, then the index, then the tab. */
  lemma SignalsInOrder(m: Model, op: Operation)
    requires Valid(m)
    ensures
      var signals := SignalsOf(m, op);
      && (forall i, j :: 0 <= i < j < |signals| ==> Rank(signals[i]) <= Rank(signals[j]))
      && (CountChanged in signals <==> |After(m, op).tabs| != |m.tabs|)
  {
    if op.Move? {
      MoveStepsAreRows(op.from, op.to);
    }
  }

  // ---- A listener that only sees the row signals ----

  /** The listener's list after one signal, None when its row does not exist. */
  function Heard(tabs: seq<Tab>, signal: Signal): Option<seq<Tab>> {
    match signal
    case RowsInserted(row, tab) => if 0 <= row <= |tabs| then Some(InsertAt(tabs, row, tab)) else None
    case RowsRemoved(row) => if 0 <= row < |tabs| then Some(TakeAt(tabs, row)) else None
    case RowsMoved(row, before) =>
      if 0 <= row < |tabs| && 0 <= before <= |tabs| && (before < row || before > row + 1) then
        Some(Relocated(tabs, row, if before > row then before - 1 else before))
      else None
    case _ => Some(tabs)
  }

  lemma {:induction false} SilentSignals(tabs: seq<Tab>, signals: seq<Signal>)
    requires forall i :: 0 <= i < |signals| ==>
      signals[i].CountChanged? || signals[i].CurrentIndexChanged? || signals[i].CurrentTabChanged?
    ensures HeardAll(Heard, tabs, signals) == Some(tabs)
    decreases |signals|
  {
    if signals != [] {
      SilentSignals(tabs, signals[1..]);
    }
  }

  /** The single-place moves add up to the whole move. */
  lemma {:induction false} MoveStepsReplay(tabs: seq<Tab>, from: int, i: int, to: int)
    requires 0 <= from < |tabs| && 0 <= i < |tabs| && 0 <= to < |tabs|
    requires from <= i <= to || to <= i <= from
    ensures |Relocated(tabs, from, i)| == |tabs|
    ensures HeardAll(Heard, Relocated(tabs, from, i), MoveSteps(i, to)) == Some(Relocated(tabs, from, to))
    decreases if i < to then to - i else i - to
  {
    RelocatedAt(tabs, from, i, 0);
    if i != to {
      var next := if i < to then i + 1 else i - 1;
      RelocatedStep(tabs, from, i, next);
      MoveStepsReplay(tabs, from, next, to);
      assert MoveSteps(i, to)[1..] == MoveSteps(next, to);
    }
  }

  lemma RelocatedInPlace<T>(s: seq<T>, from: int)
    requires 0 <= from < |s|
    ensures Relocated(s, from, from) == s
  {
  }

  // ---- What every operation keeps ----

  predicate Fresh(m: Model, op: Operation) {
    op.Insert? && op.tab.Some? ==> op.tab.value !in m.tabs
  }

  lemma OperationKeepsValid(m: Model, op: Operation)
    requires Valid(m) && Fresh(m, op)
    ensures Valid(After(m, op))
  {
    if op.Move? && ValidIndex(m, op.from) && ValidIndex(m, op.to) {
      RelocatedDistinct(m.tabs, op.from, op.to);
    }
  }

  predicate Exact(m: Model, op: Operation) {
    var signals, m' := multiset(SignalsOf(m, op)), After(m, op);
    && signals[CurrentIndexChanged] == (if m'.current != m.current then 1 else 0)
    && signals[CurrentTabChanged] == (if CurrentTab(m') != CurrentTab(m) then 1 else 0)
  }

  /** The two change signals are sent exactly when the index, or the tab object, changed, and then once. */
  lemma SignalsAreExact(m: Model, op: Operation)
    requires Valid(m) && Fresh(m, op)
    ensures Exact(m, op)
  {
    match op
    case Insert(tab, index) => InsertTabExact(m, tab, index);
    case Remove(index) => RemoveTabExact(m, index);
    case Move(from, to) => MoveTabExact(m, from, to);
    case SetCurrentIndex(_) =>
  }

  /** Only what follows the row and count signals can be a change signal. */
  lemma ChangesLast(row: Signal, changes: seq<Signal>, signal: Signal)
    requires !row.CurrentIndexChanged? && !row.CurrentTabChanged?
    requires signal.CurrentIndexChanged? || signal.CurrentTabChanged?
    ensures multiset([row, CountChanged] + changes)[signal] == multiset(changes)[signal]
  {
    assert multiset([row, CountChanged] + changes) == multiset([row, CountChanged]) + multiset(changes);
  }

  lemma InsertTabExact(m: Model, tab: TabRef, index: int)
    requires Valid(m) && Fresh(m, Insert(tab, index))
    ensures Exact(m, Insert(tab, index))
  {
    if tab.Some? {
      var at, m' := Clamped(index, |m.tabs|), After(m, Insert(tab, index));
      var row, changes := RowsInserted(at, tab.value), SignalsOf(m, Insert(tab, index))[2..];
      assert SignalsOf(m, Insert(tab, index)) == [row, CountChanged] + changes;
      ChangesLast(row, changes, CurrentIndexChanged);
      ChangesLast(row, changes, CurrentTabChanged);
      InsertEffect(m, tab.value, index);
      if m.current == -1 {
        assert changes == [CurrentIndexChanged, CurrentTabChanged];
      } else if at == m.current {
        assert changes == [CurrentTabChanged] && m'.tabs[at] != m.tabs[at];
      } else if at < m.current {
        assert changes == [CurrentIndexChanged];
      } else {
        assert changes == [];
      }
    }
  }

  lemma RemoveTabExact(m: Model, index: int)
    requires Valid(m)
    ensures Exact(m, Remove(index))
  {
    if ValidIndex(m, index) {
      var row, changes := RowsRemoved(index), SignalsOf(m, Remove(index))[2..];
      assert SignalsOf(m, Remove(index)) == [row, CountChanged] + changes;
      ChangesLast(row, changes, CurrentIndexChanged);
      ChangesLast(row, changes, CurrentTabChanged);
      RemoveEffect(m, index);
      if index < m.current {
        assert changes == [CurrentIndexChanged];
      } else if index > m.current {
        assert changes == [];
      } else if index == |m.tabs| - 1 {
        assert changes == [CurrentIndexChanged, CurrentTabChanged];
      } else {
        assert changes == [CurrentTabChanged];
      }
    }
  }

  lemma MoveTabExact(m: Model, from: int, to: int)
    requires Valid(m)
    ensures Exact(m, Move(from, to))
  {
    MoveKeepsCurrentTab(m, from, to);
    if ValidIndex(m, from) && ValidIndex(m, to) && from != to {
      var steps := MoveSteps(from, to);
      MoveStepsOnlyMove(from, to);
      assert CurrentIndexChanged !in steps && CurrentTabChanged !in steps;
      assert CurrentIndexChanged !in multiset(steps) && CurrentTabChanged !in multiset(steps);
    }
  }

  lemma {:induction false} MoveStepsOnlyMove(from: int, to: int)
    ensures forall signal :: signal in MoveSteps(from, to) ==> signal.RowsMoved?
    decreases if from < to then to - from else from - to
  {
    if from < to {
      MoveStepsOnlyMove(from + 1, to);
    } else if from > to {
      MoveStepsOnlyMove(from - 1, to);
    }
  }

  /** Moving tabs about never changes which tab is the current one. */
  lemma MoveKeepsCurrentTab(m: Model, from: int, to: int)
    requires Valid(m)
    ensures CurrentTab(After(m, Move(from, to))) == CurrentTab(m)
  {
    if ValidIndex(m, from) && ValidIndex(m, to) {
      RelocatedAt(m.tabs, from, to, CurrentAfterMove(m.current, from, to));
    }
  }

  /** Moving there and back restores the tabs and the current index. */
  lemma MoveThereAndBack(m: Model, from: int, to: int)
    requires Valid(m)
    ensures After(After(m, Move(from, to)), Move(to, from)) == m
  {
    if ValidIndex(m, from) && ValidIndex(m, to) {
      RelocatedBack(m.tabs, from, to);
    }
  }

  /** A listener that replays the row signals of an operation holds the tabs after it. */
  lemma SignalsReplay(m: Model, op: Operation)
    ensures HeardAll(Heard, m.tabs, SignalsOf(m, op)) == Some(After(m, op).tabs)
  {
    var signals := SignalsOf(m, op);
    if op.Move? && op.from != op.to && ValidIndex(m, op.from) && ValidIndex(m, op.to) {
      var steps := MoveSteps(op.from, op.to);
      RelocatedInPlace(m.tabs, op.from);
      MoveStepsReplay(m.tabs, op.from, op.from, op.to);
      HeardAppend(Heard, m.tabs, steps, signals[|steps|..]);
      assert signals == steps + signals[|steps|..];
      SilentSignals(After(m, op).tabs, signals[|steps|..]);
    } else if op.SetCurrentIndex? {
      SilentSignals(m.tabs, signals);
    } else if signals != [] {
      SilentSignals(After(m, op).tabs, signals[1..]);
    }
  }

  // ---- Runs ----

  ghost predicate IsRun(m: Model, ops: seq<Operation>)
    decreases |ops|
  {
    ops == [] || (Fresh(m, ops[0]) && IsRun(After(m, ops[0]), ops[1..]))
  }

  function End(m: Model, ops: seq<Operation>): Model
    decreases |ops|
  {
    if ops == [] then m else End(After(m, ops[0]), ops[1..])
  }

  function Log(m: Model, ops: seq<Operation>): seq<Signal>
    decreases |ops|
  {
    if ops == [] then [] else SignalsOf(m, ops[0]) + Log(After(m, ops[0]), ops[1..])
  }

  /** Over every run from the empty model: the current index is -1 exactly without tabs and else in range, and
      the row signals replay to the list of tabs. */
  lemma {:induction false} RunKeepsValid(m: Model, ops: seq<Operation>)
    requires Valid(m) && IsRun(m, ops)
    ensures Valid(End(m, ops))
    ensures HeardAll(Heard, m.tabs, Log(m, ops)) == Some(End(m, ops).tabs)
    decreases |ops|
  {
    if ops != [] {
      OperationKeepsValid(m, ops[0]);
      SignalsReplay(m, ops[0]);
      RunKeepsValid(After(m, ops[0]), ops[1..]);
      HeardAppend(Heard, m.tabs, SignalsOf(m, ops[0]), Log(After(m, ops[0]), ops[1..]));
    }
  }

  // ---- The model object ----

  class TabsModel {
    var tabs: seq<Tab>
    var currentIndex: int
    var log: seq<Signal>

    function State(): Model
      reads this
    {
      Model(tabs, currentIndex)
    }

    constructor ()
      ensures State() == NO_TABS && log == []
    {
      tabs, currentIndex, log := [], -1, [];
    }

    method Emit(signal: Signal)
      modifies this`log
      ensures log == old(log) + [signal]
    {
      log := log + [signal];
    }

    method SetCurrentIndex(index: int)
      modifies this
      ensures State() == After(old(State()), Operation.SetCurrentIndex(index))
      ensures log == old(log) + SignalsOf(old(State()), Operation.SetCurrentIndex(index))
    {
      if !ValidIndex(State(), index) {
        return;
      }
      if index != currentIndex {
        currentIndex := index;
        Emit(CurrentIndexChanged);
        Emit(CurrentTabChanged);
      }
    }

    method Insert(tab: TabRef, index: int) returns (at: int)
      modifies this
      ensures State() == After(old(State()), Operation.Insert(tab, index))
      ensures log == old(log) + SignalsOf(old(State()), Operation.Insert(tab, index))
      ensures if tab.None? then at == -1 else 0 <= at < |tabs| && tabs[at] == tab.value
    {
      if tab.None? {
        return -1;
      }
      at := Clamped(index, |tabs|);
      tabs := tabs[..at] + [tab.value] + tabs[at..];
      Emit(RowsInserted(at, tab.value));
      Emit(CountChanged);
      if currentIndex == -1 {
        currentIndex := 0;
        Emit(CurrentIndexChanged);
        Emit(CurrentTabChanged);
      } else if at == currentIndex {
        Emit(CurrentTabChanged);
      } else if at < currentIndex {
        currentIndex := currentIndex + 1;
        Emit(CurrentIndexChanged);
      }
    }

    method Remove(index: int) returns (tab: TabRef)
      modifies this
      ensures State() == After(old(State()), Operation.Remove(index))
      ensures log == old(log) + SignalsOf(old(State()), Operation.Remove(index))
      ensures tab == if 0 <= index < |old(tabs)| then Some(old(tabs)[index]) else None
    {
      if !ValidIndex(State(), index) {
        return None;
      }
      tab := Some(tabs[index]);
      tabs := tabs[..index] + tabs[index + 1..];
      Emit(RowsRemoved(index));
      Emit(CountChanged);
      if index < currentIndex {
        currentIndex := currentIndex - 1;
        Emit(CurrentIndexChanged);
      } else if index == currentIndex {
        if currentIndex == |tabs| {
          currentIndex := currentIndex - 1;
          Emit(CurrentIndexChanged);
        }
        Emit(CurrentTabChanged);
      }
    }

    /** Swaps a tab with its right or left neighbour. */
    method Swap(i: int, next: int)
      requires 0 <= i < |tabs| && 0 <= next < |tabs| && (next == i + 1 || next == i - 1)
      modifies this`tabs, this`log
      ensures tabs == if next > i then Relocated(old(tabs), next, i) else Relocated(old(tabs), i, next)
      ensures log == old(log) + [if next > i then RowsMoved(i, i + 2) else RowsMoved(i, i - 1)]
    {
      if next > i {
        tabs := Relocated(tabs, i + 1, i);
        Emit(RowsMoved(i, i + 2));
      } else {
        tabs := Relocated(tabs, i, i - 1);
        Emit(RowsMoved(i, i - 1));
      }
    }

    /** The shuffle: adjacent swaps carry the tab to its destination. */
    method Shuffle(from: int, to: int)
      requires 0 <= from < |tabs| && 0 <= to < |tabs|
      modifies this`tabs, this`log
      ensures tabs == Relocated(old(tabs), from, to)
      ensures log == old(log) + MoveSteps(from, to)
    {
      var diff := to - from;
      var i := from;
      RelocatedInPlace(tabs, from);
      while i != to
        invariant from <= i <= to || to <= i <= from
        invariant diff == to - from
        invariant |tabs| == |old(tabs)|
        invariant tabs == Relocated(old(tabs), from, i)
        invariant log + MoveSteps(i, to) == old(log) + MoveSteps(from, to)
        decreases if i < to then to - i else i - to
      {
        var next := if diff > 0 then i + 1 else i - 1;
        RelocatedStep(old(tabs), from, i, next);
        MoveStepsFrom(log, i, to);
        Swap(i, next);
        i := next;
      }
      assert log + [] == log;
    }

    method Move(from: int, to: int)
      modifies this
      ensures State() == After(old(State()), Operation.Move(from, to))
      ensures log == old(log) + SignalsOf(old(State()), Operation.Move(from, to))
    {
      if from == to || !ValidIndex(State(), from) || !ValidIndex(State(), to) {
        return;
      }
      Shuffle(from, to);
      if currentIndex == from {
        currentIndex := to;
        Emit(CurrentIndexChanged);
      } else if currentIndex >= to && currentIndex < from {
        currentIndex := currentIndex + 1;
        Emit(CurrentIndexChanged);
      } else if currentIndex > from && currentIndex <= to {
        currentIndex := currentIndex - 1;
        Emit(CurrentIndexChanged);
      }
    }
  }
}
