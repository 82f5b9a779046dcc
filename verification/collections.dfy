/** Small facts about sequences that several models share. */
module Collections {

  datatype Option<+T> = None | Some(value: T)

  ghost predicate SameElements<T(!new)>(a: seq<T>, b: seq<T>) {
    forall x :: x in a <==> x in b
  }

  ghost predicate Distinct<T>(s: seq<T>) {
    forall i, j :: 0 <= i < j < |s| ==> s[i] != s[j]
  }

  lemma {:induction false} DistinctCount<T>(s: seq<T>, x: T)
    requires Distinct(s)
    ensures multiset(s)[x] == if x in s then 1 else 0
  {
    if s != [] {
      assert s == [s[0]] + s[1..];
      DistinctCount(s[1..], x);
    }
  }

  /** Two duplicate-free sequences over the same elements are permutations of each other. */
  lemma SameElementsPermute<T(!new)>(a: seq<T>, b: seq<T>)
    requires Distinct(a) && Distinct(b) && SameElements(a, b)
    ensures multiset(a) == multiset(b)
  {
    forall x ensures multiset(a)[x] == multiset(b)[x] {
      DistinctCount(a, x);
      DistinctCount(b, x);
    }
  }

  lemma PermutedElements<T(!new)>(a: seq<T>, b: seq<T>)
    requires multiset(a) == multiset(b)
    ensures SameElements(a, b) && |a| == |b|
  {
    assert |multiset(a)| == |a| && |multiset(b)| == |b|;
    forall x ensures x in a <==> x in b {
      assert x in a <==> x in multiset(a);
      assert x in b <==> x in multiset(b);
    }
  }

  /** An order that visits every element once. */
  ghost predicate Enumerates<T(!new)>(order: seq<T>, elements: set<T>) {
    Distinct(order) && forall x :: x in order <==> x in elements
  }

  lemma EnumeratesMore<T(!new)>(order: seq<T>, all: set<T>, left: set<T>, x: T)
    requires Enumerates(order, all - left) && left <= all && x in left
    ensures Enumerates(order + [x], all - (left - {x}))
  {
  }

  function TakeAt<T>(s: seq<T>, index: int): seq<T>
    requires 0 <= index < |s|
  {
    s[..index] + s[index + 1..]
  }

  lemma TakenCount<T>(s: seq<T>, index: int)
    requires 0 <= index < |s|
    ensures multiset(s) == multiset(TakeAt(s, index)) + multiset{s[index]}
  {
    assert s == s[..index] + ([s[index]] + s[index + 1..]);
  }

  /** What is left is what stood at the other positions. */
  lemma TakenMembers<T(!new)>(s: seq<T>, index: int, x: T)
    requires 0 <= index < |s|
    ensures x in TakeAt(s, index) <==> exists j :: 0 <= j < |s| && j != index && s[j] == x
  {
    var left := TakeAt(s, index);
    if x in left {
      var i :| 0 <= i < |left| && left[i] == x;
      assert s[if i < index then i else i + 1] == x;
    }
    if j :| 0 <= j < |s| && j != index && s[j] == x {
      assert left[if j < index then j else j - 1] == x;
    }
  }

  lemma HasMember<T(!new)>(s: seq<T>)
    ensures s != [] ==> exists x :: x in s
  {
    if s != [] {
      assert s[0] in s;
    }
  }

  lemma DistinctTail<T(!new)>(s: seq<T>)
    requires Distinct(s) && s != []
    ensures Distinct(s[1..]) && s[0] !in s[1..]
    ensures forall x :: x in s <==> x == s[0] || x in s[1..]
  {
    assert s == [s[0]] + s[1..];
  }

  lemma TailCount<T>(s: seq<T>)
    requires s != []
    ensures multiset(s[1..]) == multiset(s) - multiset{s[0]}
  {
    assert s == [s[0]] + s[1..];
  }

  // ---- Filters ----

  /** The wanted elements, in their order. */
  function Filter<T>(all: seq<T>, wanted: T -> bool): seq<T> {
    if all == [] then []
    else (if wanted(all[0]) then [all[0]] else []) + Filter(all[1..], wanted)
  }

  // ---- Listeners ----

  /** What a listener knows after a sequence of signals, or None from the first one on that is not well formed. */
  function HeardAll<V, S>(heard: (V, S) -> Option<V>, view: V, signals: seq<S>): Option<V>
    decreases |signals|
  {
    if signals == [] then Some(view)
    else
      match heard(view, signals[0])
      case None => None
      case Some(next) => HeardAll(heard, next, signals[1..])
  }

  lemma {:induction false} HeardAppend<V, S>(heard: (V, S) -> Option<V>, view: V, a: seq<S>, b: seq<S>)
    requires HeardAll(heard, view, a).Some?
    ensures HeardAll(heard, view, a + b) == HeardAll(heard, HeardAll(heard, view, a).value, b)
    decreases |a|
  {
    if a == [] {
      assert a + b == b;
    } else {
      assert (a + b)[1..] == a[1..] + b;
      HeardAppend(heard, heard(view, a[0]).value, a[1..], b);
    }
  }

  lemma HeardOne<V, S>(heard: (V, S) -> Option<V>, view: V, signal: S)
    ensures HeardAll(heard, view, [signal]) == heard(view, signal)
  {
    assert [signal][1..] == [];
  }
}
