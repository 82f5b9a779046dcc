/** The order in which a QMap keeps its string keys: by the first difference, a prefix first. Characters compare as
    Unicode scalar values, which is the order of QString's UTF-16 units except that characters beyond U+FFFF come
    after, and not before, those from U+E000 to U+FFFF. */
module StringOrder {

  predicate AtMost(a: string, b: string)
    decreases |a|
  {
    a == "" || (b != "" && (a[0] < b[0] || (a[0] == b[0] && AtMost(a[1..], b[1..]))))
  }

  predicate Less(a: string, b: string) {
    AtMost(a, b) && a != b
  }

  lemma {:induction false} AtMostTotal(a: string, b: string)
    ensures AtMost(a, b) || AtMost(b, a)
    ensures AtMost(a, a)
    decreases |a|
  {
    if a != "" {
      AtMostTotal(a[1..], if b == "" then "" else b[1..]);
    }
  }

  lemma {:induction false} AtMostAntisymmetric(a: string, b: string)
    requires AtMost(a, b) && AtMost(b, a)
    ensures a == b
    decreases |a|
  {
    if a != "" && b != "" {
      AtMostAntisymmetric(a[1..], b[1..]);
      assert a == [a[0]] + a[1..] && b == [b[0]] + b[1..];
    }
  }

  lemma {:induction false} AtMostTransitive(a: string, b: string, c: string)
    requires AtMost(a, b) && AtMost(b, c)
    ensures AtMost(a, c)
    decreases |a|
  {
    if a != "" && a[0] == b[0] == c[0] {
      AtMostTransitive(a[1..], b[1..], c[1..]);
    }
  }

  /** Two strings are ordered by the first place where they differ, or by length when there is none. */
  lemma {:induction false} FirstDifferenceDecides(a: string, b: string, at: nat)
    requires at <= |a| && at <= |b| && a[..at] == b[..at]
    ensures at == |a| ==> (Less(a, b) <==> |a| < |b|)
    ensures at < |a| && at < |b| && a[at] != b[at] ==> (Less(a, b) <==> a[at] < b[at])
    decreases at
  {
    if at > 0 {
      assert a[0] == a[..at][0] == b[..at][0] == b[0];
      assert a[1..][..at - 1] == a[..at][1..] == b[..at][1..] == b[1..][..at - 1];
      FirstDifferenceDecides(a[1..], b[1..], at - 1);
      assert a == [a[0]] + a[1..] && b == [b[0]] + b[1..];
    }
  }

  ghost predicate Ascending(keys: seq<string>) {
    forall i, j :: 0 <= i < j < |keys| ==> Less(keys[i], keys[j])
  }

  predicate IsLeast(key: string, keys: set<string>) {
    key in keys && forall k :: k in keys ==> AtMost(key, k)
  }

  lemma {:induction false} LeastExists(keys: set<string>)
    requires keys != {}
    ensures exists key :: IsLeast(key, keys)
    decreases |keys|
  {
    var k :| k in keys;
    var rest := keys - {k};
    AtMostTotal(k, k);
    if rest == {} {
      assert keys == {k};
      assert IsLeast(k, keys);
    } else {
      LeastExists(rest);
      var least :| IsLeast(least, rest);
      AtMostTotal(k, least);
      var key := if AtMost(k, least) then k else least;
      forall other | other in keys ensures AtMost(key, other) {
        if other != k && key == k {
          AtMostTransitive(k, least, other);
        }
      }
      assert IsLeast(key, keys);
    }
  }

  lemma LeastUnique(a: string, b: string, keys: set<string>)
    requires IsLeast(a, keys) && IsLeast(b, keys)
    ensures a == b
  {
    AtMostAntisymmetric(a, b);
  }

  /** The keys of a QMap in iteration order. */
  ghost function SortedKeys(keys: set<string>): (sorted: seq<string>)
    ensures forall key :: key in sorted <==> key in keys
    ensures Ascending(sorted)
    decreases |keys|
  {
    if keys == {} then []
    else
      LeastExists(keys);
      var least :| IsLeast(least, keys);
      [least] + SortedKeys(keys - {least})
  }

  lemma SortedKeysOfLeast(least: string, keys: set<string>)
    requires IsLeast(least, keys)
    ensures SortedKeys(keys) == [least] + SortedKeys(keys - {least})
  {
    LeastExists(keys);
    var other :| IsLeast(other, keys) && SortedKeys(keys) == [other] + SortedKeys(keys - {other});
    LeastUnique(least, other, keys);
  }

  lemma AscendingDistinct(keys: seq<string>)
    requires Ascending(keys)
    ensures forall i, j :: 0 <= i < j < |keys| ==> keys[i] != keys[j]
  {
  }

  lemma TailMembers(a: seq<string>, b: seq<string>)
    requires Ascending(a) && a != [] && b != [] && a[0] == b[0]
    requires forall key :: key in a ==> key in b
    ensures forall key :: key in a[1..] ==> key in b[1..]
  {
    forall key | key in a[1..] ensures key in b[1..] {
      var k :| 0 <= k < |a[1..]| && a[1..][k] == key;
      assert Less(a[0], a[k + 1]);
      assert a[k + 1] in b;
      var m :| 0 <= m < |b| && b[m] == key;
      assert b[1..][m - 1] == key;
    }
  }

  /** Ascending sequences over the same keys are equal. */
  lemma {:induction false} AscendingUnique(a: seq<string>, b: seq<string>)
    requires Ascending(a) && Ascending(b)
    requires forall key :: key in a <==> key in b
    ensures a == b
    decreases |a|
  {
    assert a != [] ==> a[0] in a;
    assert b != [] ==> b[0] in b;
    if a != [] && b != [] {
      var i :| 0 <= i < |b| && b[i] == a[0];
      var j :| 0 <= j < |a| && a[j] == b[0];
      assert i > 0 ==> AtMost(b[0], a[0]);
      assert j > 0 ==> AtMost(a[0], b[0]);
      AtMostTotal(a[0], a[0]);
      AtMostAntisymmetric(a[0], b[0]);
      TailMembers(a, b);
      TailMembers(b, a);
      AscendingUnique(a[1..], b[1..]);
      assert a == [a[0]] + a[1..] && b == [b[0]] + b[1..];
    }
  }
}
