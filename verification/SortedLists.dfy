/**
  Sorting by a string key, as the evidence documents do before they check for duplicates:
  the stable sort, the in-place version refining it, and the fact that a strictly sorted list
  is determined by its set of keys.
*/
module SortedLists {

  /** Byte-wise lexicographic order on strings. */
  predicate Less(a: string, b: string) {
    b != "" && (a == "" || a[0] < b[0] || (a[0] == b[0] && Less(a[1..], b[1..])))
  }

  lemma {:induction false} LessIsIrreflexive(a: string)
    ensures !Less(a, a)
  {
    if a != "" { LessIsIrreflexive(a[1..]); }
  }

  lemma {:induction false} LessIsTransitive(a: string, b: string, c: string)
    requires Less(a, b) && Less(b, c)
    ensures Less(a, c)
  {
    if a != "" && a[0] == b[0] && b[0] == c[0] { LessIsTransitive(a[1..], b[1..], c[1..]); }
  }

  lemma {:induction false} LessIsTotal(a: string, b: string)
    ensures Less(a, b) || a == b || Less(b, a)
  {
    if a != "" && b != "" && a[0] == b[0] {
      LessIsTotal(a[1..], b[1..]);
      if a[1..] == b[1..] {
        assert a == [a[0]] + a[1..];
        assert b == [b[0]] + b[1..];
      }
    }
  }

  // ---------------------------------------------------------------- the sort

  /** Insert behind every element whose key is not greater. */
  function Insert<T>(s: seq<T>, x: T, key: T -> string): (r: seq<T>)
    ensures |r| == |s| + 1
  {
    if s == [] then [x]
    else
      var n := |s| - 1;
      if Less(key(x), key(s[n])) then Insert(s[..n], x, key) + [s[n]] else s + [x]
  }

  lemma {:induction false} InsertPermutes<T>(s: seq<T>, x: T, key: T -> string)
    ensures multiset(Insert(s, x, key)) == multiset(s) + multiset{x}
  {
    if s != [] {
      var n := |s| - 1;
      InsertPermutes(s[..n], x, key);
      assert s == s[..n] + [s[n]];
    }
  }

  function Sort<T>(s: seq<T>, key: T -> string): (r: seq<T>)
    ensures |r| == |s| && multiset(r) == multiset(s)
  {
    if s == [] then []
    else
      assert s == s[..|s| - 1] + [s[|s| - 1]];
      InsertPermutes(Sort(s[..|s| - 1], key), s[|s| - 1], key);
      Insert(Sort(s[..|s| - 1], key), s[|s| - 1], key)
  }

  ghost predicate SortedBy<T>(s: seq<T>, key: T -> string) {
    forall i, j :: 0 <= i < j < |s| ==> !Less(key(s[j]), key(s[i]))
  }

  ghost predicate StrictlySortedBy<T>(s: seq<T>, key: T -> string) {
    forall i, j :: 0 <= i < j < |s| ==> Less(key(s[i]), key(s[j]))
  }

  lemma NotLessIsTransitive(a: string, b: string, c: string)
    requires !Less(b, a) && !Less(c, b)
    ensures !Less(c, a)
  {
    LessIsTotal(a, b);
    LessIsTotal(b, c);
    if Less(c, a) {
      if Less(a, b) { LessIsTransitive(c, a, b); }
    }
  }

  lemma {:induction false} InsertKeepsOrder<T>(s: seq<T>, x: T, key: T -> string)
    requires SortedBy(s, key)
    ensures SortedBy(Insert(s, x, key), key)
  {
    if s != [] {
      var n := |s| - 1;
      if Less(key(x), key(s[n])) {
        InsertKeepsOrder(s[..n], x, key);
        var front := Insert(s[..n], x, key);
        forall i | 0 <= i < |front| ensures !Less(key(s[n]), key(front[i])) {
          InsertMembers(s[..n], x, key, i);
          if front[i] == x {
            if Less(key(s[n]), key(x)) { LessIsTransitive(key(x), key(s[n]), key(x)); LessIsIrreflexive(key(x)); }
          }
        }
      } else {
        forall i | 0 <= i < n ensures !Less(key(x), key(s[i])) { NotLessIsTransitive(key(s[i]), key(s[n]), key(x)); }
      }
    }
  }

  lemma InsertMembers<T>(s: seq<T>, x: T, key: T -> string, i: nat)
    requires i < |s| + 1
    ensures Insert(s, x, key)[i] == x || exists j :: 0 <= j < |s| && s[j] == Insert(s, x, key)[i]
  {
    var r := Insert(s, x, key);
    InsertPermutes(s, x, key);
    assert r[i] in multiset(r);
    if r[i] != x { assert r[i] in multiset(s); }
  }

  lemma {:induction false} SortSorts<T>(s: seq<T>, key: T -> string)
    ensures SortedBy(Sort(s, key), key)
  {
    if s != [] {
      SortSorts(s[..|s| - 1], key);
      InsertKeepsOrder(Sort(s[..|s| - 1], key), s[|s| - 1], key);
    }
  }

  /** Where insertion puts the element: behind the last one that is not greater. */
  lemma {:induction false} InsertAt<T>(s: seq<T>, x: T, key: T -> string, j: nat)
    requires j <= |s| && (j > 0 ==> !Less(key(x), key(s[j - 1])))
    requires forall k :: j <= k < |s| ==> Less(key(x), key(s[k]))
    ensures Insert(s, x, key) == s[..j] + [x] + s[j..]
  {
    if j < |s| {
      var n := |s| - 1;
      InsertAt(s[..n], x, key, j);
      assert s[..n][..j] == s[..j] && s[..n][j..] + [s[n]] == s[j..];
    }
  }

  lemma SortStep<T>(s: seq<T>, key: T -> string, i: nat)
    requires i < |s|
    ensures Sort(s[..i + 1], key) == Insert(Sort(s[..i], key), s[i], key)
  {
    assert s[..i + 1][..i] == s[..i];
  }

  /** The sort in place, shifting each element left past the greater ones. */
  method SortInPlace<T>(a: array<T>, key: T -> string)
    modifies a
    ensures a[..] == Sort(old(a[..]), key)
    ensures SortedBy(a[..], key)
  {
    hide Sort, Insert, SortedBy;
    ghost var was := a[..];
    var i := 0;
    SortNothing(was[..0], key);
    while i < a.Length
      invariant 0 <= i <= a.Length
      invariant a[..i] == Sort(was[..i], key)
      invariant a[i..] == was[i..]
    {
      assert a[i] == a[i..][0] == was[i];
      SortStep(was, key, i);
      InsertInPlace(a, i, key);
      assert a[i + 1..] == was[i..][1..];
      i := i + 1;
    }
    assert was[..a.Length] == was && a[..a.Length] == a[..];
    SortSorts(was, key);
  }

  lemma SortNothing<T>(s: seq<T>, key: T -> string)
    requires s == []
    ensures Sort(s, key) == []
  {
  }

  method InsertInPlace<T>(a: array<T>, i: nat, key: T -> string)
    requires i < a.Length
    modifies a
    ensures a[..i + 1] == Insert(old(a[..i]), old(a[i]), key)
    ensures a[i + 1..] == old(a[i + 1..])
  {
    hide Insert, Less;
    ghost var s, x := a[..i], a[i];
    var j := i;
    while 0 < j && Less(key(a[j]), key(a[j - 1]))
      invariant 0 <= j <= i && a[j] == x
      invariant forall k :: 0 <= k < j ==> a[k] == s[k]
      invariant forall k :: j <= k < i ==> a[k + 1] == s[k] && Less(key(x), key(s[k]))
      invariant forall k :: i < k < a.Length ==> a[k] == old(a[k])
    {
      a[j - 1], a[j] := a[j], a[j - 1];
      j := j - 1;
    }
    InsertAt(s, x, key, j);
  }

  // ---------------------------------------------------------------- duplicates

  /** Whether two neighbours share a key. */
  predicate NeighboursEqual<T>(s: seq<T>, key: T -> string) {
    exists i :: 0 <= i < |s| - 1 && key(s[i]) == key(s[i + 1])
  }

  /** In a sorted list, distinct neighbours mean strictly sorted, and so distinct everywhere. */
  lemma {:induction false} NeighboursSuffice<T>(s: seq<T>, key: T -> string)
    requires SortedBy(s, key)
    ensures !NeighboursEqual(s, key) <==> StrictlySortedBy(s, key)
  {
    if !NeighboursEqual(s, key) {
      forall i, j | 0 <= i < j < |s| ensures Less(key(s[i]), key(s[j])) { FarLess(s, key, i, j); }
    } else {
      var i :| 0 <= i < |s| - 1 && key(s[i]) == key(s[i + 1]);
      LessIsIrreflexive(key(s[i]));
    }
  }

  lemma {:induction false} FarLess<T>(s: seq<T>, key: T -> string, i: nat, j: nat)
    requires SortedBy(s, key) && !NeighboursEqual(s, key) && i < j < |s|
    ensures Less(key(s[i]), key(s[j]))
    decreases j
  {
    LessIsTotal(key(s[j - 1]), key(s[j]));
    assert key(s[j - 1]) != key(s[j - 1 + 1]);
    if i < j - 1 {
      FarLess(s, key, i, j - 1);
      LessIsTransitive(key(s[i]), key(s[j - 1]), key(s[j]));
    }
  }

  /** The keys in order. */
  function KeyList<T>(s: seq<T>, key: T -> string): (r: seq<string>)
    ensures |r| == |s| && forall i :: 0 <= i < |r| ==> r[i] == key(s[i])
  {
    seq(|s|, i requires 0 <= i < |s| => key(s[i]))
  }

  ghost function KeysOf<T>(s: seq<T>, key: T -> string): set<string> {
    set i | 0 <= i < |s| :: key(s[i])
  }

  /** A strictly sorted list of keys is determined by the set of its keys. */
  lemma {:induction false} StrictlySortedIsUnique<T, U>(s: seq<T>, key: T -> string, t: seq<U>, other: U -> string)
    requires StrictlySortedBy(s, key) && StrictlySortedBy(t, other) && KeysOf(s, key) == KeysOf(t, other)
    ensures |s| == |t| && forall i :: 0 <= i < |s| ==> key(s[i]) == other(t[i])
  {
    assert forall i :: 0 <= i < |s| ==> key(s[i]) in KeysOf(s, key);
    assert forall i :: 0 <= i < |t| ==> other(t[i]) in KeysOf(t, other);
    if s != [] {
      assert key(s[0]) in KeysOf(t, other);
      LastKeyIsGreatest(s, key, t, other);
      var m, n := |s| - 1, |t| - 1;
      WithoutLast(s, key);
      WithoutLast(t, other);
      StrictlySortedIsUnique(s[..m], key, t[..n], other);
      forall i | 0 <= i < |s| ensures key(s[i]) == other(t[i]) {
        if i < m { assert key(s[..m][i]) == other(t[..n][i]); }
      }
    }
  }

  lemma LastKeyIsGreatest<T, U>(s: seq<T>, key: T -> string, t: seq<U>, other: U -> string)
    requires StrictlySortedBy(s, key) && StrictlySortedBy(t, other) && KeysOf(s, key) == KeysOf(t, other) && s != []
             && t != []
    ensures key(s[|s| - 1]) == other(t[|t| - 1])
  {
    var a, b := key(s[|s| - 1]), other(t[|t| - 1]);
    assert a in KeysOf(s, key) && b in KeysOf(t, other);
    var i :| 0 <= i < |t| && other(t[i]) == a;
    var j :| 0 <= j < |s| && key(s[j]) == b;
    if i < |t| - 1 && j < |s| - 1 {
      LessIsTransitive(a, b, a);
      LessIsIrreflexive(a);
    }
  }

  lemma WithoutLast<T>(s: seq<T>, key: T -> string)
    requires StrictlySortedBy(s, key) && s != []
    ensures KeysOf(s[..|s| - 1], key) == KeysOf(s, key) - {key(s[|s| - 1])}
    ensures StrictlySortedBy(s[..|s| - 1], key)
  {
    var n := |s| - 1;
    LessIsIrreflexive(key(s[n]));
    forall k ensures k in KeysOf(s[..n], key) <==> k in KeysOf(s, key) - {key(s[n])} {
      if k in KeysOf(s[..n], key) {
        var i :| 0 <= i < n && key(s[..n][i]) == k;
        assert key(s[i]) == k && Less(key(s[i]), key(s[n]));
      }
      if k in KeysOf(s, key) - {key(s[n])} {
        var i :| 0 <= i < |s| && key(s[i]) == k;
        assert key(s[..n][i]) == k;
      }
    }
  }

  /** Sorting lists that are permutations of each other and have no duplicate keys gives the same list. */
  lemma SortIgnoresOrder<T>(s: seq<T>, t: seq<T>, key: T -> string)
    requires multiset(s) == multiset(t) && !NeighboursEqual(Sort(s, key), key)
    ensures Sort(s, key) == Sort(t, key)
  {
    hide Sort, SortedBy, StrictlySortedBy, NeighboursEqual, KeysOf;
    var a, b := Sort(s, key), Sort(t, key);
    SortSorts(s, key);
    SortSorts(t, key);
    NeighboursSuffice(a, key);
    PermutationKeepsKeys(a, b, key);
    NeighboursSuffice(b, key);
    StrictlySortedIsUnique(a, key, b, key);
    forall i | 0 <= i < |a| ensures a[i] == b[i] {
      assert a[i] in multiset(a) && b[i] in multiset(b);
      SameKeySameElement(a, key, a[i], b[i]);
    }
  }

  lemma PermutationKeepsKeys<T>(a: seq<T>, b: seq<T>, key: T -> string)
    requires multiset(a) == multiset(b) && StrictlySortedBy(a, key) && SortedBy(b, key)
    ensures KeysOf(a, key) == KeysOf(b, key) && !NeighboursEqual(b, key)
  {
    forall k ensures k in KeysOf(a, key) <==> k in KeysOf(b, key) {
      if k in KeysOf(a, key) { var i :| 0 <= i < |a| && key(a[i]) == k; assert a[i] in multiset(b); }
      if k in KeysOf(b, key) { var i :| 0 <= i < |b| && key(b[i]) == k; assert b[i] in multiset(a); }
    }
    if NeighboursEqual(b, key) {
      var i :| 0 <= i < |b| - 1 && key(b[i]) == key(b[i + 1]);
      SameKeySameElement(a, key, b[i], b[i + 1]);
      assert b == b[..i] + [b[i], b[i + 1]] + b[i + 2..];
      assert multiset(b)[b[i]] >= 2;
      OnlyOnce(a, key, b[i]);
    }
  }

  lemma SameKeySameElement<T>(a: seq<T>, key: T -> string, x: T, y: T)
    requires StrictlySortedBy(a, key) && x in multiset(a) && y in multiset(a) && key(x) == key(y)
    ensures x == y
  {
    var i :| 0 <= i < |a| && a[i] == x;
    var j :| 0 <= j < |a| && a[j] == y;
    LessIsIrreflexive(key(x));
  }

  lemma {:induction false} OnlyOnce<T>(a: seq<T>, key: T -> string, x: T)
    requires StrictlySortedBy(a, key)
    ensures multiset(a)[x] <= 1
  {
    if a != [] {
      var n := |a| - 1;
      assert a == a[..n] + [a[n]];
      OnlyOnce(a[..n], key, x);
      if a[n] == x && x in a[..n] {
        var i :| 0 <= i < n && a[i] == x;
        LessIsIrreflexive(key(x));
      }
    }
  }

  ghost predicate DistinctBy<T>(s: seq<T>, key: T -> string) {
    forall i, j :: 0 <= i < j < |s| ==> key(s[i]) != key(s[j])
  }

  lemma {:induction false} DistinctOnce<T>(s: seq<T>, key: T -> string, x: T)
    requires DistinctBy(s, key)
    ensures multiset(s)[x] <= 1
  {
    if s != [] {
      var n := |s| - 1;
      assert s == s[..n] + [s[n]];
      DistinctOnce(s[..n], key, x);
      assert forall i :: 0 <= i < n ==> s[..n][i] == s[i] && key(s[i]) != key(s[n]);
      assert s[n] !in s[..n];
    }
  }

  lemma TwiceIsTwo<T>(s: seq<T>, i: nat, j: nat)
    requires i < j < |s| && s[i] == s[j]
    ensures multiset(s)[s[i]] >= 2
  {
    assert s == s[..i] + [s[i]] + s[i + 1..j] + [s[j]] + s[j + 1..];
  }

  /** The sorted list has no equal neighbours exactly when the keys were distinct to begin with. */
  lemma NeighboursTellDuplicates<T>(s: seq<T>, key: T -> string)
    ensures !NeighboursEqual(Sort(s, key), key) <==> DistinctBy(s, key)
  {
    hide Sort, SortedBy;
    var sorted := Sort(s, key);
    SortSorts(s, key);
    NeighboursSuffice(sorted, key);
    if NeighboursEqual(sorted, key) {
      var i :| 0 <= i < |sorted| - 1 && key(sorted[i]) == key(sorted[i + 1]);
      var x, y := sorted[i], sorted[i + 1];
      if x == y {
        TwiceIsTwo(sorted, i, i + 1);
        if DistinctBy(s, key) { DistinctOnce(s, key, x); }
      } else {
        assert x in multiset(sorted) && y in multiset(sorted);
        assert x in s && y in s;
        var k :| 0 <= k < |s| && s[k] == x;
        var l :| 0 <= l < |s| && s[l] == y;
      }
    }
    if !DistinctBy(s, key) {
      var i, j :| 0 <= i < j < |s| && key(s[i]) == key(s[j]);
      assert s[i] in multiset(s) && s[j] in multiset(s);
      if !NeighboursEqual(sorted, key) {
        SameKeySameElement(sorted, key, s[i], s[j]);
        TwiceIsTwo(s, i, j);
        OnlyOnce(sorted, key, s[i]);
      }
    }
  }
}
