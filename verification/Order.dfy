// The byte-wise string order the repository sorts by, and the sorting routine
// (Go's sort.Slice and sort.Strings) that every component relies on.
module Order {

  /** Strict lexicographic order, as Go compares strings. */
  predicate Less(a: string, b: string) {
    b != [] && (a == [] || a[0] < b[0] || (a[0] == b[0] && Less(a[1..], b[1..])))
  }

  lemma {:induction false} LessIrreflexive(a: string)
    ensures !Less(a, a)
  {
    if a != [] { LessIrreflexive(a[1..]); }
  }

  lemma {:induction false} LessTransitive(a: string, b: string, c: string)
    requires Less(a, b) && Less(b, c)
    ensures Less(a, c)
  {
    if a != [] && a[0] == b[0] == c[0] { LessTransitive(a[1..], b[1..], c[1..]); }
  }

  lemma {:induction false} LessTotal(a: string, b: string)
    ensures a == b || Less(a, b) || Less(b, a)
  {
    if a != [] && b != [] && a[0] == b[0] {
      LessTotal(a[1..], b[1..]);
      assert a == [a[0]] + a[1..] && b == [b[0]] + b[1..];
    }
  }

  /** A proper prefix sorts first: a directory comes before everything below it. */
  lemma {:induction false} PrefixIsLess(a: string, b: string)
    requires |a| < |b| && b[..|a|] == a
    ensures Less(a, b)
  {
    if a != [] {
      assert b[1..][..|a| - 1] == b[..|a|][1..];
      PrefixIsLess(a[1..], b[1..]);
    }
  }

  /** A strict weak order, the contract of a sort.Slice comparison. */
  ghost predicate Ordering<T(!new)>(less: (T, T) -> bool) {
    && (forall x, y :: less(x, y) ==> !less(y, x))
    && (forall x, y, z :: !less(y, x) && !less(z, y) ==> !less(z, x))
  }

  ghost predicate Sorted<T>(s: seq<T>, less: (T, T) -> bool) {
    forall i, j :: 0 <= i < j < |s| ==> !less(s[j], s[i])
  }

  lemma SortedCons<T(!new)>(h: T, t: seq<T>, less: (T, T) -> bool)
    requires Sorted(t, less)
    requires forall y :: y in t ==> !less(y, h)
    ensures Sorted([h] + t, less)
  {
    var s := [h] + t;
    forall i, j | 0 <= i < j < |s| ensures !less(s[j], s[i]) {
      assert s[j] == t[j - 1];
    }
  }

  function Insert<T(!new)>(x: T, s: seq<T>, less: (T, T) -> bool): (r: seq<T>)
    ensures multiset(r) == multiset(s) + multiset{x}
    ensures forall y :: y in r ==> y == x || y in s
  {
    if s == [] then [x]
    else if less(s[0], x) then
      assert s == [s[0]] + s[1..];
      [s[0]] + Insert(x, s[1..], less)
    else [x] + s
  }

  lemma {:induction false} InsertSorted<T(!new)>(x: T, s: seq<T>, less: (T, T) -> bool)
    requires Ordering(less) && Sorted(s, less)
    ensures Sorted(Insert(x, s, less), less)
  {
    if s != [] {
      if less(s[0], x) {
        InsertSorted(x, s[1..], less);
        SortedCons(s[0], Insert(x, s[1..], less), less);
      } else {
        forall y | y in s ensures !less(y, x) {
          var j :| 0 <= j < |s| && s[j] == y;
          if j > 0 { assert !less(s[j], s[0]); }
        }
        SortedCons(x, s, less);
      }
    }
  }

  /** Go's sort.Slice: the same elements, in order. */
  function Sort<T(!new)>(s: seq<T>, less: (T, T) -> bool): (r: seq<T>)
    requires Ordering(less)
    ensures Sorted(r, less) && multiset(r) == multiset(s)
  {
    if s == [] then []
    else
      assert s == [s[0]] + s[1..];
      var rest := Sort(s[1..], less);
      InsertSorted(s[0], rest, less);
      Insert(s[0], rest, less)
  }

  lemma SortMembers<T(!new)>(s: seq<T>, less: (T, T) -> bool)
    requires Ordering(less)
    ensures forall x :: x in Sort(s, less) <==> x in s
    ensures |Sort(s, less)| == |s|
  {
    var r := Sort(s, less);
    forall x ensures x in r <==> x in s {
      assert x in r <==> x in multiset(r);
      assert x in s <==> x in multiset(s);
    }
    assert |multiset(r)| == |r| && |multiset(s)| == |s|;
  }

  lemma LessIsOrdering()
    ensures forall x, y :: Less(x, y) ==> !Less(y, x)
    ensures forall x, y, z :: !Less(y, x) && !Less(z, y) ==> !Less(z, x)
  {
    forall x, y | Less(x, y) ensures !Less(y, x) {
      if Less(y, x) { LessTransitive(x, y, x); LessIrreflexive(x); }
    }
    forall x, y, z | !Less(y, x) && !Less(z, y) ensures !Less(z, x) {
      LessTotal(x, y);
      LessTotal(y, z);
      if Less(z, x) && x != y && y != z {
        LessTransitive(x, y, z);
        LessTransitive(x, z, x);
        LessIrreflexive(x);
      }
    }
  }

  const ByString: (string, string) -> bool := (a, b) => Less(a, b)

  /** sort.Strings. */
  function SortStrings(s: seq<string>): (r: seq<string>)
    ensures multiset(r) == multiset(s)
    ensures forall i, j :: 0 <= i < j < |r| ==> !Less(r[j], r[i])
    ensures forall x :: x in r <==> x in s
  {
    LessIsOrdering();
    assert Ordering(ByString);
    SortMembers(s, ByString);
    var r := Sort(s, ByString);
    assert forall i, j :: 0 <= i < j < |r| ==> !ByString(r[j], r[i]);
    r
  }

  /** Sorting values with distinct keys puts the keys in strictly increasing order. */
  lemma DistinctKeysIncrease<T(!new)>(s: seq<T>, r: seq<T>, key: T -> string)
    requires forall i, j :: 0 <= i < j < |s| ==> key(s[i]) != key(s[j])
    requires multiset(r) == multiset(s)
    requires forall i, j :: 0 <= i < j < |r| ==> !Less(key(r[j]), key(r[i]))
    ensures forall i, j :: 0 <= i < j < |r| ==> Less(key(r[i]), key(r[j]))
  {
    forall i, j | 0 <= i < j < |r| ensures Less(key(r[i]), key(r[j])) {
      LessTotal(key(r[i]), key(r[j]));
      if key(r[i]) == key(r[j]) {
        assert r[i] in multiset(s) && r[j] in multiset(s);
        var a :| 0 <= a < |s| && s[a] == r[i];
        var b :| 0 <= b < |s| && s[b] == r[j];
        assert a == b;
        Twice(r, i, j);
        Once(s, a);
      }
    }
  }

  lemma Twice<T>(r: seq<T>, i: nat, j: nat)
    requires i < j < |r| && r[i] == r[j]
    ensures multiset(r)[r[i]] >= 2
  {
    assert r == r[..i] + [r[i]] + r[i + 1..j] + [r[j]] + r[j + 1..];
  }

  lemma Once<T>(s: seq<T>, a: nat)
    requires a < |s| && forall b :: 0 <= b < |s| && b != a ==> s[b] != s[a]
    ensures multiset(s)[s[a]] == 1
  {
    assert s == s[..a] + [s[a]] + s[a + 1..];
    assert s[a] !in s[..a] && s[a] !in s[a + 1..];
    assert multiset(s[..a])[s[a]] == 0 && multiset(s[a + 1..])[s[a]] == 0;
  }

  lemma Nonempty(t: seq<string>)
    ensures t == [] || exists x :: x in t
  {
    if t != [] { assert t[0] in t; }
  }

  /** A strictly increasing sequence of strings is determined by its elements. */
  ghost predicate Increasing(s: seq<string>) {
    forall i, j :: 0 <= i < j < |s| ==> Less(s[i], s[j])
  }

  lemma {:induction false} IncreasingIsUnique(s: seq<string>, t: seq<string>)
    requires Increasing(s) && Increasing(t)
    requires forall x :: x in s <==> x in t
    ensures s == t
  {
    if s == [] {
      Nonempty(t);
    } else {
      assert s[0] in t;
      assert t[0] in s;
      var i :| 0 <= i < |t| && t[i] == s[0];
      var j :| 0 <= j < |s| && s[j] == t[0];
      if i != 0 && j != 0 { LessTransitive(s[0], t[0], s[0]); LessIrreflexive(s[0]); }
      assert s[0] == t[0];
      LessIrreflexive(s[0]);
      forall x ensures x in s[1..] <==> x in t[1..] {
        if x in s[1..] { var k :| 0 < k < |s| && s[k] == x; assert Less(s[0], x); assert x in t; }
        if x in t[1..] { var k :| 0 < k < |t| && t[k] == x; assert Less(t[0], x); assert x in s; }
      }
      IncreasingIsUnique(s[1..], t[1..]);
      assert s == [s[0]] + s[1..] && t == [t[0]] + t[1..];
    }
  }
}
