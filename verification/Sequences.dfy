/** Filtering, sorting and byte-wise comparison of sequences. */
module Sequences {

  // ----- Filter -----

  function Filter<T>(s: seq<T>, p: T -> bool): seq<T> {
    if s == [] then [] else if p(s[0]) then [s[0]] + Filter(s[1..], p) else Filter(s[1..], p)
  }

  lemma {:induction false} FilterMembers<T>(s: seq<T>, p: T -> bool)
    ensures forall x :: x in Filter(s, p) ==> x in s && p(x)
    ensures forall x :: x in s && p(x) ==> x in Filter(s, p)
  {
    if s != [] {
      FilterMembers(s[1..], p);
      assert s == [s[0]] + s[1..];
    }
  }

  lemma {:induction false} FilterMultiset<T>(s: seq<T>, p: T -> bool, x: T)
    ensures multiset(Filter(s, p))[x] == if p(x) then multiset(s)[x] else 0
  {
    if s != [] {
      FilterMultiset(s[1..], p, x);
      assert s == [s[0]] + s[1..];
    }
  }

  lemma {:induction false} FilterAppend<T>(a: seq<T>, b: seq<T>, p: T -> bool)
    ensures Filter(a + b, p) == Filter(a, p) + Filter(b, p)
  {
    if a == [] {
      assert a + b == b;
    } else {
      assert (a + b)[0] == a[0] && (a + b)[1..] == a[1..] + b;
      FilterAppend(a[1..], b, p);
    }
  }

  lemma {:induction false} FilterAll<T>(s: seq<T>, p: T -> bool)
    requires forall x :: x in s ==> p(x)
    ensures Filter(s, p) == s
  {
    if s != [] {
      FilterAll(s[1..], p);
    }
  }

  lemma {:induction false} FilterNone<T>(s: seq<T>, p: T -> bool)
    requires forall x :: x in s ==> !p(x)
    ensures Filter(s, p) == []
  {
    if s != [] {
      FilterNone(s[1..], p);
    }
  }

  lemma {:induction false} FilterShrinks<T>(s: seq<T>, p: T -> bool)
    ensures |Filter(s, p)| <= |s|
    ensures (exists x :: x in s && !p(x)) ==> |Filter(s, p)| < |s|
  {
    if s != [] {
      FilterShrinks(s[1..], p);
      assert s == [s[0]] + s[1..];
    }
  }

  /** Predicates that agree on the elements of a sequence filter it alike. */
  lemma {:induction false} FilterCongruent<T>(s: seq<T>, p: T -> bool, q: T -> bool)
    requires forall x :: x in s ==> p(x) == q(x)
    ensures Filter(s, p) == Filter(s, q)
  {
    if s != [] {
      FilterCongruent(s[1..], p, q);
    }
  }

  lemma {:induction false} FilterTwice<T>(s: seq<T>, p: T -> bool, q: T -> bool, both: T -> bool)
    requires forall x :: x in s ==> both(x) == (p(x) && q(x))
    ensures Filter(Filter(s, p), q) == Filter(s, both)
  {
    if s != [] {
      FilterTwice(s[1..], p, q, both);
      if p(s[0]) {
        assert ([s[0]] + Filter(s[1..], p))[1..] == Filter(s[1..], p);
      }
    }
  }

  // ----- Map -----

  function Map<T, U>(s: seq<T>, f: T -> U): (r: seq<U>)
    ensures |r| == |s| && forall i :: 0 <= i < |s| ==> r[i] == f(s[i])
  {
    seq(|s|, i requires 0 <= i < |s| => f(s[i]))
  }

  lemma MapMember<T, U>(s: seq<T>, f: T -> U, y: U)
    ensures y in Map(s, f) <==> exists i :: 0 <= i < |s| && f(s[i]) == y
  {
    if i :| 0 <= i < |s| && f(s[i]) == y {
      assert Map(s, f)[i] == y;
    }
    if y in Map(s, f) {
      var i :| 0 <= i < |Map(s, f)| && Map(s, f)[i] == y;
      assert f(s[i]) == y;
    }
  }

  lemma {:induction false} MapMultiset<T, U>(s: seq<T>, t: seq<T>, f: T -> U)
    requires multiset(s) == multiset(t)
    ensures multiset(Map(s, f)) == multiset(Map(t, f))
  {
    SameElements(s, t);
    if s != [] {
      assert s[0] in t;
      var k :| 0 <= k < |t| && t[k] == s[0];
      MapRemove(t, f, k);
      TailMultiset(s, t, k);
      MapMultiset(s[1..], t[..k] + t[k + 1..], f);
      assert Map(s, f) == [f(s[0])] + Map(s[1..], f);
    }
  }

  lemma TailMultiset<T>(s: seq<T>, t: seq<T>, k: nat)
    requires multiset(s) == multiset(t) && s != [] && k < |t| && t[k] == s[0]
    ensures multiset(s[1..]) == multiset(t[..k] + t[k + 1..])
  {
    assert s == [s[0]] + s[1..];
    assert t == t[..k] + [t[k]] + t[k + 1..];
    assert multiset(s) == multiset{s[0]} + multiset(s[1..]);
    assert multiset(t) == multiset{t[k]} + multiset(t[..k] + t[k + 1..]);
    assert multiset(s[1..]) == multiset(s) - multiset{s[0]};
  }

  /** An element occurs as often as there are places that hold it. */
  lemma {:induction false} CountPlaces<T>(s: seq<T>, x: T, places: set<int>)
    requires forall i :: i in places <==> 0 <= i < |s| && s[i] == x
    ensures multiset(s)[x] == |places|
  {
    if s == [] {
      assert forall i :: i !in places;
      assert |places| == 0;
    } else {
      var n := |s| - 1;
      CountPlaces(s[..n], x, places - {n});
      assert s == s[..n] + [s[n]];
      assert places == (places - {n}) + if s[n] == x then {n} else {};
    }
  }

  lemma MapRemove<T, U>(t: seq<T>, f: T -> U, k: nat)
    requires k < |t|
    ensures multiset(Map(t, f)) == multiset{f(t[k])} + multiset(Map(t[..k] + t[k + 1..], f))
  {
    var m := Map(t, f);
    assert m == m[..k] + [m[k]] + m[k + 1..];
    assert Map(t[..k] + t[k + 1..], f) == m[..k] + m[k + 1..];
  }

  lemma ToFront<T>(s: seq<T>, x: T) returns (rest: seq<T>)
    requires x in s
    ensures multiset([x] + rest) == multiset(s)
  {
    var k :| 0 <= k < |s| && s[k] == x;
    rest := s[..k] + s[k + 1..];
    assert s == s[..k] + [x] + s[k + 1..];
  }

  function Flatten<T>(s: seq<seq<T>>): seq<T> {
    if s == [] then [] else s[0] + Flatten(s[1..])
  }

  lemma {:induction false} FlattenSnoc<T>(s: seq<seq<T>>, x: seq<T>)
    ensures Flatten(s + [x]) == Flatten(s) + x
  {
    if s == [] {
      assert s + [x] == [x];
      assert Flatten([x]) == x + Flatten([]);
    } else {
      assert (s + [x])[1..] == s[1..] + [x];
      FlattenSnoc(s[1..], x);
    }
  }

  lemma {:induction false} FlattenAppend<T>(a: seq<seq<T>>, b: seq<seq<T>>)
    ensures Flatten(a + b) == Flatten(a) + Flatten(b)
  {
    if a == [] {
      assert a + b == b;
    } else {
      assert (a + b)[1..] == a[1..] + b;
      FlattenAppend(a[1..], b);
    }
  }

  /** The elements of a concatenation do not depend on the order of its parts. */
  lemma {:induction false} FlattenMultiset<T>(s: seq<seq<T>>, t: seq<seq<T>>)
    requires multiset(s) == multiset(t)
    ensures multiset(Flatten(s)) == multiset(Flatten(t))
  {
    SameElements(s, t);
    if s != [] {
      assert s[0] in t;
      var k :| 0 <= k < |t| && t[k] == s[0];
      TailMultiset(s, t, k);
      FlattenMultiset(s[1..], t[..k] + t[k + 1..]);
      FlattenRemove(t, k);
    }
  }

  lemma FlattenRemove<T>(t: seq<seq<T>>, k: nat)
    requires k < |t|
    ensures multiset(Flatten(t)) == multiset(t[k]) + multiset(Flatten(t[..k] + t[k + 1..]))
  {
    hide *;
    assert t == t[..k] + ([t[k]] + t[k + 1..]);
    FlattenAppend(t[..k], [t[k]] + t[k + 1..]);
    FlattenCons(t[k], t[k + 1..]);
    FlattenAppend(t[..k], t[k + 1..]);
  }

  lemma FlattenCons<T>(x: seq<T>, s: seq<seq<T>>)
    ensures Flatten([x] + s) == x + Flatten(s)
  {
    assert ([x] + s)[1..] == s;
  }

  /** A part that commutes with those before it may as well come first. */
  lemma {:induction false} CommuteToFront<T>(parts: seq<seq<T>>, k: nat)
    requires k < |parts| && forall i :: 0 <= i < k ==> parts[i] + parts[k] == parts[k] + parts[i]
    ensures Flatten(parts) == parts[k] + Flatten(parts[..k] + parts[k + 1..])
  {
    if k == 0 {
      assert parts[..0] + parts[1..] == parts[1..];
    } else {
      var rest := parts[1..k] + parts[k + 1..];
      assert parts[1..][..k - 1] + parts[1..][k..] == rest;
      CommuteToFront(parts[1..], k - 1);
      assert parts[..k] + parts[k + 1..] == [parts[0]] + rest;
      assert parts[0] + (parts[k] + Flatten(rest)) == (parts[0] + parts[k]) + Flatten(rest);
      assert parts[k] + (parts[0] + Flatten(rest)) == (parts[k] + parts[0]) + Flatten(rest);
    }
  }

  // ----- Sorting.  `Sort` stands for the standard library's sort: some sorted permutation. -----

  ghost predicate TotalPreorder<T(!new)>(le: (T, T) -> bool) {
    && (forall x, y :: le(x, y) || le(y, x))
    && (forall x, y, z :: le(x, y) && le(y, z) ==> le(x, z))
  }

  ghost predicate SortedBy<T>(s: seq<T>, le: (T, T) -> bool) {
    forall i, j :: 0 <= i < j < |s| ==> le(s[i], s[j])
  }

  function Insert<T>(x: T, s: seq<T>, le: (T, T) -> bool): seq<T> {
    if s == [] || le(x, s[0]) then [x] + s else [s[0]] + Insert(x, s[1..], le)
  }

  function Sort<T>(s: seq<T>, le: (T, T) -> bool): seq<T> {
    if s == [] then [] else Insert(s[0], Sort(s[1..], le), le)
  }

  lemma {:induction false} InsertMultiset<T>(x: T, s: seq<T>, le: (T, T) -> bool)
    ensures multiset(Insert(x, s, le)) == multiset{x} + multiset(s)
  {
    if s == [] || le(x, s[0]) {
    } else {
      InsertMultiset(x, s[1..], le);
      assert s == [s[0]] + s[1..];
    }
  }

  lemma {:induction false} SortMultiset<T>(s: seq<T>, le: (T, T) -> bool)
    ensures multiset(Sort(s, le)) == multiset(s)
  {
    if s != [] {
      SortMultiset(s[1..], le);
      InsertMultiset(s[0], Sort(s[1..], le), le);
      assert s == [s[0]] + s[1..];
    }
  }

  lemma SameElements<T>(s: seq<T>, t: seq<T>)
    requires multiset(s) == multiset(t)
    ensures |s| == |t|
    ensures forall x :: x in s ==> x in t
    ensures forall x :: x in t ==> x in s
  {
    assert |s| == |multiset(s)| == |multiset(t)| == |t|;
    forall x | x in s ensures x in t {
      assert x in multiset(t);
    }
    forall x | x in t ensures x in s {
      assert x in multiset(s);
    }
  }

  /** No two elements have the same key. */
  ghost predicate DistinctBy<T(!new), U(!new)>(s: seq<T>, f: T -> U) {
    forall i, j :: 0 <= i < j < |s| ==> f(s[i]) != f(s[j])
  }

  /** Keys that differ in one arrangement differ in every other. */
  lemma {:induction false} DistinctByPermutation<T(!new), U(!new)>(s: seq<T>, t: seq<T>, f: T -> U)
    requires multiset(s) == multiset(t) && DistinctBy(s, f)
    ensures DistinctBy(t, f)
  {
    SameElements(s, t);
    if s != [] {
      assert s[0] in t;
      var k :| 0 <= k < |t| && t[k] == s[0];
      var rest := t[..k] + t[k + 1..];
      TailMultiset(s, t, k);
      SameElements(s[1..], rest);
      DistinctByPermutation(s[1..], rest, f);
      forall i | 0 <= i < |rest| ensures f(rest[i]) != f(t[k]) {
        assert rest[i] in s[1..];
      }
      DistinctByInserted(t, k, rest, f);
    }
  }

  lemma DistinctByInserted<T(!new), U(!new)>(t: seq<T>, k: nat, rest: seq<T>, f: T -> U)
    requires k < |t| && rest == t[..k] + t[k + 1..] && DistinctBy(rest, f)
    requires forall i :: 0 <= i < |rest| ==> f(rest[i]) != f(t[k])
    ensures DistinctBy(t, f)
  {
    forall i, j | 0 <= i < j < |t| ensures f(t[i]) != f(t[j]) {
      if i < k {
        assert t[i] == rest[i];
      } else if i > k {
        assert t[i] == rest[i - 1];
      }
      if j < k {
        assert t[j] == rest[j];
      } else if j > k {
        assert t[j] == rest[j - 1];
      }
    }
  }

  lemma {:induction false} InsertSorted<T(!new)>(x: T, s: seq<T>, le: (T, T) -> bool)
    requires TotalPreorder(le) && SortedBy(s, le)
    ensures SortedBy(Insert(x, s, le), le)
  {
    if s == [] || le(x, s[0]) {
    } else {
      var rest := Insert(x, s[1..], le);
      InsertSorted(x, s[1..], le);
      InsertMultiset(x, s[1..], le);
      forall j | 0 <= j < |rest| ensures le(s[0], rest[j]) {
        assert rest[j] in multiset(rest);
        assert rest[j] == x || rest[j] in s[1..];
      }
    }
  }

  lemma {:induction false} SortSorted<T(!new)>(s: seq<T>, le: (T, T) -> bool)
    requires TotalPreorder(le)
    ensures SortedBy(Sort(s, le), le)
  {
    if s != [] {
      SortSorted(s[1..], le);
      InsertSorted(s[0], Sort(s[1..], le), le);
    }
  }

  /** Two elements the order does not tell apart end up side by side, in the order in which
      they were given. */
  lemma {:induction false} InsertBoth<T(!new)>(a: T, b: T, s: seq<T>, le: (T, T) -> bool) returns (front: seq<T>, back: seq<T>)
    requires TotalPreorder(le) && le(a, b) && le(b, a)
    ensures s == front + back
    ensures Insert(a, Insert(b, s, le), le) == front + [a, b] + back
    ensures Insert(b, Insert(a, s, le), le) == front + [b, a] + back
  {
    if s == [] || le(a, s[0]) {
      assert s != [] ==> le(b, s[0]);
      front, back := [], s;
      assert [a] + ([b] + s) == [a, b] + s && [b] + ([a] + s) == [b, a] + s;
    } else {
      assert !le(b, s[0]);
      var f, g := InsertBoth(a, b, s[1..], le);
      front, back := [s[0]] + f, g;
      assert ([s[0]] + Insert(b, s[1..], le))[1..] == Insert(b, s[1..], le);
      assert ([s[0]] + Insert(a, s[1..], le))[1..] == Insert(a, s[1..], le);
      assert [s[0]] + (f + [a, b] + g) == front + [a, b] + back;
      assert [s[0]] + (f + [b, a] + g) == front + [b, a] + back;
    }
  }

  lemma SortPair<T>(a: T, b: T, rest: seq<T>, le: (T, T) -> bool)
    ensures Sort([a, b] + rest, le) == Insert(a, Insert(b, Sort(rest, le), le), le)
  {
    assert ([a, b] + rest)[1..] == [b] + rest && ([b] + rest)[1..] == rest;
    assert Sort([b] + rest, le) == Insert(b, Sort(rest, le), le);
  }

  ghost predicate TellsApart<T(!new)>(s: seq<T>, le: (T, T) -> bool) {
    (forall x :: x in s ==> le(x, x)) && forall x, y :: x in s && y in s && le(x, y) && le(y, x) ==> x == y
  }

  lemma TailSorted<T(!new)>(s: seq<T>, le: (T, T) -> bool)
    requires SortedBy(s, le) && s != []
    ensures SortedBy(s[1..], le) && (TellsApart(s, le) ==> TellsApart(s[1..], le))
  {
    assert forall x :: x in s[1..] ==> x in s;
  }

  /** Two sorted arrangements of the same elements are equal when the order tells those
      elements apart: whatever the sorting algorithm, its result is the same. */
  lemma {:induction false} SortedUnique<T(!new)>(s: seq<T>, t: seq<T>, le: (T, T) -> bool)
    requires SortedBy(s, le) && SortedBy(t, le) && TellsApart(s, le)
    requires multiset(s) == multiset(t)
    ensures s == t
  {
    hide *;
    if s == [] {
      SameElements(s, t);
    } else {
      SameHead(s, t, le);
      SameTails(s, t);
      TailSorted(s, le);
      TailSorted(t, le);
      SortedUnique(s[1..], t[1..], le);
      FromTails(s, t);
    }
  }

  lemma SameTails<T>(s: seq<T>, t: seq<T>)
    requires multiset(s) == multiset(t) && s != [] && t != [] && s[0] == t[0]
    ensures multiset(s[1..]) == multiset(t[1..])
  {
    TailMultiset(s, t, 0);
    assert t[..0] + t[1..] == t[1..];
  }

  lemma FromTails<T>(s: seq<T>, t: seq<T>)
    requires s != [] && t != [] && s[0] == t[0] && s[1..] == t[1..]
    ensures s == t
  {
    assert s == [s[0]] + s[1..] && t == [t[0]] + t[1..];
  }

  lemma SameHead<T(!new)>(s: seq<T>, t: seq<T>, le: (T, T) -> bool)
    requires s != [] && SortedBy(s, le) && SortedBy(t, le) && TellsApart(s, le)
    requires multiset(s) == multiset(t)
    ensures t != [] && s[0] == t[0]
  {
    SameElements(s, t);
    assert s[0] in t && t[0] in s;
    var i :| 0 <= i < |s| && s[i] == t[0];
    var j :| 0 <= j < |t| && t[j] == s[0];
    assert le(s[0], s[i]) && le(t[0], t[j]);
  }

  lemma {:induction false} FilterInsert<T(!new)>(x: T, s: seq<T>, le: (T, T) -> bool, p: T -> bool)
    requires TotalPreorder(le) && SortedBy(s, le)
    ensures Filter(Insert(x, s, le), p) == if p(x) then Insert(x, Filter(s, p), le) else Filter(s, p)
  {
    if s == [] || le(x, s[0]) {
      assert ([x] + s)[1..] == s;
      FilterMembers(s, p);
      var f := Filter(s, p);
      if f != [] {
        assert f[0] in s;
        var i :| 0 <= i < |s| && s[i] == f[0];
        assert le(x, f[0]);
      }
    } else {
      FilterInsert(x, s[1..], le, p);
      assert ([s[0]] + Insert(x, s[1..], le))[1..] == Insert(x, s[1..], le);
      if p(s[0]) {
        assert ([s[0]] + Filter(s[1..], p))[1..] == Filter(s[1..], p);
      }
    }
  }

  lemma {:induction false} FilterSorted<T(!new)>(s: seq<T>, le: (T, T) -> bool, p: T -> bool)
    requires SortedBy(s, le)
    ensures SortedBy(Filter(s, p), le)
  {
    if s != [] {
      FilterSorted(s[1..], le, p);
      FilterMembers(s[1..], p);
      var rest := Filter(s[1..], p);
      forall j | 0 <= j < |rest| ensures le(s[0], rest[j]) {
        assert rest[j] in s[1..];
        var i :| 0 <= i < |s[1..]| && s[1..][i] == rest[j];
        assert s[i + 1] == rest[j];
      }
    }
  }

  /** Filtering commutes with sorting. */
  lemma {:induction false} FilterSort<T(!new)>(s: seq<T>, le: (T, T) -> bool, p: T -> bool)
    requires TotalPreorder(le)
    ensures Filter(Sort(s, le), p) == Sort(Filter(s, p), le)
  {
    if s != [] {
      FilterSort(s[1..], le, p);
      SortSorted(s[1..], le);
      FilterInsert(s[0], Sort(s[1..], le), le, p);
      if p(s[0]) {
        assert ([s[0]] + Filter(s[1..], p))[1..] == Filter(s[1..], p);
      }
    }
  }

  // ----- Byte strings.  A character stands for one byte of a Go string. -----

  predicate LexLe(a: string, b: string) {
    a == [] || (b != [] && (a[0] < b[0] || (a[0] == b[0] && LexLe(a[1..], b[1..]))))
  }

  /** The order of `bytes.Compare`: a prefix comes first, and otherwise the first byte that
      differs decides. */
  ghost predicate BytesOrdered(a: string, b: string) {
    a <= b || exists k :: 0 <= k < |a| && k < |b| && a[..k] == b[..k] && a[k] < b[k]
  }

  lemma {:induction false} LexLeMeaning(a: string, b: string)
    ensures LexLe(a, b) <==> a <= b || exists k :: 0 <= k < |a| && k < |b| && a[..k] == b[..k] && a[k] < b[k]
    ensures LexLe(a, b) <==> BytesOrdered(a, b)
  {
    if a != [] && b != [] {
      LexLeMeaning(a[1..], b[1..]);
      assert a == [a[0]] + a[1..] && b == [b[0]] + b[1..];
      if a[0] < b[0] {
        assert a[..0] == b[..0];
      } else if a[0] == b[0] {
        OrderedTails(a, b);
      }
      if !(a <= b) && BytesOrdered(a, b) {
        var k :| 0 <= k < |a| && k < |b| && a[..k] == b[..k] && a[k] < b[k];
        assert k > 0 ==> a[..k][0] == b[..k][0];
      }
    }
  }

  lemma OrderedTails(a: string, b: string)
    requires a != [] && b != [] && a[0] == b[0]
    ensures BytesOrdered(a, b) <==> BytesOrdered(a[1..], b[1..])
  {
    assert a == [a[0]] + a[1..] && b == [b[0]] + b[1..];
    assert a <= b <==> a[1..] <= b[1..];
    if k :| 0 <= k < |a| && k < |b| && a[..k] == b[..k] && a[k] < b[k] {
      assert k > 0;
      assert a[1..][..k - 1] == a[..k][1..] == b[..k][1..] == b[1..][..k - 1];
      assert a[1..][k - 1] < b[1..][k - 1];
    }
    if k :| 0 <= k < |a[1..]| && k < |b[1..]| && a[1..][..k] == b[1..][..k] && a[1..][k] < b[1..][k] {
      assert a[..k + 1] == [a[0]] + a[1..][..k] && b[..k + 1] == [b[0]] + b[1..][..k];
      assert a[k + 1] < b[k + 1];
    }
  }

  lemma {:induction false} LexTotal(a: string, b: string)
    ensures LexLe(a, b) || LexLe(b, a)
  {
    if a != [] && b != [] {
      LexTotal(a[1..], b[1..]);
    }
  }

  lemma {:induction false} LexTransitive(a: string, b: string, c: string)
    requires LexLe(a, b) && LexLe(b, c)
    ensures LexLe(a, c)
  {
    if a != [] && a[0] == b[0] == c[0] {
      LexTransitive(a[1..], b[1..], c[1..]);
    }
  }

  lemma {:induction false} LexAntisymmetric(a: string, b: string)
    requires LexLe(a, b) && LexLe(b, a)
    ensures a == b
  {
    if a != [] {
      LexAntisymmetric(a[1..], b[1..]);
      assert a == [a[0]] + a[1..] && b == [b[0]] + b[1..];
    }
  }

  /** Comparing through a byte-string key is a total preorder. */
  lemma KeyOrder<T(!new)>(key: T -> string, le: (T, T) -> bool)
    requires forall x, y :: le(x, y) == LexLe(key(x), key(y))
    ensures TotalPreorder(le)
  {
    forall x, y ensures le(x, y) || le(y, x) {
      LexTotal(key(x), key(y));
    }
    forall x, y, z | le(x, y) && le(y, z) ensures le(x, z) {
      LexTransitive(key(x), key(y), key(z));
    }
  }
}
