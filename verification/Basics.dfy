/** Small shared vocabulary: optional values, string order, stable sorting and distinctness. */
module Basics {

  datatype Option<+T> = None | Some(value: T)

  datatype Result<+T, +E> = Ok(value: T) | Err(error: E)

  function Min(x: int, y: int): int { if x <= y then x else y }

  function Max(x: int, y: int): int { if x >= y then x else y }

  /** Lexicographic order on characters, which for ASCII identifiers is the order of their UTF-8 bytes. */
  predicate StringLe(a: string, b: string) {
    a == "" || (b != "" && (a[0] < b[0] || (a[0] == b[0] && StringLe(a[1..], b[1..]))))
  }

  lemma {:induction false} StringLeTotal(a: string, b: string)
    ensures StringLe(a, b) || StringLe(b, a)
  {
    if a != "" && b != "" && a[0] == b[0] {
      StringLeTotal(a[1..], b[1..]);
    }
  }

  lemma {:induction false} StringLeAntisymmetric(a: string, b: string)
    requires StringLe(a, b) && StringLe(b, a)
    ensures a == b
  {
    if a != "" && b != "" {
      StringLeAntisymmetric(a[1..], b[1..]);
      assert a == [a[0]] + a[1..] && b == [b[0]] + b[1..];
    }
  }

  lemma {:induction false} StringLeTransitive(a: string, b: string, c: string)
    requires StringLe(a, b) && StringLe(b, c)
    ensures StringLe(a, c)
  {
    if a != "" && a[0] == b[0] && b[0] == c[0] {
      StringLeTransitive(a[1..], b[1..], c[1..]);
    }
  }

  /** The first difference decides, and a proper beginning comes before the whole. */
  predicate Precedes(a: string, b: string) {
    exists k: nat :: k <= |a| && k < |b| && a[..k] == b[..k] && (k == |a| || a[k] < b[k])
  }

  lemma {:induction false} PrecedesTail(a: string, b: string, k: nat)
    requires a != "" && b != "" && a[0] == b[0] && k <= |a| - 1 && k < |b| - 1
    ensures a[..k + 1] == b[..k + 1] <==> a[1..][..k] == b[1..][..k]
    ensures a[1..][..k] == a[..k + 1][1..] && b[1..][..k] == b[..k + 1][1..]
  {
    assert a[1..][..k] == a[..k + 1][1..] && b[1..][..k] == b[..k + 1][1..];
    assert a[..k + 1] == [a[0]] + a[1..][..k] && b[..k + 1] == [b[0]] + b[1..][..k];
  }

  lemma {:induction false} PrecedesSame(a: string, b: string)
    requires a != "" && b != "" && a[0] == b[0]
    ensures Precedes(a, b) <==> Precedes(a[1..], b[1..])
  {
    if Precedes(a, b) {
      var k: nat :| k <= |a| && k < |b| && a[..k] == b[..k] && (k == |a| || a[k] < b[k]);
      assert k > 0;
      PrecedesTail(a, b, k - 1);
    }
    if Precedes(a[1..], b[1..]) {
      var k: nat :| k <= |a[1..]| && k < |b[1..]| && a[1..][..k] == b[1..][..k] && (k == |a[1..]| || a[1..][k] < b[1..][k]);
      PrecedesTail(a, b, k);
      assert a[..k + 1] == b[..k + 1];
    }
  }

  lemma {:induction false} PrecedesFirst(a: string, b: string)
    requires b != "" && (a == "" || a[0] != b[0])
    ensures Precedes(a, b) <==> a == "" || a[0] < b[0]
  {
    if a == "" || a[0] < b[0] {
      assert a[..0] == b[..0];
    }
    if Precedes(a, b) && a != "" {
      var k: nat :| k <= |a| && k < |b| && a[..k] == b[..k] && (k == |a| || a[k] < b[k]);
      if k > 0 { assert a[..k][0] == b[..k][0]; }
    }
  }

  lemma {:induction false} StringLeExact(a: string, b: string)
    ensures StringLe(a, b) <==> a == b || Precedes(a, b)
  {
    hide Precedes;
    if a != "" && b != "" && a[0] == b[0] {
      StringLeExact(a[1..], b[1..]);
      PrecedesSame(a, b);
      assert a == [a[0]] + a[1..] && b == [b[0]] + b[1..];
    } else if b != "" {
      PrecedesFirst(a, b);
    } else {
      NothingPrecedes(a);
    }
  }

  lemma {:induction false} NothingPrecedes(a: string)
    ensures !Precedes(a, "")
  {
  }

  // ---------------------------------------------------------------- sorting

  ghost predicate TotalPreorder<T(!new)>(le: (T, T) -> bool) {
    && (forall x, y :: le(x, y) || le(y, x))
    && (forall x, y, z :: le(x, y) && le(y, z) ==> le(x, z))
  }

  predicate IsSorted<T>(s: seq<T>, le: (T, T) -> bool) {
    forall i, j :: 0 <= i < j < |s| ==> le(s[i], s[j])
  }

  /** Where a stable insertion puts `x`: after every element that is not above it. */
  function InsertPos<T>(x: T, s: seq<T>, le: (T, T) -> bool): (p: nat)
    ensures p <= |s|
    ensures p < |s| ==> !le(s[p], x)
    ensures forall i :: 0 <= i < p ==> le(s[i], x)
  {
    if s == [] || !le(s[0], x) then 0
    else
      var q := InsertPos(x, s[1..], le);
      assert forall i :: 0 < i < 1 + q ==> s[i] == s[1..][i - 1];
      1 + q
  }

  function Insert<T>(x: T, s: seq<T>, le: (T, T) -> bool): seq<T> {
    var p := InsertPos(x, s, le);
    s[..p] + [x] + s[p..]
  }

  /** A stable sort: equal elements keep their order. */
  function SortBy<T>(s: seq<T>, le: (T, T) -> bool): (r: seq<T>)
    ensures multiset(r) == multiset(s)
    ensures |r| == |s|
  {
    if s == [] then []
    else
      var r0 := SortBy(s[..|s| - 1], le);
      var x := s[|s| - 1];
      var p := InsertPos(x, r0, le);
      assert s == s[..|s| - 1] + [x];
      assert r0 == r0[..p] + r0[p..];
      Insert(x, r0, le)
  }

  lemma {:induction false} InsertSorted<T(!new)>(x: T, s: seq<T>, le: (T, T) -> bool)
    requires TotalPreorder(le) && IsSorted(s, le)
    ensures IsSorted(Insert(x, s, le), le)
  {
    var p := InsertPos(x, s, le);
    var r := Insert(x, s, le);
    forall i, j | 0 <= i < j < |r|
      ensures le(r[i], r[j])
    {
      if i == p {
        assert le(x, s[p]);
        assert r[j] == s[j - 1];
        if j - 1 > p { assert le(s[p], s[j - 1]); }
      } else if j == p {
        assert r[i] == s[i];
      } else {
        var a := if i < p then i else i - 1;
        var b := if j < p then j else j - 1;
        assert r[i] == s[a] && r[j] == s[b];
      }
    }
  }

  lemma {:induction false} SortBySorted<T(!new)>(s: seq<T>, le: (T, T) -> bool)
    requires TotalPreorder(le)
    ensures IsSorted(SortBy(s, le), le)
  {
    if s != [] {
      SortBySorted(s[..|s| - 1], le);
      InsertSorted(s[|s| - 1], SortBy(s[..|s| - 1], le), le);
    }
  }

  lemma {:induction false} MultisetMember<T>(a: seq<T>, b: seq<T>)
    requires multiset(a) == multiset(b)
    ensures forall x :: x in a <==> x in b
    ensures |a| == |b|
  {
    assert |multiset(a)| == |a| && |multiset(b)| == |b|;
    forall x
      ensures x in a <==> x in b
    {
      assert x in a <==> x in multiset(a);
      assert x in b <==> x in multiset(b);
    }
  }

  ghost predicate TiesAreEqual<T(!new)>(a: seq<T>, le: (T, T) -> bool) {
    forall x, y {:trigger le(x, y), le(y, x)} :: x in a && y in a && le(x, y) && le(y, x) ==> x == y
  }

  lemma {:induction false} TiesTail<T(!new)>(a: seq<T>, le: (T, T) -> bool)
    requires a != [] && TiesAreEqual(a, le)
    ensures TiesAreEqual(a[1..], le)
  {
    assert forall x :: x in a[1..] ==> x in a;
  }

  lemma {:induction false} SortedHeads<T(!new)>(a: seq<T>, b: seq<T>, le: (T, T) -> bool)
    requires IsSorted(a, le) && IsSorted(b, le)
    requires a != [] && b != [] && a[0] in b && b[0] in a
    requires TiesAreEqual(a, le)
    ensures a[0] == b[0]
  {
    var i :| 0 <= i < |a| && a[i] == b[0];
    var j :| 0 <= j < |b| && b[j] == a[0];
    if i != 0 && j != 0 {
      assert le(a[0], a[i]) && le(b[0], b[j]);
    }
  }

  lemma {:induction false} MultisetTail<T>(a: seq<T>)
    requires a != []
    ensures multiset(a[1..]) == multiset(a) - multiset{a[0]}
  {
    assert a == [a[0]] + a[1..];
  }

  lemma {:induction false} SortedTail<T>(a: seq<T>, le: (T, T) -> bool)
    requires a != [] && IsSorted(a, le)
    ensures IsSorted(a[1..], le)
  {
    var t := a[1..];
    forall i, j | 0 <= i < j < |t|
      ensures le(t[i], t[j])
    {
      assert t[i] == a[i + 1] && t[j] == a[j + 1];
    }
  }

  /** Two sorted arrangements of the same elements agree, when ties are equal elements. */
  lemma {:induction false} SortedUnique<T(!new)>(a: seq<T>, b: seq<T>, le: (T, T) -> bool)
    requires IsSorted(a, le) && IsSorted(b, le)
    requires multiset(a) == multiset(b)
    requires TiesAreEqual(a, le)
    ensures a == b
  {
    hide IsSorted, TiesAreEqual;
    if a == [] {
      MultisetMember(a, b);
    } else {
      assert a[0] in b && b[0] in a && |a| == |b| by { MultisetMember(a, b); }
      SortedHeads(a, b, le);
      MultisetTail(a);
      MultisetTail(b);
      SortedTail(a, le);
      SortedTail(b, le);
      TiesTail(a, le);
      SortedUnique(a[1..], b[1..], le);
      assert a == [a[0]] + a[1..] && b == [b[0]] + b[1..];
    }
  }

  /** A sequence that is already in order is left alone. */
  lemma {:induction false} SortByFixed<T(!new)>(s: seq<T>, le: (T, T) -> bool)
    requires IsSorted(s, le)
    ensures SortBy(s, le) == s
  {
    if s != [] {
      var init, x := s[..|s| - 1], s[|s| - 1];
      SortByFixed(init, le);
      InsertLast(init, x, le);
      assert s == init + [x];
    }
  }

  lemma {:induction false} InsertLast<T(!new)>(s: seq<T>, x: T, le: (T, T) -> bool)
    requires forall i :: 0 <= i < |s| ==> le(s[i], x)
    ensures Insert(x, s, le) == s + [x]
  {
    var p := InsertPos(x, s, le);
    assert p == |s|;
  }

  // ---------------------------------------------------------------- distinctness

  predicate Distinct<T(==)>(s: seq<T>) {
    forall i, j :: 0 <= i < j < |s| ==> s[i] != s[j]
  }

  lemma {:induction false} SubsetCardinality<T>(a: set<T>, b: set<T>)
    requires a <= b
    ensures |a| <= |b|
  {
    assert b == a + (b - a);
  }

  lemma {:induction false} DistinctCardinality<T>(s: seq<T>)
    requires Distinct(s)
    ensures |set x | x in s| == |s|
  {
    if s != [] {
      var init, x := s[..|s| - 1], s[|s| - 1];
      DistinctCardinality(init);
      assert (set y | y in s) == (set y | y in init) + {x};
      assert x !in init;
    }
  }

  lemma {:induction false} CountAtMostOne<T>(s: seq<T>, x: T)
    requires Distinct(s)
    ensures multiset(s)[x] == if x in s then 1 else 0
  {
    if s != [] {
      var init, last := s[..|s| - 1], s[|s| - 1];
      CountAtMostOne(init, x);
      assert s == init + [last];
      assert last !in init;
    }
  }

  lemma {:induction false} CountTwice<T>(s: seq<T>, i: nat, j: nat)
    requires i < j < |s| && s[i] == s[j]
    ensures multiset(s)[s[i]] >= 2
  {
    assert s == s[..i] + [s[i]] + s[i + 1..j] + [s[j]] + s[j + 1..];
  }

  lemma {:induction false} DistinctPermutation<T>(a: seq<T>, b: seq<T>)
    requires Distinct(a) && multiset(a) == multiset(b)
    ensures Distinct(b)
  {
    forall i, j | 0 <= i < j < |b|
      ensures b[i] != b[j]
    {
      CountAtMostOne(a, b[i]);
      if b[i] == b[j] {
        CountTwice(b, i, j);
      }
    }
  }

  /** Distinct sequences with the same members are permutations of each other. */
  lemma {:induction false} SameElements<T>(a: seq<T>, b: seq<T>)
    requires Distinct(a) && Distinct(b)
    requires forall x :: x in a <==> x in b
    ensures multiset(a) == multiset(b)
  {
    forall x
      ensures multiset(a)[x] == multiset(b)[x]
    {
      CountAtMostOne(a, x);
      CountAtMostOne(b, x);
    }
  }

  // ---------------------------------------------------------------- flattening

  function FlatMap<A, B>(f: A -> seq<B>, s: seq<A>): seq<B> {
    if s == [] then [] else FlatMap(f, s[..|s| - 1]) + f(s[|s| - 1])
  }

  lemma {:induction false} FlatMapSnoc<A, B>(f: A -> seq<B>, s: seq<A>, x: A)
    ensures FlatMap(f, s + [x]) == FlatMap(f, s) + f(x)
  {
    assert (s + [x])[..|s|] == s;
  }

  /** The contribution of element `k` follows those of the elements before it. */
  lemma {:induction false} FlatMapPrefix<A, B>(f: A -> seq<B>, s: seq<A>, k: nat)
    requires k < |s|
    ensures FlatMap(f, s[..k]) + f(s[k]) <= FlatMap(f, s)
  {
    if k == |s| - 1 {
    } else {
      var init := s[..|s| - 1];
      FlatMapPrefix(f, init, k);
      assert init[..k] == s[..k];
    }
  }

  lemma {:induction false} FlatMapMember<A, B>(f: A -> seq<B>, s: seq<A>, y: B)
    ensures y in FlatMap(f, s) <==> exists k :: 0 <= k < |s| && y in f(s[k])
  {
    if s != [] {
      var init := s[..|s| - 1];
      FlatMapMember(f, init, y);
      if y in FlatMap(f, init) {
        var k :| 0 <= k < |init| && y in f(init[k]);
        assert s[k] == init[k];
      }
      if k :| 0 <= k < |s| && y in f(s[k]) {
        if k < |init| { assert init[k] == s[k]; }
      }
    }
  }
}
