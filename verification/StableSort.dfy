/** What a stable sort promises, and a function that meets it. `list.sort` and `Array.prototype.sort` are stable, so
    by SortIsUnique they return what `Sort` returns, whatever algorithm they use. */
module StableSort {
  ghost predicate Preorder<T(!new)>(le: (T, T) -> bool) {
    && (forall x, y :: le(x, y) || le(y, x))
    && (forall x, y, z :: le(x, y) && le(y, z) ==> le(x, z))
  }

  ghost predicate Ordered<T>(s: seq<T>, le: (T, T) -> bool) {
    forall i: nat, j: nat :: i < j < |s| ==> le(s[i], s[j])
  }

  /** The elements of `s` that `le` does not tell from `x`, in the order of `s`. */
  function Class<T>(s: seq<T>, x: T, le: (T, T) -> bool): seq<T> {
    if s == [] then []
    else (if le(x, s[0]) && le(s[0], x) then [s[0]] else []) + Class(s[1..], x, le)
  }

  /** Every class of equal elements has the same members, in the same order, in both lists. */
  ghost predicate SameClasses<T(!new)>(a: seq<T>, b: seq<T>, le: (T, T) -> bool) {
    forall x :: Class(a, x, le) == Class(b, x, le)
  }

  function Insert<T>(x: T, s: seq<T>, le: (T, T) -> bool): seq<T> {
    if s == [] || le(x, s[0]) then [x] + s else [s[0]] + Insert(x, s[1..], le)
  }

  function Sort<T>(s: seq<T>, le: (T, T) -> bool): seq<T> {
    if s == [] then [] else Insert(s[0], Sort(s[1..], le), le)
  }

  lemma SortPair<T>(x: T, y: T, le: (T, T) -> bool)
    requires le(x, y)
    ensures Sort([x, y], le) == [x, y]
  {
    assert [x, y][1..] == [y] && [y][1..] == [];
    assert Sort([y], le) == [y];
  }

  lemma {:induction false} InsertKeepsElements<T>(x: T, s: seq<T>, le: (T, T) -> bool)
    ensures multiset(Insert(x, s, le)) == multiset(s) + multiset{x}
  {
    if s != [] && !le(x, s[0]) {
      InsertKeepsElements(x, s[1..], le);
      assert s == [s[0]] + s[1..];
    }
  }

  lemma {:induction false} SortKeepsElements<T>(s: seq<T>, le: (T, T) -> bool)
    ensures multiset(Sort(s, le)) == multiset(s)
    ensures |Sort(s, le)| == |s|
  {
    if s != [] {
      SortKeepsElements(s[1..], le);
      InsertKeepsElements(s[0], Sort(s[1..], le), le);
      assert s == [s[0]] + s[1..];
    }
    assert |multiset(Sort(s, le))| == |Sort(s, le)|;
  }

  lemma InMultiset<T>(a: seq<T>, b: seq<T>)
    requires multiset(a) == multiset(b)
    ensures |a| == |b| && forall x :: x in a <==> x in b
  {
    assert |multiset(a)| == |multiset(b)|;
    assert forall x :: x in a <==> x in multiset(a);
  }

  lemma WithoutOne<T>(s: seq<T>, k: nat)
    requires k < |s|
    ensures multiset(s) == multiset(s[..k] + s[k + 1..]) + multiset{s[k]}
  {
    assert s == s[..k] + [s[k]] + s[k + 1..];
  }

  lemma CancelOne<T>(m: multiset<T>, n: multiset<T>, x: T)
    requires m + multiset{x} == n + multiset{x}
    ensures m == n
  {
    assert m == (m + multiset{x}) - multiset{x};
    assert n == (n + multiset{x}) - multiset{x};
  }

  /** Where the head of one list sits in another with the same elements. */
  lemma SplitAtHead<T>(a: seq<T>, b: seq<T>) returns (l: seq<T>, r: seq<T>)
    requires multiset(a) == multiset(b) && b != []
    ensures a == l + [b[0]] + r && multiset(l + r) == multiset(b[1..])
  {
    assert b[0] in multiset(a);
    var k :| 0 <= k < |a| && a[k] == b[0];
    l, r := a[..k], a[k + 1..];
    WithoutOne(a, k);
    WithoutOne(b, 0);
    assert b[..0] + b[1..] == b[1..];
    CancelOne(multiset(l + r), multiset(b[1..]), b[0]);
  }

  ghost predicate Distinct<T>(s: seq<T>) {
    forall i: nat, j: nat :: i < j < |s| ==> s[i] != s[j]
  }

  ghost predicate OnlyAt<T>(s: seq<T>, k: nat) {
    forall j: nat :: j < |s| && k < |s| && s[j] == s[k] ==> j == k
  }

  lemma CountsOnce<T>(s: seq<T>, k: nat)
    requires k < |s|
    ensures multiset(s)[s[k]] <= 1 <==> OnlyAt(s, k)
  {
    WithoutOne(s, k);
    var rest := s[..k] + s[k + 1..];
    if OnlyAt(s, k) {
      assert s[k] !in rest;
    } else {
      var j: nat :| j < |s| && s[j] == s[k] && j != k;
      assert rest[if j < k then j else j - 1] == s[k];
    }
  }

  lemma DistinctCounts<T>(s: seq<T>)
    ensures Distinct(s) <==> forall k: nat :: k < |s| ==> multiset(s)[s[k]] <= 1
  {
    forall k: nat | k < |s| ensures multiset(s)[s[k]] <= 1 <==> OnlyAt(s, k) {
      CountsOnce(s, k);
    }
    if forall k: nat :: k < |s| ==> OnlyAt(s, k) {
      forall i: nat, j: nat | i < j < |s| ensures s[i] != s[j] {
        assert OnlyAt(s, i);
      }
    }
  }

  lemma PermutedDistinct<T>(a: seq<T>, b: seq<T>)
    requires multiset(a) == multiset(b) && Distinct(a)
    ensures Distinct(b)
  {
    InMultiset(a, b);
    DistinctCounts(a);
    DistinctCounts(b);
    forall k: nat | k < |b| ensures multiset(b)[b[k]] <= 1 {
      assert b[k] in a;
      var m: nat :| m < |a| && a[m] == b[k];
    }
  }

  lemma {:induction false} InsertOrders<T(!new)>(x: T, s: seq<T>, le: (T, T) -> bool)
    requires Preorder(le) && Ordered(s, le)
    ensures Ordered(Insert(x, s, le), le)
  {
    if s != [] && !le(x, s[0]) {
      var rest := Insert(x, s[1..], le);
      InsertOrders(x, s[1..], le);
      InsertKeepsElements(x, s[1..], le);
      forall i | 0 <= i < |rest| ensures le(s[0], rest[i]) {
        assert rest[i] in multiset(rest);
        assert rest[i] == x || rest[i] in s[1..];
      }
    }
  }

  lemma {:induction false} SortOrders<T(!new)>(s: seq<T>, le: (T, T) -> bool)
    requires Preorder(le)
    ensures Ordered(Sort(s, le), le)
  {
    if s != [] {
      SortOrders(s[1..], le);
      InsertOrders(s[0], Sort(s[1..], le), le);
    }
  }

  lemma {:induction false} InsertClass<T(!new)>(x: T, s: seq<T>, z: T, le: (T, T) -> bool)
    requires Preorder(le)
    ensures Class(Insert(x, s, le), z, le) == Class([x] + s, z, le)
  {
    if s != [] && !le(x, s[0]) {
      InsertClass(x, s[1..], z, le);
      assert ([x] + s)[1..] == s && ([x] + s[1..])[1..] == s[1..];
      assert Insert(x, s, le)[1..] == Insert(x, s[1..], le);
    }
  }

  lemma {:induction false} SortIsStable<T(!new)>(s: seq<T>, le: (T, T) -> bool)
    requires Preorder(le)
    ensures SameClasses(Sort(s, le), s, le)
  {
    if s != [] {
      SortIsStable(s[1..], le);
      var rest := Sort(s[1..], le);
      forall z ensures Class(Sort(s, le), z, le) == Class(s, z, le) {
        InsertClass(s[0], rest, z, le);
        assert ([s[0]] + rest)[1..] == rest;
      }
    }
  }

  lemma {:induction false} ClassMembers<T(!new)>(s: seq<T>, x: T, le: (T, T) -> bool)
    requires Preorder(le)
    ensures Class(s, x, le) == [] <==> forall y :: y in s ==> !(le(x, y) && le(y, x))
  {
    if s != [] {
      ClassMembers(s[1..], x, le);
      assert s == [s[0]] + s[1..];
    }
  }

  lemma HeadClass<T(!new)>(s: seq<T>, le: (T, T) -> bool)
    requires Preorder(le)
    ensures s == [] || Class(s, s[0], le) != []
  {
    if s != [] { assert le(s[0], s[0]); }
  }

  /** An ordered list is determined by its classes. */
  lemma {:induction false} OrderedIsUnique<T(!new)>(a: seq<T>, b: seq<T>, le: (T, T) -> bool)
    requires Preorder(le) && Ordered(a, le) && Ordered(b, le) && SameClasses(a, b, le)
    ensures a == b
  {
    if a == [] {
      HeadClass(b, le);
    } else {
      ClassMembers(a, a[0], le);
      ClassMembers(b, a[0], le);
      var y :| y in b && le(a[0], y) && le(y, a[0]);
      ClassMembers(b, b[0], le);
      ClassMembers(a, b[0], le);
      var z :| z in a && le(b[0], z) && le(z, b[0]);
      assert le(a[0], b[0]) && le(b[0], a[0]);
      assert Class(a, a[0], le)[0] == a[0] && Class(b, a[0], le)[0] == b[0];
      forall x ensures Class(a[1..], x, le) == Class(b[1..], x, le) {
        TailClass(a, b, x, le);
      }
      OrderedIsUnique(a[1..], b[1..], le);
    }
  }

  lemma TailClass<T>(a: seq<T>, b: seq<T>, x: T, le: (T, T) -> bool)
    requires a != [] && b != [] && a[0] == b[0] && Class(a, x, le) == Class(b, x, le)
    ensures Class(a[1..], x, le) == Class(b[1..], x, le)
  {
    var h := if le(x, a[0]) && le(a[0], x) then [a[0]] else [];
    assert Class(a[1..], x, le) == Class(a, x, le)[|h|..];
    assert Class(b[1..], x, le) == Class(b, x, le)[|h|..];
  }

  /** Main result: `Sort` is the one stable sort. */
  lemma SortIsUnique<T(!new)>(s: seq<T>, out: seq<T>, le: (T, T) -> bool)
    requires Preorder(le)
    ensures out == Sort(s, le) <==> Ordered(out, le) && SameClasses(out, s, le)
  {
    SortOrders(s, le);
    SortIsStable(s, le);
    if Ordered(out, le) && SameClasses(out, s, le) {
      OrderedIsUnique(out, Sort(s, le), le);
    }
  }

  /** No two elements of `s` are equal for the order without being the same. */
  ghost predicate Told<T>(s: seq<T>, le: (T, T) -> bool) {
    forall x, y :: x in s && y in s && le(x, y) && le(y, x) ==> x == y
  }

  lemma SameHead<T(!new)>(a: seq<T>, b: seq<T>, le: (T, T) -> bool)
    requires a != [] && b != [] && a[0] in b && b[0] in a
    requires Preorder(le) && Ordered(a, le) && Ordered(b, le) && Told(a, le)
    ensures a[0] == b[0]
  {
    assert le(a[0], b[0]) by {
      var i :| 0 <= i < |a| && a[i] == b[0];
      assert le(a[0], a[i]);
    }
    assert le(b[0], a[0]) by {
      var i :| 0 <= i < |b| && b[i] == a[0];
      assert le(b[0], b[i]);
    }
  }

  lemma SameTails<T>(a: seq<T>, b: seq<T>)
    requires multiset(a) == multiset(b) && a != [] && b != [] && a[0] == b[0]
    ensures multiset(a[1..]) == multiset(b[1..])
  {
    HeadOut(a);
    HeadOut(b);
    CancelOne(multiset(a[1..]), multiset(b[1..]), a[0]);
  }

  lemma HeadOut<T>(s: seq<T>)
    requires s != []
    ensures multiset(s) == multiset(s[1..]) + multiset{s[0]}
  {
    assert s == [s[0]] + s[1..];
  }

  lemma TailKeeps<T>(a: seq<T>, le: (T, T) -> bool)
    requires a != []
    ensures Ordered(a, le) ==> Ordered(a[1..], le)
    ensures Told(a, le) ==> Told(a[1..], le)
  {
    if Ordered(a, le) {
      forall i: nat, j: nat | i < j < |a[1..]| ensures le(a[1..][i], a[1..][j]) {
        assert le(a[i + 1], a[j + 1]);
      }
    }
  }

  lemma {:induction false} ToldIsUnique<T(!new)>(a: seq<T>, b: seq<T>, le: (T, T) -> bool)
    requires Preorder(le) && Ordered(a, le) && Ordered(b, le) && multiset(a) == multiset(b) && Told(a, le)
    ensures a == b
  {
    hide *;
    InMultiset(a, b);
    if a != [] {
      assert a[0] in a && b[0] in b;
      SameHead(a, b, le);
      SameTails(a, b);
      TailKeeps(a, le);
      TailKeeps(b, le);
      ToldIsUnique(a[1..], b[1..], le);
      assert a == [a[0]] + a[1..] && b == [b[0]] + b[1..];
    }
  }

  /** Sorting forgets the input order when the order tells the elements apart. */
  lemma SortForgetsOrder<T(!new)>(a: seq<T>, b: seq<T>, le: (T, T) -> bool)
    requires Preorder(le) && multiset(a) == multiset(b) && Told(a, le)
    ensures Sort(a, le) == Sort(b, le)
  {
    SortOrders(a, le);
    SortOrders(b, le);
    SortKeepsElements(a, le);
    SortKeepsElements(b, le);
    InMultiset(a, Sort(a, le));
    ToldIsUnique(Sort(a, le), Sort(b, le), le);
  }

  /** Where an element of a class stands in it. */
  lemma {:induction false} ClassMark<T>(s: seq<T>, i: nat, x: T, le: (T, T) -> bool)
    requires i < |s| && le(x, s[i]) && le(s[i], x)
    ensures |Class(s[..i], x, le)| < |Class(s, x, le)|
    ensures Class(s, x, le)[|Class(s[..i], x, le)|] == s[i]
  {
    if i > 0 {
      ClassMark(s[1..], i - 1, x, le);
      assert s[..i][1..] == s[1..][..i - 1];
    }
  }

  /** Two lists that first differ in elements the order does not tell apart are sorted differently. */
  lemma TieShows<T(!new)>(s: seq<T>, t: seq<T>, i: nat, le: (T, T) -> bool)
    requires Preorder(le) && i < |s| && i < |t| && s[..i] == t[..i]
    requires s[i] != t[i] && le(s[i], t[i]) && le(t[i], s[i])
    ensures Sort(s, le) != Sort(t, le)
  {
    SortIsStable(s, le);
    SortIsStable(t, le);
    assert le(s[i], s[i]);
    hide Sort, Preorder, Class;
    ClassMark(s, i, s[i], le);
    ClassMark(t, i, s[i], le);
    assert Class(Sort(s, le), s[i], le) != Class(Sort(t, le), s[i], le);
  }
}
