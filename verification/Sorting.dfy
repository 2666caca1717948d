/** Python's `sorted`: a stable sort by a comparison, and when its outcome does not
    depend on the order of its input. */
module Sorting {

  ghost predicate TotalPreorder<T(!new)>(le: (T, T) -> bool) {
    && (forall x, y :: le(x, y) || le(y, x))
    && (forall x, y, z :: le(x, y) && le(y, z) ==> le(x, z))
  }

  predicate Sorted<T>(le: (T, T) -> bool, s: seq<T>) {
    forall i, j :: 0 <= i < j < |s| ==> le(s[i], s[j])
  }

  /** No two different elements of `s` tie. */
  predicate NoTies<T(==)>(le: (T, T) -> bool, s: seq<T>) {
    forall x, y :: x in s && y in s && le(x, y) && le(y, x) ==> x == y
  }

  /** `x` placed after every element that is not above it, as a stable sort does. */
  function Insert<T>(le: (T, T) -> bool, s: seq<T>, x: T): seq<T> {
    if s == [] then [x]
    else if le(s[|s| - 1], x) then s + [x]
    else Insert(le, s[..|s| - 1], x) + [s[|s| - 1]]
  }

  function Sort<T>(le: (T, T) -> bool, s: seq<T>): seq<T> {
    if s == [] then [] else Insert(le, Sort(le, s[..|s| - 1]), s[|s| - 1])
  }

  lemma {:induction false} InsertKeeps<T>(le: (T, T) -> bool, s: seq<T>, x: T)
    ensures multiset(Insert(le, s, x)) == multiset(s) + multiset{x}
    ensures |Insert(le, s, x)| == |s| + 1
  {
    if s != [] {
      assert s == s[..|s| - 1] + [s[|s| - 1]];
      if !le(s[|s| - 1], x) { InsertKeeps(le, s[..|s| - 1], x); }
    }
  }

  lemma SameElements<T>(a: seq<T>, b: seq<T>, x: T)
    requires multiset(a) == multiset(b)
    ensures |a| == |b| && (x in a <==> x in b)
  {
    assert x in a <==> x in multiset(a);
    assert x in b <==> x in multiset(b);
    assert |multiset(a)| == |a| && |multiset(b)| == |b|;
  }

  lemma {:induction false} InsertSorts<T(!new)>(le: (T, T) -> bool, s: seq<T>, x: T)
    requires TotalPreorder(le) && Sorted(le, s)
    ensures Sorted(le, Insert(le, s, x))
  {
    if s != [] {
      var init, last := s[..|s| - 1], s[|s| - 1];
      if le(last, x) {
        forall i | 0 <= i < |s| ensures le(s[i], x) { assert le(s[i], last); }
      } else {
        InsertSorts(le, init, x);
        InsertKeeps(le, init, x);
        var r := Insert(le, init, x);
        forall i | 0 <= i < |r| ensures le(r[i], last) {
          assert r[i] in multiset(r);
          assert r[i] == x || r[i] in multiset(init);
        }
      }
    }
  }

  lemma {:induction false} SortSorts<T(!new)>(le: (T, T) -> bool, s: seq<T>)
    requires TotalPreorder(le)
    ensures Sorted(le, Sort(le, s)) && multiset(Sort(le, s)) == multiset(s) && |Sort(le, s)| == |s|
  {
    if s != [] {
      var init, last := s[..|s| - 1], s[|s| - 1];
      SortSorts(le, init);
      InsertSorts(le, Sort(le, init), last);
      InsertKeeps(le, Sort(le, init), last);
      assert s == init + [last];
    }
  }

  lemma WithoutLast<T>(s: seq<T>)
    requires s != []
    ensures multiset(s[..|s| - 1]) == multiset(s) - multiset{s[|s| - 1]}
  {
    assert s == s[..|s| - 1] + [s[|s| - 1]];
  }

  lemma SameLast<T>(le: (T, T) -> bool, a: seq<T>, b: seq<T>)
    requires Sorted(le, a) && Sorted(le, b) && multiset(a) == multiset(b) && NoTies(le, a) && a != []
    ensures |a| == |b| && a[|a| - 1] == b[|b| - 1]
  {
    var x := a[|a| - 1];
    SameElements(a, b, x);
    var y := b[|b| - 1];
    SameElements(a, b, y);
    var i :| 0 <= i < |b| && b[i] == x;
    var j :| 0 <= j < |a| && a[j] == y;
    assert i < |b| - 1 ==> le(x, y);
    assert j < |a| - 1 ==> le(y, x);
  }

  lemma PrefixKeeps<T>(le: (T, T) -> bool, s: seq<T>)
    requires s != []
    ensures Sorted(le, s) ==> Sorted(le, s[..|s| - 1])
    ensures NoTies(le, s) ==> NoTies(le, s[..|s| - 1])
  {
    forall x | x in s[..|s| - 1] ensures x in s {}
  }

  lemma {:induction false} SortedUnique<T>(le: (T, T) -> bool, a: seq<T>, b: seq<T>)
    requires Sorted(le, a) && Sorted(le, b) && multiset(a) == multiset(b) && NoTies(le, a)
    ensures a == b
  {
    hide Sorted, NoTies;
    assert |multiset(a)| == |a| && |multiset(b)| == |b|;
    if a != [] {
      SameLast(le, a, b);
      WithoutLast(a);
      WithoutLast(b);
      PrefixKeeps(le, a);
      PrefixKeeps(le, b);
      SortedUnique(le, a[..|a| - 1], b[..|b| - 1]);
      assert a == a[..|a| - 1] + [a[|a| - 1]] && b == b[..|b| - 1] + [b[|b| - 1]];
    }
  }

  /** Without ties, the sorted sequence depends only on which elements there are. */
  lemma SortIsCanonical<T(!new)>(le: (T, T) -> bool, a: seq<T>, b: seq<T>)
    requires TotalPreorder(le) && multiset(a) == multiset(b) && NoTies(le, a)
    ensures Sort(le, a) == Sort(le, b)
  {
    SortSorts(le, a);
    SortSorts(le, b);
    forall x | x in Sort(le, a) ensures x in a { SameElements(Sort(le, a), a, x); }
    SortedUnique(le, Sort(le, a), Sort(le, b));
  }

  /** Sequences without repetition that hold the same elements are permutations. */
  lemma SameMembers<T>(a: seq<T>, b: seq<T>)
    requires forall x :: multiset(a)[x] <= 1 && multiset(b)[x] <= 1
    requires forall x :: x in a <==> x in b
    ensures multiset(a) == multiset(b)
  {
    forall x ensures multiset(a)[x] == multiset(b)[x] {
      assert x in multiset(a) <==> x in a;
      assert x in multiset(b) <==> x in b;
    }
  }

  /** What `f` yields for each element, in order. */
  function Collect<A, B>(f: A -> seq<B>, s: seq<A>): seq<B> {
    if s == [] then [] else Collect(f, s[..|s| - 1]) + f(s[|s| - 1])
  }

  lemma CollectLast<A, B>(f: A -> seq<B>, s: seq<A>)
    requires s != []
    ensures Collect(f, s) == Collect(f, s[..|s| - 1]) + f(s[|s| - 1])
    ensures multiset(Collect(f, s)) == multiset(Collect(f, s[..|s| - 1])) + multiset(f(s[|s| - 1]))
  {
  }

  lemma LastAfter<T>(s: seq<T>, i: nat)
    requires i < |s| - 1
    ensures var rest, init := s[..i] + s[i + 1..], s[..|s| - 1];
            rest[..|rest| - 1] == init[..i] + init[i + 1..] && rest[|rest| - 1] == s[|s| - 1]
  {
  }

  lemma {:induction false} CollectWithout<A, B>(f: A -> seq<B>, s: seq<A>, i: nat)
    requires i < |s|
    ensures multiset(Collect(f, s)) == multiset(Collect(f, s[..i] + s[i + 1..])) + multiset(f(s[i]))
  {
    var rest, init, last := s[..i] + s[i + 1..], s[..|s| - 1], s[|s| - 1];
    CollectLast(f, s);
    hide Collect;
    if i == |s| - 1 {
      assert rest == init;
    } else {
      CollectWithout(f, init, i);
      LastAfter(s, i);
      CollectLast(f, rest);
    }
  }

  lemma WithoutAt<T>(s: seq<T>, i: nat)
    requires i < |s|
    ensures multiset(s[..i] + s[i + 1..]) == multiset(s) - multiset{s[i]}
  {
    assert s == s[..i] + ([s[i]] + s[i + 1..]);
  }

  /** A permutation of the input permutes what is collected. */
  lemma {:induction false} CollectPermuted<A, B>(f: A -> seq<B>, a: seq<A>, b: seq<A>)
    requires multiset(a) == multiset(b)
    ensures multiset(Collect(f, a)) == multiset(Collect(f, b))
  {
    hide Collect;
    assert |multiset(a)| == |a| && |multiset(b)| == |b|;
    if a == [] {
      assert b == [];
    } else {
      var last := |a| - 1;
      SameElements(a, b, a[last]);
      var i :| 0 <= i < |b| && b[i] == a[last];
      CollectWithout(f, a, last);
      CollectWithout(f, b, i);
      WithoutAt(a, last);
      WithoutAt(b, i);
      CollectPermuted(f, a[..last] + a[last + 1..], b[..i] + b[i + 1..]);
    }
  }

  /** What comes of an element is among what is collected, and nothing else is. */
  lemma {:induction false} Collected<A, B>(f: A -> seq<B>, s: seq<A>, y: B)
    ensures y in Collect(f, s) <==> exists x :: x in s && y in f(x)
  {
    if s != [] {
      var init, last := s[..|s| - 1], s[|s| - 1];
      assert s == init + [last];
      Collected(f, init, y);
    }
  }

  /** No two places of `s` carry the same identity. */
  predicate OneEach<T(==)>(id: T -> string, s: seq<T>) {
    forall i, j :: 0 <= i < j < |s| ==> id(s[i]) != id(s[j])
  }

  lemma OneEachSame<T>(id: T -> string, s: seq<T>, x: T, y: T)
    requires OneEach(id, s) && x in s && y in s
    ensures id(x) == id(y) ==> x == y
  {
    var i :| 0 <= i < |s| && s[i] == x;
    var j :| 0 <= j < |s| && s[j] == y;
    assert i < j ==> id(s[i]) != id(s[j]);
    assert j < i ==> id(s[j]) != id(s[i]);
  }

  lemma OneEachStep<T>(id: T -> string, init: seq<T>, last: T)
    ensures OneEach(id, init + [last]) <==> OneEach(id, init) && forall x :: x in init ==> id(x) != id(last)
  {
    var s := init + [last];
    if OneEach(id, s) {
      forall i, j | 0 <= i < j < |init| ensures id(init[i]) != id(init[j]) {
        assert s[i] == init[i] && s[j] == init[j];
      }
      forall x | x in init ensures id(x) != id(last) {
        var i :| 0 <= i < |init| && init[i] == x;
        assert s[i] == x && s[|init|] == last;
      }
    }
  }

  lemma OneEachWithout<T>(id: T -> string, s: seq<T>, i: nat)
    requires i < |s|
    ensures var rest := s[..i] + s[i + 1..];
            OneEach(id, s) <==> OneEach(id, rest) && forall x :: x in rest ==> id(x) != id(s[i])
  {
    var rest, last := s[..i] + s[i + 1..], |s| - 1;
    if OneEach(id, s) {
      forall j, k | 0 <= j < k < |rest| ensures id(rest[j]) != id(rest[k]) {
        assert rest[j] == s[if j < i then j else j + 1] && rest[k] == s[if k < i then k else k + 1];
      }
      forall x | x in rest ensures id(x) != id(s[i]) {
        var j :| 0 <= j < |rest| && rest[j] == x;
        assert rest[j] == s[if j < i then j else j + 1];
      }
    } else {
      var j, k :| 0 <= j < k < |s| && id(s[j]) == id(s[k]);
      assert j != i ==> s[j] == rest[if j < i then j else j - 1];
      assert k != i ==> s[k] == rest[if k < i then k else k - 1];
    }
  }

  /** Having each identity once does not depend on the order. */
  lemma {:induction false} OneEachPermuted<T>(id: T -> string, a: seq<T>, b: seq<T>)
    requires multiset(a) == multiset(b) && OneEach(id, a)
    ensures OneEach(id, b)
  {
    hide OneEach;
    assert |multiset(a)| == |a| && |multiset(b)| == |b|;
    if a == [] {
      assert a == b;
    } else {
      var last := |a| - 1;
      SameElements(a, b, a[last]);
      var i :| 0 <= i < |b| && b[i] == a[last];
      var a', b' := a[..last] + a[last + 1..], b[..i] + b[i + 1..];
      WithoutAt(a, last);
      WithoutAt(b, i);
      OneEachWithout(id, a, last);
      OneEachPermuted(id, a', b');
      forall x | x in b' ensures id(x) != id(b[i]) { SameElements(a', b', x); }
      OneEachWithout(id, b, i);
    }
  }

  function Mapped<T, U>(f: T -> U, s: seq<T>): (r: seq<U>)
    ensures |r| == |s| && forall i :: 0 <= i < |s| ==> r[i] == f(s[i])
  {
    if s == [] then [] else Mapped(f, s[..|s| - 1]) + [f(s[|s| - 1])]
  }

  /** `f` keeps the comparison between any two elements of `s`. */
  predicate KeepsOrder<T(==), U>(leT: (T, T) -> bool, leU: (U, U) -> bool, f: T -> U, s: seq<T>) {
    forall x, y :: x in s && y in s ==> leT(x, y) == leU(f(x), f(y))
  }

  lemma {:induction false} InsertMapped<T, U>(leT: (T, T) -> bool, leU: (U, U) -> bool, f: T -> U, s: seq<T>, x: T)
    requires KeepsOrder(leT, leU, f, s + [x])
    ensures Mapped(f, Insert(leT, s, x)) == Insert(leU, Mapped(f, s), f(x))
  {
    if s != [] {
      var init, last := s[..|s| - 1], s[|s| - 1];
      var mapped := Mapped(f, s);
      assert mapped[..|mapped| - 1] == Mapped(f, init) && mapped[|mapped| - 1] == f(last);
      assert last in s + [x] && x in s + [x];
      if leT(last, x) {
        assert (s + [x])[..|s|] == s;
      } else {
        assert forall y :: y in init + [x] ==> y in s + [x];
        InsertMapped(leT, leU, f, init, x);
        var r := Insert(leT, init, x);
        assert (r + [last])[..|r|] == r;
      }
    }
  }

  /** Sorting commutes with a map that keeps the comparison: a stable sort moves elements by
      their keys alone. */
  lemma {:induction false} SortMapped<T(!new), U(!new)>(leT: (T, T) -> bool, leU: (U, U) -> bool, f: T -> U, s: seq<T>)
    requires TotalPreorder(leT) && KeepsOrder(leT, leU, f, s)
    ensures Mapped(f, Sort(leT, s)) == Sort(leU, Mapped(f, s))
  {
    if s != [] {
      var init, last := s[..|s| - 1], s[|s| - 1];
      assert s == init + [last];
      SortMapped(leT, leU, f, init);
      SortSorts(leT, init);
      var sorted := Sort(leT, init);
      forall x | x in sorted + [last] ensures x in s { if x in sorted { SameElements(sorted, init, x); } }
      InsertMapped(leT, leU, f, sorted, last);
      var mapped := Mapped(f, s);
      assert mapped[..|mapped| - 1] == Mapped(f, init);
    }
  }
}
