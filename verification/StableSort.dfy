/** The stable sort by an integer key. */
module StableSort {
  import opened Common

  /** Insertion after the last element whose key is not larger. */
  function Insert<T>(key: T -> int, s: seq<T>, x: T): seq<T> {
    if s == [] || key(s[|s| - 1]) <= key(x) then s + [x]
    else Insert(key, s[..|s| - 1], x) + [s[|s| - 1]]
  }

  function Sort<T>(key: T -> int, s: seq<T>): seq<T> {
    if s == [] then [] else Insert(key, Sort(key, s[..|s| - 1]), s[|s| - 1])
  }

  predicate InOrder<T>(key: T -> int, s: seq<T>) {
    forall i, j :: 0 <= i < j < |s| ==> key(s[i]) <= key(s[j])
  }

  lemma {:induction false} InsertElements<T>(key: T -> int, s: seq<T>, x: T)
    ensures multiset(Insert(key, s, x)) == multiset(s) + multiset{x}
  {
    if s != [] && key(s[|s| - 1]) > key(x) {
      assert s == s[..|s| - 1] + [s[|s| - 1]];
      InsertElements(key, s[..|s| - 1], x);
    }
  }

  lemma {:induction false} InsertInOrder<T>(key: T -> int, s: seq<T>, x: T)
    requires InOrder(key, s)
    ensures InOrder(key, Insert(key, s, x))
  {
    if s != [] && key(s[|s| - 1]) > key(x) {
      var init, last := s[..|s| - 1], s[|s| - 1];
      InsertInOrder(key, init, x);
      InsertElements(key, init, x);
      var t := Insert(key, init, x);
      forall i | 0 <= i < |t|
        ensures key(t[i]) <= key(last)
      {
        assert t[i] in multiset(t);
        assert t[i] in multiset(init) || t[i] == x;
      }
    }
  }

  /** The sort orders the elements and loses none. */
  lemma {:induction false} SortInOrder<T>(key: T -> int, s: seq<T>)
    ensures InOrder(key, Sort(key, s)) && multiset(Sort(key, s)) == multiset(s)
  {
    if s != [] {
      assert s == s[..|s| - 1] + [s[|s| - 1]];
      SortInOrder(key, s[..|s| - 1]);
      InsertInOrder(key, Sort(key, s[..|s| - 1]), s[|s| - 1]);
      InsertElements(key, Sort(key, s[..|s| - 1]), s[|s| - 1]);
    }
  }

  lemma InsertAtEnd<T>(key: T -> int, s: seq<T>, x: T)
    requires s == [] || key(s[|s| - 1]) <= key(x)
    ensures Insert(key, s, x) == s + [x]
  {
  }

  lemma InsertBefore<T>(key: T -> int, s: seq<T>, last: T, x: T)
    requires key(last) > key(x)
    ensures Insert(key, s + [last], x) == Insert(key, s, x) + [last]
  {
    assert (s + [last])[..|s|] == s;
  }

  lemma SortSnoc<T>(key: T -> int, s: seq<T>, x: T)
    ensures Sort(key, s + [x]) == Insert(key, Sort(key, s), x)
  {
    assert (s + [x])[..|s|] == s;
  }

  /** An ordered list is left as it is. */
  lemma {:induction false} SortOrdered<T>(key: T -> int, s: seq<T>)
    requires InOrder(key, s)
    ensures Sort(key, s) == s
  {
    if s != [] {
      var init, last := s[..|s| - 1], s[|s| - 1];
      assert s == init + [last];
      SortOrdered(key, init);
      InsertAtEnd(key, init, last);
    }
  }

  lemma {:induction false} InsertMapped<S, T>(f: S -> T, key: T -> int, from: S -> int, s: seq<S>, x: S)
    requires forall y :: y in s || y == x ==> key(f(y)) == from(y)
    ensures Insert(key, Map(f, s), f(x)) == Map(f, Insert(from, s, x))
  {
    if s == [] {
      assert Map(f, [x]) == [f(x)];
    } else {
      var init, last := s[..|s| - 1], s[|s| - 1];
      assert s == init + [last];
      MapSnoc(f, init, last);
      if from(last) <= from(x) {
        MapSnoc(f, s, x);
      } else {
        InsertMapped(f, key, from, init, x);
        MapSnoc(f, Insert(from, init, x), last);
        InsertBefore(key, Map(f, init), f(last), f(x));
      }
    }
  }

  /** Sorting commutes with a map that keeps the key. */
  lemma {:induction false} SortMapped<S, T>(f: S -> T, key: T -> int, from: S -> int, s: seq<S>)
    requires forall y :: y in s ==> key(f(y)) == from(y)
    ensures Sort(key, Map(f, s)) == Map(f, Sort(from, s))
  {
    if s == [] {
      assert Map(f, s) == [];
    } else {
      var init, last := s[..|s| - 1], s[|s| - 1];
      assert s == init + [last];
      SortMapped(f, key, from, init);
      SortInOrder(from, init);
      assert forall y :: y in Sort(from, init) ==> y in multiset(init);
      MapSnoc(f, init, last);
      SortSnoc(key, Map(f, init), f(last));
      SortSnoc(from, init, last);
      hide Sort, Insert, Map;
      InsertMapped(f, key, from, Sort(from, init), last);
    }
  }

  lemma {:induction false} FilterBounded<T>(key: T -> int, q: T -> bool, s: seq<T>, bound: int)
    requires forall i :: 0 <= i < |s| ==> key(s[i]) <= bound
    ensures forall i :: 0 <= i < |Filter(q, s)| ==> key(Filter(q, s)[i]) <= bound
  {
    if s != [] {
      FilterBounded(key, q, s[1..], bound);
    }
  }

  lemma InOrderSnoc<T>(key: T -> int, s: seq<T>, x: T)
    requires InOrder(key, s) && forall i :: 0 <= i < |s| ==> key(s[i]) <= key(x)
    ensures InOrder(key, s + [x])
  {
  }

  lemma InOrderInit<T>(key: T -> int, s: seq<T>)
    requires InOrder(key, s) && s != []
    ensures InOrder(key, s[..|s| - 1])
  {
  }

  lemma {:induction false} FilterInOrder<T>(key: T -> int, q: T -> bool, s: seq<T>)
    requires InOrder(key, s)
    ensures InOrder(key, Filter(q, s))
  {
    if s != [] {
      var init, last := s[..|s| - 1], s[|s| - 1];
      assert s == init + [last];
      InOrderInit(key, s);
      FilterInOrder(key, q, init);
      FilterSnoc(q, init, last);
      FilterBounded(key, q, init, key(last));
      hide Filter, InOrder;
      if q(last) {
        InOrderSnoc(key, Filter(q, init), last);
      }
    }
  }

  lemma {:induction false} InsertFiltered<T>(key: T -> int, q: T -> bool, s: seq<T>, x: T)
    requires InOrder(key, s)
    ensures Filter(q, Insert(key, s, x)) == if q(x) then Insert(key, Filter(q, s), x) else Filter(q, s)
  {
    if s == [] || key(s[|s| - 1]) <= key(x) {
      InsertAtEnd(key, s, x);
      FilterSnoc(q, s, x);
      FilterBounded(key, q, s, key(x));
      hide Filter, InOrder, Insert;
      var f := Filter(q, s);
      InsertAtEnd(key, f, x);
    } else {
      var init, last := s[..|s| - 1], s[|s| - 1];
      assert s == init + [last];
      InsertFiltered(key, q, init, x);
      hide Filter, InOrder, Insert;
      InsertBefore(key, init, last, x);
      InsertBefore(key, Filter(q, init), last, x);
      FilterSnoc(q, init, last);
      FilterSnoc(q, Insert(key, init, x), last);
    }
  }

  /** The sort is stable: leaving elements out commutes with sorting. */
  lemma {:induction false} SortFiltered<T>(key: T -> int, q: T -> bool, s: seq<T>)
    ensures Filter(q, Sort(key, s)) == Sort(key, Filter(q, s))
  {
    if s != [] {
      var init, last := s[..|s| - 1], s[|s| - 1];
      assert s == init + [last];
      SortFiltered(key, q, init);
      SortInOrder(key, init);
      hide Filter, Sort, Insert, InOrder;
      SortSnoc(key, init, last);
      SortSnoc(key, Filter(q, init), last);
      InsertFiltered(key, q, Sort(key, init), last);
      FilterSnoc(q, init, last);
    }
  }

  /** Where an ordered list reaches a bound. */
  lemma {:induction false} ReachesBound<T>(key: T -> int, s: seq<T>, bound: int) returns (n: nat)
    requires InOrder(key, s)
    ensures n <= |s|
    ensures forall i :: 0 <= i < n ==> key(s[i]) < bound
    ensures forall i :: n <= i < |s| ==> key(s[i]) >= bound
  {
    n := |s|;
    if s != [] && key(s[|s| - 1]) >= bound {
      InOrderInit(key, s);
      n := ReachesBound(key, s[..|s| - 1], bound);
    }
  }

  /** A predicate that holds from one bound to another. */
  ghost predicate Between<T(!new)>(key: T -> int, inside: T -> bool, lo: int, hi: int) {
    forall x :: inside(x) <==> lo <= key(x) <= hi
  }

  ghost predicate Opposite<T(!new)>(p: T -> bool, q: T -> bool) {
    forall x :: q(x) <==> !p(x)
  }

  /** What lies between two bounds stands together in an ordered list. */
  lemma IntervalTogether<T(!new)>(key: T -> int, inside: T -> bool, outside: T -> bool, s: seq<T>, lo: int, hi: int)
    returns (pre: seq<T>, post: seq<T>)
    requires InOrder(key, s) && lo <= hi && Between(key, inside, lo, hi) && Opposite(inside, outside)
    ensures s == pre + Filter(inside, s) + post && Filter(outside, s) == pre + post
    ensures (forall i :: 0 <= i < |pre| ==> key(pre[i]) < lo) && (forall i :: 0 <= i < |post| ==> hi < key(post[i]))
  {
    var a := ReachesBound(key, s, lo);
    var rest := s[a..];
    assert InOrder(key, rest);
    var n := ReachesBound(key, rest, hi + 1);
    var middle := rest[..n];
    pre, post := s[..a], rest[n..];
    assert rest == middle + post && s == pre + rest;
    assert forall i :: 0 <= i < |middle| ==> middle[i] == s[a + i];
    hide InOrder;
    Assoc(pre, middle, post);
    hide Filter;
    KeepMiddle(inside, pre, middle, post);
    DropMiddle(outside, pre, middle, post);
  }

  lemma KeepMiddle<T>(p: T -> bool, a: seq<T>, b: seq<T>, c: seq<T>)
    requires (forall i :: 0 <= i < |a| ==> !p(a[i])) && (forall i :: 0 <= i < |c| ==> !p(c[i]))
    requires forall i :: 0 <= i < |b| ==> p(b[i])
    ensures Filter(p, a + b + c) == b
  {
    hide Filter;
    FilterConcat(p, a + b, c);
    FilterConcat(p, a, b);
    FilterNone(p, a);
    FilterNone(p, c);
    FilterAll(p, b);
    assert [] + b + [] == b;
  }

  lemma DropMiddle<T>(p: T -> bool, a: seq<T>, b: seq<T>, c: seq<T>)
    requires (forall i :: 0 <= i < |a| ==> p(a[i])) && (forall i :: 0 <= i < |c| ==> p(c[i]))
    requires forall i :: 0 <= i < |b| ==> !p(b[i])
    ensures Filter(p, a + b + c) == a + c
  {
    hide Filter;
    FilterConcat(p, a + b, c);
    FilterConcat(p, a, b);
    FilterAll(p, a);
    FilterAll(p, c);
    FilterNone(p, b);
    assert a + [] == a;
  }
}
