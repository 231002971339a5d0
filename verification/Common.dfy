/** Shared datatypes and a few facts about sequences. */
module Common {

  datatype Option<+T> = None | Some(value: T)

  datatype Result<+T, +E> = Ok(value: T) | Err(error: E)

  /** The concatenation of a sequence of sequences. */
  function Flatten<T>(parts: seq<seq<T>>): seq<T> {
    if parts == [] then [] else parts[0] + Flatten(parts[1..])
  }

  lemma {:induction false} FlattenSnoc<T>(parts: seq<seq<T>>, last: seq<T>)
    ensures Flatten(parts + [last]) == Flatten(parts) + last
  {
    if parts == [] {
      assert parts + [last] == [last];
    } else {
      assert (parts + [last])[1..] == parts[1..] + [last];
      FlattenSnoc(parts[1..], last);
    }
  }

  lemma {:induction false} FlattenConcat<T>(a: seq<seq<T>>, b: seq<seq<T>>)
    ensures Flatten(a + b) == Flatten(a) + Flatten(b)
  {
    if a == [] {
      assert a + b == b;
    } else {
      assert (a + b)[1..] == a[1..] + b;
      FlattenConcat(a[1..], b);
    }
  }

  lemma FlattenSplit<T>(parts: seq<seq<T>>, n: nat)
    requires n <= |parts|
    ensures Flatten(parts) == Flatten(parts[..n]) + Flatten(parts[n..])
  {
    hide Flatten;
    FlattenConcat(parts[..n], parts[n..]);
    assert parts == parts[..n] + parts[n..];
  }

  lemma FlattenNext<T>(parts: seq<seq<T>>, n: nat)
    requires n < |parts|
    ensures Flatten(parts[..n + 1]) == Flatten(parts[..n]) + parts[n]
  {
    hide Flatten;
    FlattenSnoc(parts[..n], parts[n]);
    assert parts[..n + 1] == parts[..n] + [parts[n]];
  }

  lemma SplitLast<T>(s: seq<T>)
    requires s != []
    ensures s == s[..|s| - 1] + [s[|s| - 1]]
  {
  }

  lemma TakeNext<T>(s: seq<T>, n: nat)
    requires n < |s|
    ensures s[..n + 1] == s[..n] + [s[n]]
  {
  }

  lemma ReplaceLast<T>(s: seq<T>, x: T)
    requires s != []
    ensures s[|s| - 1 := x] == s[..|s| - 1] + [x]
  {
  }

  /** Equal concatenations with equally long ends have equal parts. */
  lemma ConcatInjective<T>(a: seq<T>, x: seq<T>, b: seq<T>, y: seq<T>)
    requires a + x == b + y && |x| == |y|
    ensures a == b && x == y
  {
    assert |a| == |b|;
    assert a == (a + x)[..|a|] && b == (b + y)[..|b|];
    assert x == (a + x)[|a|..] && y == (b + y)[|b|..];
  }

  lemma Assoc<T>(a: seq<T>, b: seq<T>, c: seq<T>)
    ensures (a + b) + c == a + (b + c)
  {
  }

  function Min(a: nat, b: nat): nat {
    if a <= b then a else b
  }

  function Map<A, B>(f: A -> B, s: seq<A>): (r: seq<B>)
    ensures |r| == |s|
    ensures forall i :: 0 <= i < |s| ==> r[i] == f(s[i])
  {
    if s == [] then [] else [f(s[0])] + Map(f, s[1..])
  }

  lemma MapMembers<A, B>(f: A -> B, s: seq<A>)
    ensures forall y :: y in Map(f, s) <==> exists x :: x in s && y == f(x)
  {
    forall y
      ensures y in Map(f, s) <==> exists x :: x in s && y == f(x)
    {
      if i :| 0 <= i < |s| && y == f(s[i]) {
        assert s[i] in s && Map(f, s)[i] == y;
      }
      if y in Map(f, s) {
        var i :| 0 <= i < |s| && Map(f, s)[i] == y;
        assert s[i] in s;
      }
      if x :| x in s && y == f(x) {
        var i :| 0 <= i < |s| && s[i] == x;
        assert Map(f, s)[i] == y;
      }
    }
  }

  lemma MapFirst<A, B>(f: A -> B, s: seq<A>)
    requires s != []
    ensures Map(f, s) == [f(s[0])] + Map(f, s[1..])
  {
  }

  lemma MapSnoc<A, B>(f: A -> B, s: seq<A>, x: A)
    ensures Map(f, s + [x]) == Map(f, s) + [f(x)]
  {
    hide Map;
    assert |Map(f, s + [x])| == |Map(f, s) + [f(x)]|;
  }

  function Filter<A>(p: A -> bool, s: seq<A>): seq<A> {
    if s == [] then [] else (if p(s[0]) then [s[0]] else []) + Filter(p, s[1..])
  }

  lemma {:induction false} FilterConcat<A>(p: A -> bool, a: seq<A>, b: seq<A>)
    ensures Filter(p, a + b) == Filter(p, a) + Filter(p, b)
  {
    if a == [] {
      assert a + b == b;
    } else {
      var head := if p(a[0]) then [a[0]] else [];
      calc {
        Filter(p, a + b);
        { assert (a + b)[1..] == a[1..] + b && (a + b)[0] == a[0]; }
        head + Filter(p, a[1..] + b);
        { FilterConcat(p, a[1..], b); }
        head + (Filter(p, a[1..]) + Filter(p, b));
        (head + Filter(p, a[1..])) + Filter(p, b);
        Filter(p, a) + Filter(p, b);
      }
    }
  }

  lemma {:induction false} FilterMembers<A>(p: A -> bool, s: seq<A>)
    ensures forall x :: x in Filter(p, s) <==> x in s && p(x)
  {
    if s != [] {
      FilterMembers(p, s[1..]);
      assert s == [s[0]] + s[1..];
    }
  }

  lemma {:induction false} FilterNone<A>(p: A -> bool, s: seq<A>)
    requires forall i :: 0 <= i < |s| ==> !p(s[i])
    ensures Filter(p, s) == []
  {
    if s != [] {
      FilterNone(p, s[1..]);
    }
  }

  lemma {:induction false} FilterAll<A>(p: A -> bool, s: seq<A>)
    requires forall i :: 0 <= i < |s| ==> p(s[i])
    ensures Filter(p, s) == s
  {
    if s != [] {
      FilterAll(p, s[1..]);
    }
  }

  lemma {:induction false} FilterTwice<A>(p: A -> bool, q: A -> bool, r: A -> bool, s: seq<A>)
    requires forall i :: 0 <= i < |s| ==> (r(s[i]) <==> p(s[i]) && q(s[i]))
    ensures Filter(p, Filter(q, s)) == Filter(r, s)
  {
    if s != [] {
      FilterTwice(p, q, r, s[1..]);
      var head := if q(s[0]) then [s[0]] else [];
      FilterConcat(p, head, Filter(q, s[1..]));
      FilterShort(p, head);
    }
  }

  lemma {:induction false} FilterMapped<A, B>(f: A -> B, p: B -> bool, r: A -> bool, s: seq<A>)
    requires forall i :: 0 <= i < |s| ==> (p(f(s[i])) <==> r(s[i]))
    ensures Filter(p, Map(f, s)) == Map(f, Filter(r, s))
  {
    if s != [] {
      FilterMapped(f, p, r, s[1..]);
      MapFirst(f, s);
      assert ([f(s[0])] + Map(f, s[1..]))[1..] == Map(f, s[1..]);
      if r(s[0]) {
        assert ([s[0]] + Filter(r, s[1..]))[1..] == Filter(r, s[1..]);
      }
    }
  }

  /** Exactly one element, at `i`, meets the predicate. */
  predicate SoleAt<A>(s: seq<A>, p: A -> bool, i: int) {
    0 <= i < |s| && p(s[i]) && forall j :: 0 <= j < |s| && j != i ==> !p(s[j])
  }

  lemma SoleFiltered<A>(p: A -> bool, s: seq<A>, i: nat)
    requires SoleAt(s, p, i)
    ensures Filter(p, s) == [s[i]]
  {
    assert s == s[..i] + [s[i]] + s[i + 1..];
    FilterConcat(p, s[..i] + [s[i]], s[i + 1..]);
    FilterConcat(p, s[..i], [s[i]]);
    FilterNone(p, s[..i]);
    FilterNone(p, s[i + 1..]);
    FilterShort(p, [s[i]]);
  }

  lemma {:induction false} FilteredSole<A>(p: A -> bool, s: seq<A>) returns (i: nat)
    requires |Filter(p, s)| == 1
    ensures SoleAt(s, p, i)
  {
    if p(s[0]) {
      i := 0;
      FilterMembers(p, s[1..]);
      assert Filter(p, s[1..]) == [];
      assert forall j :: 1 <= j < |s| ==> s[j] in s[1..];
    } else {
      i := FilteredSole(p, s[1..]);
      i := i + 1;
      assert forall j :: 1 <= j < |s| ==> s[j] == s[1..][j - 1];
    }
  }

  lemma FilterShort<A>(p: A -> bool, s: seq<A>)
    requires |s| <= 1
    ensures Filter(p, s) == if s != [] && p(s[0]) then s else []
  {
  }

  lemma FilterSnoc<A>(p: A -> bool, s: seq<A>, x: A)
    ensures Filter(p, s + [x]) == if p(x) then Filter(p, s) + [x] else Filter(p, s)
  {
    FilterConcat(p, s, [x]);
    FilterShort(p, [x]);
  }

  ghost function Indices<A>(p: A -> bool, s: seq<A>): set<nat> {
    set k: nat | k < |s| && p(s[k])
  }

  lemma IndicesSnoc<A>(p: A -> bool, s: seq<A>, x: A)
    ensures |Indices(p, s + [x])| == |Indices(p, s)| + if p(x) then 1 else 0
  {
    assert Indices(p, s + [x]) == Indices(p, s) + if p(x) then {|s|} else {};
  }

  /** Filtering keeps as many elements as there are places where the predicate holds. */
  lemma {:induction false} FilterCounts<A>(p: A -> bool, s: seq<A>)
    ensures |Filter(p, s)| == |Indices(p, s)|
  {
    if s == [] {
      assert Indices(p, s) == {};
    } else {
      var init, last := s[..|s| - 1], s[|s| - 1];
      assert s == init + [last];
      FilterCounts(p, init);
      FilterSnoc(p, init, last);
      IndicesSnoc(p, init, last);
    }
  }

  function FindFirst<A>(p: A -> bool, s: seq<A>): Option<A> {
    if s == [] then None else if p(s[0]) then Some(s[0]) else FindFirst(p, s[1..])
  }

  lemma FindFirstOfOne<A>(p: A -> bool, x: A)
    ensures FindFirst(p, [x]) == if p(x) then Some(x) else None
  {
    assert [x][1..] == [];
  }

  lemma {:induction false} FindFirstMeans<A>(p: A -> bool, s: seq<A>)
    ensures match FindFirst(p, s)
            case None => forall x :: x in s ==> !p(x)
            case Some(x) => x in s && p(x)
  {
    if s != [] {
      FindFirstMeans(p, s[1..]);
      assert s == [s[0]] + s[1..];
    }
  }

  function FlatMap<A, B>(f: A -> seq<B>, s: seq<A>): seq<B> {
    if s == [] then [] else f(s[0]) + FlatMap(f, s[1..])
  }

  lemma {:induction false} FlatMapConcat<A, B>(f: A -> seq<B>, a: seq<A>, b: seq<A>)
    ensures FlatMap(f, a + b) == FlatMap(f, a) + FlatMap(f, b)
  {
    if a == [] {
      assert a + b == b;
    } else {
      calc {
        FlatMap(f, a + b);
        { assert (a + b)[1..] == a[1..] + b && (a + b)[0] == a[0]; }
        f(a[0]) + FlatMap(f, a[1..] + b);
        { FlatMapConcat(f, a[1..], b); }
        f(a[0]) + (FlatMap(f, a[1..]) + FlatMap(f, b));
        FlatMap(f, a) + FlatMap(f, b);
      }
    }
  }

  lemma {:induction false} FlatMapMembers<A, B>(f: A -> seq<B>, s: seq<A>)
    ensures forall y :: y in FlatMap(f, s) <==> exists i :: 0 <= i < |s| && y in f(s[i])
  {
    if s != [] {
      FlatMapMembers(f, s[1..]);
      forall y
        ensures y in FlatMap(f, s) <==> exists i :: 0 <= i < |s| && y in f(s[i])
      {
        if y in FlatMap(f, s[1..]) {
          var i :| 0 <= i < |s[1..]| && y in f(s[1..][i]);
          assert y in f(s[i + 1]);
        }
        if i :| 0 <= i < |s| && y in f(s[i]) {
          assert i > 0 ==> s[1..][i - 1] == s[i];
        }
      }
    }
  }

  lemma FlatMapShort<A, B>(f: A -> seq<B>, s: seq<A>)
    requires |s| <= 1
    ensures FlatMap(f, s) == if s != [] then f(s[0]) else []
  {
  }

  lemma FlatMapSnoc<A, B>(f: A -> seq<B>, s: seq<A>, x: A)
    ensures FlatMap(f, s + [x]) == FlatMap(f, s) + f(x)
  {
    FlatMapConcat(f, s, [x]);
    FlatMapShort(f, [x]);
  }

  lemma RemoveAt<A>(s: seq<A>, j: nat)
    requires j < |s|
    ensures multiset(s) == multiset(s[..j] + s[j + 1..]) + multiset{s[j]}
  {
    assert s == s[..j] + [s[j]] + s[j + 1..];
  }

  lemma Cancel<A(!new)>(a: multiset<A>, b: multiset<A>, x: A)
    requires a + multiset{x} == b + multiset{x}
    ensures a == b
  {
    forall y
      ensures a[y] == b[y]
    {
      assert (a + multiset{x})[y] == (b + multiset{x})[y];
    }
  }

  lemma FlatMapRemoveAt<A, B>(f: A -> seq<B>, s: seq<A>, j: nat)
    requires j < |s|
    ensures multiset(FlatMap(f, s)) == multiset(FlatMap(f, s[..j] + s[j + 1..])) + multiset(f(s[j]))
  {
    hide FlatMap;
    FlatMapConcat(f, s[..j], s[j..]);
    FlatMapConcat(f, s[..j], s[j + 1..]);
    assert s == s[..j] + s[j..];
    FlatMapHead(f, s[j..]);
    assert s[j..][1..] == s[j + 1..];
  }

  lemma FlatMapHead<A, B>(f: A -> seq<B>, s: seq<A>)
    requires s != []
    ensures FlatMap(f, s) == f(s[0]) + FlatMap(f, s[1..])
  {
  }

  /** Removing an element from both of two permutations leaves two permutations. */
  lemma RemovedPermuted<A(!new)>(a: seq<A>, b: seq<A>, j: nat)
    requires multiset(a) == multiset(b) && a != [] && j < |b| && b[j] == a[0]
    ensures multiset(a[1..]) == multiset(b[..j] + b[j + 1..])
  {
    RemoveAt(a, 0);
    RemoveAt(b, j);
    assert a[..0] + a[1..] == a[1..];
    Cancel(multiset(a[1..]), multiset(b[..j] + b[j + 1..]), a[0]);
  }

  lemma PermutedIndex<A>(a: seq<A>, b: seq<A>) returns (j: nat)
    requires multiset(a) == multiset(b) && a != []
    ensures j < |b| && b[j] == a[0]
  {
    assert a[0] in multiset(b);
    j :| 0 <= j < |b| && b[j] == a[0];
  }

  lemma {:induction false} FlatMapPermuted<A(!new), B>(f: A -> seq<B>, a: seq<A>, b: seq<A>)
    requires multiset(a) == multiset(b)
    ensures multiset(FlatMap(f, a)) == multiset(FlatMap(f, b))
    decreases a
  {
    if a == [] {
      assert |multiset(b)| == |b|;
      assert multiset(b) == multiset{};
    } else {
      var j := PermutedIndex(a, b);
      FlatMapHead(f, a);
      FlatMapRemoveAt(f, b, j);
      RemovedPermuted(a, b, j);
      hide FlatMap;
      FlatMapPermuted(f, a[1..], b[..j] + b[j + 1..]);
    }
  }
}
