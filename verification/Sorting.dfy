/** Python's stable `sorted`, as a function, with the facts the models need. */
module Sorting {

  predicate Sorted<T>(xs: seq<T>, le: (T, T) -> bool) {
    forall i, j :: 0 <= i < j < |xs| ==> le(xs[i], xs[j])
  }

  /** `le` is total and transitive on the elements of `xs`. */
  ghost predicate OrdersAll<T(!new)>(le: (T, T) -> bool) {
    && (forall a, b :: le(a, b) || le(b, a))
    && (forall a, b, c :: le(a, b) && le(b, c) ==> le(a, c))
  }

  /** Puts `x` before the first element that is not below it. */
  function Insert<T>(x: T, xs: seq<T>, le: (T, T) -> bool): seq<T> {
    if xs == [] || le(x, xs[0]) then [x] + xs else [xs[0]] + Insert(x, xs[1..], le)
  }

  function Sort<T>(xs: seq<T>, le: (T, T) -> bool): seq<T> {
    if xs == [] then [] else Insert(xs[0], Sort(xs[1..], le), le)
  }

  lemma {:induction false} InsertMultiset<T>(x: T, xs: seq<T>, le: (T, T) -> bool)
    ensures multiset(Insert(x, xs, le)) == multiset(xs) + multiset{x}
    ensures |Insert(x, xs, le)| == |xs| + 1
  {
    if xs == [] || le(x, xs[0]) {
    } else {
      InsertMultiset(x, xs[1..], le);
      assert xs == [xs[0]] + xs[1..];
    }
  }

  lemma {:induction false} SortMultiset<T>(xs: seq<T>, le: (T, T) -> bool)
    ensures multiset(Sort(xs, le)) == multiset(xs)
    ensures |Sort(xs, le)| == |xs|
  {
    if xs != [] {
      SortMultiset(xs[1..], le);
      InsertMultiset(xs[0], Sort(xs[1..], le), le);
      assert xs == [xs[0]] + xs[1..];
    }
  }

  lemma {:induction false} InsertSorted<T(!new)>(x: T, xs: seq<T>, le: (T, T) -> bool)
    requires OrdersAll(le) && Sorted(xs, le)
    ensures Sorted(Insert(x, xs, le), le)
  {
    if xs == [] || le(x, xs[0]) {
      forall j | 0 <= j < |xs| ensures le(x, xs[j]) {
        assert le(x, xs[0]) && (j == 0 || le(xs[0], xs[j]));
      }
    } else {
      var rest := Insert(x, xs[1..], le);
      InsertSorted(x, xs[1..], le);
      InsertMultiset(x, xs[1..], le);
      forall j | 0 <= j < |rest| ensures le(xs[0], rest[j]) {
        assert rest[j] in multiset(rest);
        assert rest[j] == x || rest[j] in xs[1..];
      }
    }
  }

  lemma {:induction false} SortSorted<T(!new)>(xs: seq<T>, le: (T, T) -> bool)
    requires OrdersAll(le)
    ensures Sorted(Sort(xs, le), le)
  {
    if xs != [] {
      SortSorted(xs[1..], le);
      InsertSorted(xs[0], Sort(xs[1..], le), le);
    }
  }

  /** No two elements tie. */
  ghost predicate NoTies<T>(xs: seq<T>, le: (T, T) -> bool) {
    forall i, j :: 0 <= i < |xs| && 0 <= j < |xs| && le(xs[i], xs[j]) && le(xs[j], xs[i]) ==> xs[i] == xs[j]
  }

  lemma SameHead<T(!new)>(xs: seq<T>, ys: seq<T>, le: (T, T) -> bool)
    requires Sorted(xs, le) && Sorted(ys, le) && OrdersAll(le)
    requires NoTies(xs, le)
    requires xs != [] && ys != [] && multiset(xs) == multiset(ys)
    ensures xs[0] == ys[0]
  {
    assert ys[0] in multiset(xs) && xs[0] in multiset(ys);
    var i: nat :| i < |xs| && xs[i] == ys[0];
    var j: nat :| j < |ys| && ys[j] == xs[0];
    assert le(xs[0], xs[i]);
    assert le(ys[0], ys[j]);
  }

  lemma TailMultiset<T>(xs: seq<T>)
    requires xs != []
    ensures multiset(xs[1..]) == multiset(xs) - multiset{xs[0]}
  {
    assert xs == [xs[0]] + xs[1..];
  }

  /** When distinct elements never tie, a multiset has one sorted arrangement. */
  lemma {:induction false} SortedUnique<T(!new)>(xs: seq<T>, ys: seq<T>, le: (T, T) -> bool)
    requires Sorted(xs, le) && Sorted(ys, le) && OrdersAll(le)
    requires NoTies(xs, le)
    requires multiset(xs) == multiset(ys)
    ensures xs == ys
  {
    assert |multiset(xs)| == |xs| && |multiset(ys)| == |ys|;
    if xs != [] {
      SameHead(xs, ys, le);
      TailMultiset(xs);
      TailMultiset(ys);
      SortedUnique(xs[1..], ys[1..], le);
      assert xs == [xs[0]] + xs[1..] && ys == [ys[0]] + ys[1..];
    }
  }

  /** Sorting forgets the input order when distinct elements never tie. */
  lemma SortForgetsOrder<T(!new)>(xs: seq<T>, ys: seq<T>, le: (T, T) -> bool)
    requires OrdersAll(le) && NoTies(xs, le)
    requires multiset(xs) == multiset(ys)
    ensures Sort(xs, le) == Sort(ys, le)
  {
    SortSorted(xs, le);
    SortSorted(ys, le);
    SortMultiset(xs, le);
    SortMultiset(ys, le);
    var s := Sort(xs, le);
    assert NoTies(s, le) by {
      forall i, j | 0 <= i < |s| && 0 <= j < |s| && le(s[i], s[j]) && le(s[j], s[i]) ensures s[i] == s[j] {
        assert s[i] in multiset(xs) && s[j] in multiset(xs);
        var p: nat :| p < |xs| && xs[p] == s[i];
        var q: nat :| q < |xs| && xs[q] == s[j];
      }
    }
    SortedUnique(s, Sort(ys, le), le);
  }
}
