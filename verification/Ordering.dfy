/** Text order, insertion sort by a total order, and the fact that sorting forgets the input order. */
module Ordering {

  /** Python's ordering of strings: code point by code point, a prefix first. */
  predicate TextLeq(a: string, b: string) {
    if a == "" then true
    else if b == "" then false
    else if a[0] == b[0] then TextLeq(a[1..], b[1..])
    else a[0] < b[0]
  }

  /** The two texts agree up to `n`, where the first one ends or has the smaller character. */
  predicate DecidesAt(a: string, b: string, n: nat) {
    && n <= |a| && n <= |b| && a[..n] == b[..n]
    && (n == |a| || (n < |b| && a[n] < b[n]))
  }

  lemma SharedHead(a: string, b: string, n: nat)
    ensures 0 < n <= |a| && n <= |b| && a[..n] == b[..n] ==> a[0] == b[0]
  {
    if 0 < n <= |a| && n <= |b| && a[..n] == b[..n] {
      assert a[..n][0] == b[..n][0];
    }
  }

  lemma {:induction false} TextLeqMeans(a: string, b: string)
    ensures TextLeq(a, b) <==> exists n: nat :: DecidesAt(a, b, n)
    decreases |a|
  {
    if a == "" {
      assert DecidesAt(a, b, 0);
    } else if b == "" || a[0] != b[0] {
      if TextLeq(a, b) { assert DecidesAt(a, b, 0); }
      if n: nat :| DecidesAt(a, b, n) {
        SharedHead(a, b, n);
      }
    } else {
      TextLeqMeans(a[1..], b[1..]);
      if n: nat :| DecidesAt(a[1..], b[1..], n) {
        assert a[..n + 1] == [a[0]] + a[1..][..n] && b[..n + 1] == [b[0]] + b[1..][..n];
        assert DecidesAt(a, b, n + 1);
      }
      if n: nat :| DecidesAt(a, b, n) {
        if n == 0 {
          assert false;
        } else {
          assert a[1..][..n - 1] == a[..n][1..] && b[1..][..n - 1] == b[..n][1..];
          assert DecidesAt(a[1..], b[1..], n - 1);
        }
      }
    }
  }

  lemma {:induction false} TextLeqTotal(a: string, b: string)
    ensures TextLeq(a, b) || TextLeq(b, a)
    ensures TextLeq(a, b) && TextLeq(b, a) ==> a == b
  {
    if a == "" || b == "" {
    } else if a[0] == b[0] {
      TextLeqTotal(a[1..], b[1..]);
      assert a == [a[0]] + a[1..] && b == [b[0]] + b[1..];
    }
  }

  lemma {:induction false} TextLeqTransitive(a: string, b: string, c: string)
    requires TextLeq(a, b) && TextLeq(b, c)
    ensures TextLeq(a, c)
  {
    if a == "" || b == "" || c == "" {
    } else if a[0] == b[0] == c[0] {
      TextLeqTransitive(a[1..], b[1..], c[1..]);
    }
  }

  /** `leq` orders any two values and never two different ones both ways. */
  ghost predicate TotalOrder<T(!new)>(leq: (T, T) -> bool) {
    && (forall a, b :: leq(a, b) || leq(b, a))
    && (forall a, b, c :: leq(a, b) && leq(b, c) ==> leq(a, c))
  }

  ghost predicate Sorted<T>(xs: seq<T>, leq: (T, T) -> bool) {
    forall i, j | 0 <= i < j < |xs| :: leq(xs[i], xs[j])
  }

  /** No two different members of `xs` are tied under `leq`. */
  ghost predicate NoTies<T>(xs: seq<T>, leq: (T, T) -> bool) {
    forall a, b | a in xs && b in xs && leq(a, b) && leq(b, a) :: a == b
  }

  /** No name stands for two different members. */
  ghost predicate IdsName<T(!new)>(xs: seq<T>, id: T -> string) {
    forall a, b | a in xs && b in xs && id(a) == id(b) :: a == b
  }

  /** Each name once. */
  ghost predicate DistinctIds<T>(xs: seq<T>, id: T -> string) {
    forall i, j | 0 <= i < j < |xs| :: id(xs[i]) != id(xs[j])
  }

  function Insert<T>(x: T, xs: seq<T>, leq: (T, T) -> bool): seq<T> {
    if xs == [] then [x]
    else if leq(x, xs[0]) then [x] + xs
    else [xs[0]] + Insert(x, xs[1..], leq)
  }

  /** Python's `sorted` with the comparison that its key induces. */
  function Sort<T>(xs: seq<T>, leq: (T, T) -> bool): seq<T> {
    if xs == [] then [] else Insert(xs[0], Sort(xs[1..], leq), leq)
  }

  lemma {:induction false} InsertAdds<T>(x: T, xs: seq<T>, leq: (T, T) -> bool)
    ensures multiset(Insert(x, xs, leq)) == multiset{x} + multiset(xs)
    ensures |Insert(x, xs, leq)| == |xs| + 1
  {
    if xs != [] && !leq(x, xs[0]) {
      InsertAdds(x, xs[1..], leq);
      assert xs == [xs[0]] + xs[1..];
    }
  }

  lemma SortedCons<T>(x: T, xs: seq<T>, leq: (T, T) -> bool)
    requires Sorted(xs, leq) && forall k | 0 <= k < |xs| :: leq(x, xs[k])
    ensures Sorted([x] + xs, leq)
  {
  }

  lemma {:induction false} InsertSorts<T(!new)>(x: T, xs: seq<T>, leq: (T, T) -> bool)
    requires TotalOrder(leq) && Sorted(xs, leq)
    ensures Sorted(Insert(x, xs, leq), leq)
    ensures multiset(Insert(x, xs, leq)) == multiset{x} + multiset(xs)
    ensures |Insert(x, xs, leq)| == |xs| + 1
  {
    InsertAdds(x, xs, leq);
    if xs != [] {
      if leq(x, xs[0]) {
        SortedCons(x, xs, leq);
      } else {
        InsertSorts(x, xs[1..], leq);
        var tail := Insert(x, xs[1..], leq);
        forall k | 0 <= k < |tail| ensures leq(xs[0], tail[k]) {
          assert tail[k] in multiset(tail);
          assert tail[k] == x || tail[k] in xs[1..];
        }
        SortedCons(xs[0], tail, leq);
      }
    }
  }

  lemma EmptyIsSorted<T>(leq: (T, T) -> bool)
    ensures Sorted([], leq)
  {
  }

  lemma {:induction false} SortSorts<T(!new)>(xs: seq<T>, leq: (T, T) -> bool)
    requires TotalOrder(leq)
    ensures Sorted(Sort(xs, leq), leq)
    ensures multiset(Sort(xs, leq)) == multiset(xs)
    ensures |Sort(xs, leq)| == |xs|
  {
    hide TotalOrder, Sorted, Insert;
    if xs == [] {
      EmptyIsSorted(leq);
    } else {
      SortSorts(xs[1..], leq);
      InsertSorts(xs[0], Sort(xs[1..], leq), leq);
      assert xs == [xs[0]] + xs[1..];
    }
  }

  lemma MembersOfMultiset<T>(xs: seq<T>, ys: seq<T>)
    requires multiset(xs) == multiset(ys)
    ensures forall x :: x in xs <==> x in ys
    ensures |xs| == |ys|
  {
    forall x ensures x in xs <==> x in ys {
      assert x in xs <==> x in multiset(xs);
    }
    assert |multiset(xs)| == |multiset(ys)|;
  }

  lemma TwoPlaces<T>(xs: seq<T>, i: nat, j: nat)
    requires i < j < |xs| && xs[i] == xs[j]
    ensures multiset(xs)[xs[i]] >= 2
  {
    var x := xs[i];
    assert xs == xs[..i] + [x] + xs[i + 1..j] + [x] + xs[j + 1..];
  }

  lemma {:induction false} OccursOnce<T>(xs: seq<T>, id: T -> string, x: T)
    requires DistinctIds(xs, id)
    ensures multiset(xs)[x] <= 1
    decreases |xs|
  {
    if xs != [] {
      var n := |xs| - 1;
      OccursOnce(xs[..n], id, x);
      assert xs == xs[..n] + [xs[n]];
      if x == xs[n] {
        assert forall i | 0 <= i < n :: id(xs[i]) != id(x);
        assert x !in xs[..n];
      }
    }
  }

  /** A selection of members with distinct names, in any order, has distinct names. */
  lemma DistinctStays<T(!new)>(xs: seq<T>, id: T -> string, selected: seq<T>)
    requires DistinctIds(xs, id) && forall x :: multiset(selected)[x] <= multiset(xs)[x]
    ensures DistinctIds(selected, id)
  {
    forall i, j | 0 <= i < j < |selected| ensures id(selected[i]) != id(selected[j]) {
      var a, b := selected[i], selected[j];
      assert a in multiset(selected) && b in multiset(selected);
      assert a in multiset(xs) && b in multiset(xs);
      assert a in xs && b in xs;
      if a == b {
        TwoPlaces(selected, i, j);
        OccursOnce(xs, id, a);
      }
    }
  }

  lemma LastIsGreatest<T(!new)>(zs: seq<T>, z: T, leq: (T, T) -> bool)
    requires TotalOrder(leq) && Sorted(zs, leq) && z in zs
    ensures leq(z, zs[|zs| - 1])
  {
    var i :| 0 <= i < |zs| && zs[i] == z;
    assert i == |zs| - 1 || leq(zs[i], zs[|zs| - 1]);
  }

  lemma WithoutLast<T>(zs: seq<T>)
    requires zs != []
    ensures multiset(zs[..|zs| - 1]) == multiset(zs) - multiset{zs[|zs| - 1]}
  {
    assert zs == zs[..|zs| - 1] + [zs[|zs| - 1]];
  }

  lemma NotTied<T>(zs: seq<T>, a: T, b: T, leq: (T, T) -> bool)
    requires NoTies(zs, leq) && a in zs && b in zs && leq(a, b) && leq(b, a)
    ensures a == b
  {
  }

  lemma InitKeeps<T>(zs: seq<T>, leq: (T, T) -> bool)
    requires zs != [] && Sorted(zs, leq)
    ensures Sorted(zs[..|zs| - 1], leq)
  {
  }

  lemma FewerTies<T>(zs: seq<T>, leq: (T, T) -> bool)
    requires zs != [] && NoTies(zs, leq)
    ensures NoTies(zs[..|zs| - 1], leq)
  {
  }

  /** Two sorted arrangements of the same contents agree from the greatest member down, unless members tie. */
  lemma {:induction false} SortedTwice<T(!new)>(xs: seq<T>, ys: seq<T>, leq: (T, T) -> bool)
    requires TotalOrder(leq) && NoTies(xs, leq)
    requires Sorted(xs, leq) && Sorted(ys, leq) && multiset(xs) == multiset(ys)
    ensures xs == ys
    decreases |xs|
  {
    hide TotalOrder, Sorted, NoTies;
    MembersOfMultiset(xs, ys);
    if xs == [] {
    } else {
      var n := |xs| - 1;
      LastIsGreatest(ys, xs[n], leq);
      LastIsGreatest(xs, ys[n], leq);
      NotTied(xs, xs[n], ys[n], leq);
      WithoutLast(xs);
      WithoutLast(ys);
      InitKeeps(xs, leq);
      InitKeeps(ys, leq);
      FewerTies(xs, leq);
      SortedTwice(xs[..n], ys[..n], leq);
      assert xs == xs[..n] + [xs[n]] && ys == ys[..n] + [ys[n]];
    }
  }

  /** Sorting depends on the contents only, not on the arrangement it was given. */
  lemma SortForgetsOrder<T(!new)>(xs: seq<T>, ys: seq<T>, leq: (T, T) -> bool)
    requires TotalOrder(leq) && NoTies(xs, leq) && multiset(xs) == multiset(ys)
    ensures Sort(xs, leq) == Sort(ys, leq)
  {
    SortSorts(xs, leq);
    SortSorts(ys, leq);
    MembersOfMultiset(xs, Sort(xs, leq));
    SortedTwice(Sort(xs, leq), Sort(ys, leq), leq);
  }

  /** The least identifier of a non-empty set. */
  function Least(ids: set<string>): (id: string)
    requires ids != {}
    ensures id in ids && forall other | other in ids :: TextLeq(id, other)
  {
    LeastExists(ids);
    LeastUnique(ids);
    var id :| id in ids && forall other | other in ids :: TextLeq(id, other);
    id
  }

  lemma LeastUnique(ids: set<string>)
    ensures forall a, b | a in ids && b in ids && (forall o | o in ids :: TextLeq(a, o))
            && (forall o | o in ids :: TextLeq(b, o)) :: a == b
  {
    forall a, b | a in ids && b in ids && (forall o | o in ids :: TextLeq(a, o))
      && (forall o | o in ids :: TextLeq(b, o))
      ensures a == b
    {
      TextLeqTotal(a, b);
    }
  }

  lemma {:induction false} LeastExists(ids: set<string>)
    requires ids != {}
    ensures exists id :: id in ids && forall other | other in ids :: TextLeq(id, other)
    decreases |ids|
  {
    var x :| x in ids;
    TextLeqTotal(x, x);
    if ids == {x} {
      assert x in ids && forall other | other in ids :: TextLeq(x, other);
    } else {
      var rest := ids - {x};
      assert ids == rest + {x};
      LeastExists(rest);
      var m :| m in rest && forall other | other in rest :: TextLeq(m, other);
      TextLeqTotal(x, m);
      if TextLeq(m, x) {
        assert m in ids && forall other | other in ids :: TextLeq(m, other);
      } else {
        forall other | other in ids ensures TextLeq(x, other) {
          if other != x { TextLeqTransitive(x, m, other); }
        }
        assert x in ids && forall other | other in ids :: TextLeq(x, other);
      }
    }
  }

  /** Python's `sorted` of the keys of a dictionary. */
  function SortedIds(ids: set<string>): (sorted: seq<string>)
    decreases |ids|
    ensures |sorted| == |ids|
    ensures forall id :: id in sorted <==> id in ids
  {
    if ids == {} then []
    else
      var first := Least(ids);
      [first] + SortedIds(ids - {first})
  }

  lemma {:induction false} SortedIdsAscending(ids: set<string>)
    ensures Ascending(SortedIds(ids))
    decreases |ids|
  {
    hide TextLeq, Ascending;
    if ids == {} {
      NothingAscends();
    } else {
      var first := Least(ids);
      SortedIdsAscending(ids - {first});
      AscendingCons(first, SortedIds(ids - {first}));
    }
  }

  /** Strictly ascending text. */
  ghost predicate Ascending(ids: seq<string>) {
    forall i, j | 0 <= i < j < |ids| :: ids[i] != ids[j] && TextLeq(ids[i], ids[j])
  }

  lemma NothingAscends()
    ensures Ascending([])
  {
  }

  lemma AscendingCons(first: string, rest: seq<string>)
    requires Ascending(rest) && first !in rest && forall id | id in rest :: TextLeq(first, id)
    ensures Ascending([first] + rest)
  {
    hide TextLeq;
    assert forall k | 0 <= k < |rest| :: rest[k] in rest;
  }
}
