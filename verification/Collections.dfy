/** Small sequence vocabulary shared by the other modules. */
module Collections {

  datatype Option<+T> = None | Some(value: T)

  /** The elements of `xs` that satisfy `keep`, in order: a list comprehension. */
  function Select<T(!new)>(xs: seq<T>, keep: T -> bool): (r: seq<T>)
    ensures forall x :: x in r <==> x in xs && keep(x)
    ensures |r| <= |xs|
  {
    if xs == [] then []
    else (if keep(xs[0]) then [xs[0]] else []) + Select(xs[1..], keep)
  }

  lemma SelectAppend<T(!new)>(xs: seq<T>, ys: seq<T>, keep: T -> bool)
    ensures Select(xs + ys, keep) == Select(xs, keep) + Select(ys, keep)
  {
    if xs == [] {
      assert xs + ys == ys;
    } else {
      assert (xs + ys)[1..] == xs[1..] + ys;
      SelectAppend(xs[1..], ys, keep);
    }
  }

  lemma SelectNone<T(!new)>(xs: seq<T>, keep: T -> bool)
    requires forall x | x in xs :: !keep(x)
    ensures Select(xs, keep) == []
  {
    if xs != [] {
      assert xs == [xs[0]] + xs[1..];
      SelectNone(xs[1..], keep);
    }
  }

  /** What a selection starts with is the earliest element that qualifies. */
  lemma SelectFirst<T(!new)>(xs: seq<T>, keep: T -> bool) returns (i: nat)
    requires Select(xs, keep) != []
    ensures i < |xs| && xs[i] == Select(xs, keep)[0] && forall j | 0 <= j < i :: !keep(xs[j])
  {
    i := 0;
    if !keep(xs[0]) {
      var k := SelectFirst(xs[1..], keep);
      i := k + 1;
    }
  }

  function RemoveAt<T>(xs: seq<T>, i: nat): (r: seq<T>)
    requires i < |xs|
  {
    xs[..i] + xs[i + 1..]
  }

  lemma RemoveAtMultiset<T>(xs: seq<T>, i: nat)
    requires i < |xs|
    ensures multiset(xs) == multiset(RemoveAt(xs, i)) + multiset{xs[i]}
  {
    assert xs == xs[..i] + [xs[i]] + xs[i + 1..];
  }

  /** Position chosen among `n` pending items by the next of `picks` (the oldest if there is none). */
  function Pick(picks: seq<nat>, n: nat): (i: nat)
    requires n > 0
    ensures i < n
  {
    if picks == [] || picks[0] >= n then 0 else picks[0]
  }

  function Rest(picks: seq<nat>): seq<nat> {
    if picks == [] then [] else picks[1..]
  }

  /** The order in which concurrently running items complete, as decided by `picks`. */
  function Arrange<T>(xs: seq<T>, picks: seq<nat>): (r: seq<T>)
    ensures |r| == |xs|
    decreases |xs|
  {
    if xs == [] then []
    else
      var i := Pick(picks, |xs|);
      [xs[i]] + Arrange(RemoveAt(xs, i), Rest(picks))
  }

  /** Whatever the picks, every item completes exactly once. */
  lemma {:induction false} ArrangePermutes<T>(xs: seq<T>, picks: seq<nat>)
    ensures multiset(Arrange(xs, picks)) == multiset(xs)
    decreases |xs|
  {
    if xs != [] {
      var i := Pick(picks, |xs|);
      RemoveAtMultiset(xs, i);
      ArrangePermutes(RemoveAt(xs, i), Rest(picks));
    }
  }

  lemma ArrangeFirst<T>(xs: seq<T>, i: nat, picks: seq<nat>)
    requires i < |xs|
    ensures Arrange(xs, [i] + picks) == [xs[i]] + Arrange(RemoveAt(xs, i), picks)
  {
    assert ([i] + picks)[0] == i && ([i] + picks)[1..] == picks;
  }

  lemma RemoveMatching<T>(xs: seq<T>, order: seq<T>) returns (i: nat)
    requires multiset(xs) == multiset(order) && xs != []
    ensures i < |xs| && order != [] && xs[i] == order[0]
    ensures multiset(RemoveAt(xs, i)) == multiset(order[1..])
  {
    assert |multiset(xs)| == |xs| && |multiset(order)| == |order|;
    assert order[0] in multiset(xs);
    i :| 0 <= i < |xs| && xs[i] == order[0];
    RemoveAtMultiset(xs, i);
    assert order == [order[0]] + order[1..];
    assert multiset(RemoveAt(xs, i)) == multiset(xs) - multiset{order[0]};
  }

  /** And every permutation is the completion order of some picks. */
  lemma {:induction false} ArrangeReachesEveryOrder<T>(xs: seq<T>, order: seq<T>) returns (picks: seq<nat>)
    requires multiset(xs) == multiset(order)
    ensures Arrange(xs, picks) == order
    decreases |xs|
  {
    picks := [];
    if xs == [] {
      assert |multiset(xs)| == 0 && |multiset(order)| == |order|;
    } else {
      var i := RemoveMatching(xs, order);
      var tail := ArrangeReachesEveryOrder(RemoveAt(xs, i), order[1..]);
      picks := [i] + tail;
      ArrangeFirst(xs, i, tail);
    }
  }

  lemma SameMembers<T(!new)>(xs: seq<T>, ys: seq<T>)
    requires multiset(xs) == multiset(ys)
    ensures |xs| == |ys|
    ensures forall x :: x in xs <==> x in ys
  {
    assert |multiset(xs)| == |xs| && |multiset(ys)| == |ys|;
    forall x ensures x in xs <==> x in ys {
      assert x in xs <==> x in multiset(xs);
      assert x in ys <==> x in multiset(ys);
    }
  }

  /*** strings in order ***/

  /** Lexicographic order, by code point. */
  predicate InOrder(a: string, b: string) {
    a == [] || (b != [] && (a[0] < b[0] || (a[0] == b[0] && InOrder(a[1..], b[1..]))))
  }

  lemma {:induction false} InOrderTotal(a: string, b: string)
    ensures InOrder(a, b) || InOrder(b, a)
  {
    if a != [] && b != [] { InOrderTotal(a[1..], b[1..]); }
  }

  lemma {:induction false} InOrderTransitive(a: string, b: string, c: string)
    requires InOrder(a, b) && InOrder(b, c)
    ensures InOrder(a, c)
  {
    if a != [] && a[0] == b[0] && b[0] == c[0] { InOrderTransitive(a[1..], b[1..], c[1..]); }
  }

  predicate Ordered(xs: seq<string>) {
    forall i, j | 0 <= i < j < |xs| :: InOrder(xs[i], xs[j])
  }

  function InsertInOrder(x: string, xs: seq<string>): (r: seq<string>)
    ensures multiset(r) == multiset(xs) + multiset{x}
  {
    if xs == [] || InOrder(x, xs[0]) then
      [x] + xs
    else
      assert xs == [xs[0]] + xs[1..];
      [xs[0]] + InsertInOrder(x, xs[1..])
  }

  /** The same strings in lexicographic order. */
  function Sorted(xs: seq<string>): (r: seq<string>)
    ensures Ordered(r) && multiset(r) == multiset(xs)
  {
    if xs == [] then []
    else
      assert xs == [xs[0]] + xs[1..];
      InsertOrdered(xs[0], Sorted(xs[1..]));
      InsertInOrder(xs[0], Sorted(xs[1..]))
  }

  lemma {:induction false} InsertOrdered(x: string, xs: seq<string>)
    requires Ordered(xs)
    ensures Ordered(InsertInOrder(x, xs))
  {
    if xs == [] {
    } else if InOrder(x, xs[0]) {
      forall j | 0 <= j < |xs| ensures InOrder(x, xs[j]) {
        if j > 0 { InOrderTransitive(x, xs[0], xs[j]); }
      }
    } else {
      var tail := InsertInOrder(x, xs[1..]);
      assert forall i | 0 <= i < |xs[1..]| :: xs[1..][i] == xs[i + 1];
      InsertOrdered(x, xs[1..]);
      InOrderTotal(x, xs[0]);
      forall j | 0 <= j < |tail| ensures InOrder(xs[0], tail[j]) {
        assert tail[j] in multiset(tail);
        assert tail[j] == x || tail[j] in xs[1..];
      }
    }
  }
}
