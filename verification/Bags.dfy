/**
 Bookkeeping shared by the protocol models: the bag (multiset) of integers in
 an interval, and sums of weights over a sequence of processes. The protocols state
 conservation element by element: how many copies there are, summed over the places.
 */
module Bags {

  datatype Option<+T> = None | Some(value: T)

  /** The bag holding every integer of [lo, hi) once. */
  function Interval(lo: int, hi: int): multiset<int>
    decreases hi - lo
  {
    if lo >= hi then multiset{} else multiset{lo} + Interval(lo + 1, hi)
  }

  lemma {:induction false} IntervalCount(lo: int, hi: int, x: int)
    ensures Interval(lo, hi)[x] == if lo <= x < hi then 1 else 0
    decreases hi - lo
  {
    if lo < hi {
      IntervalCount(lo + 1, hi, x);
    }
  }

  lemma {:induction false} IntervalSize(lo: int, hi: int)
    requires lo <= hi
    ensures |Interval(lo, hi)| == hi - lo
    decreases hi - lo
  {
    if lo < hi {
      IntervalSize(lo + 1, hi);
    }
  }

  lemma IntervalSplit(lo: int, mid: int, hi: int)
    requires lo <= mid <= hi
    ensures Interval(lo, mid) + Interval(mid, hi) == Interval(lo, hi)
  {
    forall x
      ensures (Interval(lo, mid) + Interval(mid, hi))[x] == Interval(lo, hi)[x]
    {
      IntervalCount(lo, mid, x);
      IntervalCount(mid, hi, x);
      IntervalCount(lo, hi, x);
    }
  }

  /** The sum of the weights that `f` assigns to the members of `ws`. */
  ghost function Weight<W>(f: W -> nat, ws: seq<W>): nat {
    if ws == [] then 0 else f(ws[0]) + Weight(f, ws[1..])
  }

  lemma {:induction false} WeightUpdate<W>(f: W -> nat, ws: seq<W>, i: nat, w: W)
    requires i < |ws|
    ensures Weight(f, ws[i := w]) + f(ws[i]) == Weight(f, ws) + f(w)
  {
    if i == 0 {
      assert ws[i := w][1..] == ws[1..];
    } else {
      assert ws[i := w][1..] == ws[1..][i - 1 := w];
      WeightUpdate(f, ws[1..], i - 1, w);
    }
  }

  lemma {:induction false} WeightAppend<W>(f: W -> nat, ws: seq<W>, w: W)
    ensures Weight(f, ws + [w]) == Weight(f, ws) + f(w)
  {
    if ws == [] {
      assert ws + [w] == [w] && [w][1..] == [];
    } else {
      assert (ws + [w])[1..] == ws[1..] + [w];
      WeightAppend(f, ws[1..], w);
    }
  }

  lemma {:induction false} WeightZero<W>(f: W -> nat, ws: seq<W>)
    requires forall i :: 0 <= i < |ws| ==> f(ws[i]) == 0
    ensures Weight(f, ws) == 0
  {
    if ws != [] {
      assert f(ws[0]) == 0;
      WeightZero(f, ws[1..]);
    }
  }

  lemma {:induction false} WeightContains<W>(f: W -> nat, ws: seq<W>, i: nat)
    requires i < |ws|
    ensures f(ws[i]) <= Weight(f, ws)
  {
    if i > 0 {
      WeightContains(f, ws[1..], i - 1);
      assert ws[1..][i - 1] == ws[i];
    }
  }

  /** A bag that holds every integer of an interval once is the interval. */
  lemma IsInterval(b: multiset<int>, n: nat)
    requires forall p :: b[p] == if 0 <= p < n then 1 else 0
    ensures b == Interval(0, n) && |b| == n
  {
    forall p
      ensures b[p] == Interval(0, n)[p]
    {
      IntervalCount(0, n, p);
    }
    IntervalSize(0, n);
  }

  /** A bag without repetitions within an interval is no larger, and the whole interval if as large. */
  lemma WithinInterval(b: multiset<int>, n: nat)
    requires forall p :: b[p] <= if 0 <= p < n then 1 else 0
    ensures |b| <= n
    ensures |b| == n ==> b == Interval(0, n)
  {
    var all := Interval(0, n);
    forall p
      ensures b[p] <= all[p]
    {
      IntervalCount(0, n, p);
    }
    IntervalSize(0, n);
    assert all == b + (all - b);
  }

  /** Applying `f` to each element. */
  ghost function Image<A, B>(f: A -> B, s: seq<A>): seq<B> {
    seq(|s|, i requires 0 <= i < |s| => f(s[i]))
  }

  /** `s` without the element at index `k`. */
  function Without<A>(s: seq<A>, k: nat): seq<A>
    requires k < |s|
  {
    s[..k] + s[k + 1..]
  }

  lemma WithoutBag<A>(s: seq<A>, k: nat)
    requires k < |s|
    ensures multiset(s) == multiset(Without(s, k)) + multiset{s[k]}
  {
    assert s == s[..k] + [s[k]] + s[k + 1..];
  }

  lemma ImageWithout<A, B>(f: A -> B, s: seq<A>, k: nat)
    requires k < |s|
    ensures multiset(Image(f, s)) == multiset(Image(f, Without(s, k))) + multiset{f(s[k])}
  {
    assert Image(f, Without(s, k)) == Without(Image(f, s), k);
    WithoutBag(Image(f, s), k);
  }

  /** Images of two arrangements of the same bag are arrangements of one bag. */
  lemma {:induction false} ImageBag<A, B>(f: A -> B, s: seq<A>, t: seq<A>)
    requires multiset(s) == multiset(t)
    ensures multiset(Image(f, s)) == multiset(Image(f, t))
    decreases |s|
  {
    if s == [] {
      assert |multiset(t)| == 0;
      assert Image(f, t) == [] == Image(f, s);
    } else {
      assert s[0] in multiset(s) && s[0] in multiset(t);
      var k :| 0 <= k < |t| && t[k] == s[0];
      WithoutBag(s, 0);
      WithoutBag(t, k);
      assert multiset(Without(s, 0)) == multiset(s) - multiset{s[0]} == multiset(Without(t, k));
      ImageWithout(f, s, 0);
      ImageWithout(f, t, k);
      ImageBag(f, Without(s, 0), Without(t, k));
    }
  }
}
