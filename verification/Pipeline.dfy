/**
 tools/stream/pipelinestream.go: a stream pulls each element through its whole
 chain of closures before it looks at the next one. The closures of `Limit` carry a
 counter, those of `Peek` call a function, here recorded as the list of what it was
 called with.

 The meaning of a chain is given stage by stage, each stage taking the whole list
 that the one before it let through. Pulling the elements one by one through all
 stages turns out to be the same.
 */
module Pipeline {
  import PQ = PriorityQueue

  /** A closure in `progresses` with the variables it has captured. */
  datatype Stage<!T> =
    | Filter(keep: T -> bool)
    | Peek(seen: seq<T>)
    | Limit(bound: int, index: int)
    | Skip(bound: int, index: int)

  datatype Called<!T> = Called(stage: Stage<T>, ok: bool)

  datatype Outcome<!T> = Outcome(stages: seq<Stage<T>>, out: seq<T>)

  /** One call of a closure. */
  function Call<T>(st: Stage<T>, e: T): Called<T> {
    match st
    case Filter(keep) => Called(st, keep(e))
    case Peek(seen) => Called(Peek(seen + [e]), true)
    case Limit(bound, index) => if index < bound then Called(Limit(bound, index + 1), true) else Called(st, false)
    case Skip(bound, index) => Called(st, index != bound)
  }

  // ---------- Stage by stage ----------

  function Kept<T>(keep: T -> bool, s: seq<T>): seq<T> {
    if s == [] then []
    else if keep(s[|s| - 1]) then Kept(keep, s[..|s| - 1]) + [s[|s| - 1]] else Kept(keep, s[..|s| - 1])
  }

  /** How many of `n` elements a stage that may still let `left` through lets through. */
  function Room(left: int, n: nat): (r: nat)
    ensures r <= n
  {
    if left <= 0 then 0 else if left < n then left else n
  }

  /** One stage applied to a whole list. */
  function Whole<T>(st: Stage<T>, s: seq<T>): (r: Outcome<T>)
    ensures |r.stages| == 1
  {
    match st
    case Filter(keep) => Outcome([st], Kept(keep, s))
    case Peek(seen) => Outcome([Peek(seen + s)], s)
    case Limit(bound, index) =>
      var k := Room(bound - index, |s|); Outcome([Limit(bound, index + k)], s[..k])
    case Skip(bound, index) => Outcome([st], if index == bound then [] else s)
  }

  /** Each stage applied to what the one before it let through. */
  function Staged<T>(stages: seq<Stage<T>>, s: seq<T>): (r: Outcome<T>)
    ensures |r.stages| == |stages|
  {
    if stages == [] then Outcome([], s) else
      var first := Whole(stages[0], s);
      var rest := Staged(stages[1..], first.out);
      Outcome(first.stages + rest.stages, rest.out)
  }

  // ---------- Element by element ----------

  /** The element `e` through all the stages, up to the first that rejects it. */
  function One<T>(stages: seq<Stage<T>>, e: T): (r: Outcome<T>)
    ensures |r.stages| == |stages| && (r.out == [] || r.out == [e])
  {
    if stages == [] then Outcome([], [e]) else
      var c := Call(stages[0], e);
      if c.ok then var rest := One(stages[1..], e); Outcome([c.stage] + rest.stages, rest.out)
      else Outcome([c.stage] + stages[1..], [])
  }

  function Fused<T>(stages: seq<Stage<T>>, s: seq<T>): (r: Outcome<T>)
    ensures |r.stages| == |stages|
  {
    if s == [] then Outcome(stages, []) else
      var before := Fused(stages, s[..|s| - 1]);
      var last := One(before.stages, s[|s| - 1]);
      Outcome(last.stages, before.out + last.out)
  }

  lemma {:induction false} FusedNone<T>(s: seq<T>)
    ensures Fused<T>([], s) == Outcome([], s)
  {
    if s != [] {
      FusedNone(s[..|s| - 1]);
      assert s == s[..|s| - 1] + [s[|s| - 1]];
    }
  }

  /** A step of the loop over the stages, `done` of which have been called. */
  lemma OneMore<T>(done: seq<Stage<T>>, rest: seq<Stage<T>>, e: T)
    requires rest != []
    ensures var c := Call(rest[0], e);
            && (done + rest)[|done| := c.stage] == (done + [c.stage]) + rest[1..]
            && Outcome(done + One(rest, e).stages, One(rest, e).out)
               == if c.ok then Outcome((done + [c.stage]) + One(rest[1..], e).stages, One(rest[1..], e).out)
                  else Outcome((done + [c.stage]) + rest[1..], [])
  {
  }

  /** The last element of a list, for a single stage that has seen the others. */
  lemma WholeNext<T>(st: Stage<T>, s: seq<T>, e: T)
    ensures var before := Whole(st, s); var c := Call(before.stages[0], e);
            Whole(st, s + [e]) == Outcome([c.stage], before.out + if c.ok then [e] else [])
  {
    assert (s + [e])[..|s|] == s;
    match st
    case Peek(seen) =>
      assert (seen + s) + [e] == seen + (s + [e]);
    case Limit(bound, index) =>
      assert index + |s| < bound ==> (s + [e])[..|s| + 1] == s + [e];
    case _ =>
  }

  lemma FusedNext<T>(stages: seq<Stage<T>>, s: seq<T>, e: T)
    ensures var before := Fused(stages, s); var last := One(before.stages, e);
            Fused(stages, s + [e]) == Outcome(last.stages, before.out + last.out)
  {
    assert (s + [e])[..|s + [e]| - 1] == s;
  }

  lemma OneFirst<T>(st: Stage<T>, rest: seq<Stage<T>>, e: T)
    ensures var c, r := Call(st, e), One(rest, e);
            One([st] + rest, e) == if c.ok then Outcome([c.stage] + r.stages, r.out) else Outcome([c.stage] + rest, [])
  {
    assert ([st] + rest)[1..] == rest;
  }

  lemma WholeNone<T>(st: Stage<T>)
    ensures Whole(st, []) == Outcome([st], [])
  {
    assert st.Peek? ==> st.seen + [] == st.seen;
  }

  /** The first stage can be run ahead of the others. */
  lemma {:induction false} FirstAhead<T>(st: Stage<T>, rest: seq<Stage<T>>, s: seq<T>)
    ensures var first := Whole(st, s); var others := Fused(rest, first.out);
            Fused([st] + rest, s) == Outcome(first.stages + others.stages, others.out)
  {
    hide Whole;
    hide Call;
    if s == [] {
      WholeNone(st);
    } else {
      var before, e := s[..|s| - 1], s[|s| - 1];
      assert s == before + [e];
      var first := Whole(st, before);
      var others := Fused(rest, first.out);
      FirstAhead(st, rest, before);
      FusedNext([st] + rest, before, e);
      WholeNext(st, before, e);
      OneFirst(first.stages[0], others.stages, e);
      assert first.stages == [first.stages[0]];
      FusedNext(rest, first.out, e);
      var c := Call(first.stages[0], e);
      assert first.out + [] == first.out && others.out + [] == others.out;
      assert [first.stages[0]] + others.stages == first.stages + others.stages;
      assert Whole(st, s).out == first.out + if c.ok then [e] else [];
    }
  }

  /** Fusion: pulling elements through one by one lets through the same list, calls each Peek with the same sequence, and leaves the same counters. */
  lemma {:induction false} Fusion<T>(stages: seq<Stage<T>>, s: seq<T>)
    ensures Fused(stages, s) == Staged(stages, s)
  {
    if stages == [] {
      FusedNone(s);
    } else {
      assert stages == [stages[0]] + stages[1..];
      FirstAhead(stages[0], stages[1..], s);
      Fusion(stages[1..], Whole(stages[0], s).out);
    }
  }

  /** What a filter keeps: of each value as many copies as there were if it satisfies the test, else none. */
  lemma {:induction false} KeptCount<T>(keep: T -> bool, s: seq<T>, x: T)
    ensures multiset(Kept(keep, s))[x] == if keep(x) then multiset(s)[x] else 0
  {
    if s != [] {
      KeptCount(keep, s[..|s| - 1], x);
      assert s == s[..|s| - 1] + [s[|s| - 1]];
    }
  }

  /** A chain is its first part followed by the rest. */
  lemma {:induction false} Compose<T>(first: seq<Stage<T>>, second: seq<Stage<T>>, s: seq<T>)
    ensures var a := Staged(first, s); var b := Staged(second, a.out);
            Staged(first + second, s) == Outcome(a.stages + b.stages, b.out)
  {
    if first == [] {
      assert first + second == second;
    } else {
      assert (first + second)[1..] == first[1..] + second;
      Compose(first[1..], second, Whole(first[0], s).out);
    }
  }

  /** Skip, meant to leave out the first `n` elements, does so exactly when there are none, or none are to be left out because `n` is negative. */
  lemma SkipExactly<T>(n: int, s: seq<T>)
    ensures Whole(Skip(n, 0), s).out == s[Room(n, |s|)..] <==> n < 0 || s == []
  {
    if n > 0 && s != [] {
      assert |s[Room(n, |s|)..]| < |s|;
    }
  }

  // ---------- The stream ----------

  /** What a chain with no stage makes of an element is the zero value. */
  function Pulled<T>(zero: T, stages: seq<Stage<T>>, e: T): Outcome<T> {
    if stages == [] then Outcome([], [zero]) else One(stages, e)
  }

  /** The meaning of pulling the list `s` through a chain. */
  function Passed<T>(zero: T, stages: seq<Stage<T>>, s: seq<T>): (r: Outcome<T>)
    ensures |r.stages| == |stages|
  {
    if stages == [] then Outcome([], seq(|s|, _ => zero)) else Staged(stages, s)
  }

  lemma PassedNone<T>(zero: T, stages: seq<Stage<T>>)
    ensures Passed(zero, stages, []) == Outcome(stages, [])
  {
    Fusion(stages, []);
  }

  lemma PassedNext<T>(zero: T, stages: seq<Stage<T>>, s: seq<T>, i: nat)
    requires i < |s|
    ensures var before := Passed(zero, stages, s[..i]); var last := Pulled(zero, before.stages, s[i]);
            Passed(zero, stages, s[..i + 1]) == Outcome(last.stages, before.out + last.out)
  {
    hide Fused;
    hide One;
    hide Staged;
    assert s[..i + 1] == s[..i] + [s[i]];
    FusedNext(stages, s[..i], s[i]);
    Fusion(stages, s[..i]);
    Fusion(stages, s[..i + 1]);
  }

  /** Pulling further elements only adds at the end. */
  lemma {:induction false} PassedGrows<T>(zero: T, stages: seq<Stage<T>>, s: seq<T>, i: nat)
    requires i <= |s|
    ensures Passed(zero, stages, s[..i]).out <= Passed(zero, stages, s).out
    decreases |s| - i
  {
    if i == |s| {
      assert s[..i] == s;
    } else {
      PassedNext(zero, stages, s, i);
      PassedGrows(zero, stages, s, i + 1);
    }
  }

  function Folded<T>(f: (T, T) -> T, e: T, s: seq<T>): T {
    if s == [] then e else f(Folded(f, e, s[..|s| - 1]), s[|s| - 1])
  }

  lemma FoldedNext<T>(f: (T, T) -> T, e: T, s: seq<T>, x: T)
    ensures Folded(f, e, s + [x]) == f(Folded(f, e, s), x)
  {
    assert (s + [x])[..|s|] == s;
  }

  class PipelineStream<T(!new)> {
    var initial: seq<T>
    var progresses: seq<Stage<T>>
    const zero: T

    constructor (s: seq<T>, zero: T)
      ensures initial == s && progresses == [] && this.zero == zero
    {
      initial := s;
      progresses := [];
      this.zero := zero;
    }

    method Filter(filter: T -> bool)
      modifies this`progresses
      ensures progresses == old(progresses) + [Stage.Filter(filter)]
    {
      progresses := progresses + [Stage.Filter(filter)];
    }

    method Peek()
      modifies this`progresses
      ensures progresses == old(progresses) + [Stage.Peek([])]
    {
      progresses := progresses + [Stage.Peek([])];
    }

    method Limit(i: int)
      modifies this`progresses
      ensures progresses == old(progresses) + [Stage.Limit(i, 0)]
    {
      progresses := progresses + [Stage.Limit(i, 0)];
    }

    method Skip(i: int)
      modifies this`progresses
      ensures progresses == old(progresses) + [Stage.Skip(i, 0)]
    {
      progresses := progresses + [Stage.Skip(i, 0)];
    }

    method ExecuteOne(e: T) returns (v: T, ok: bool)
      modifies this`progresses
      ensures Pulled(zero, old(progresses), e) == Outcome(progresses, if ok then [v] else [])
      ensures !ok ==> v == zero
    {
      v := zero;
      ghost var done: seq<Stage<T>>, rest := [], progresses;
      var j := 0;
      while j < |progresses|
        invariant 0 <= j == |done| && progresses == done + rest
        invariant One(old(progresses), e) == Outcome(done + One(rest, e).stages, One(rest, e).out)
        invariant v == if j == 0 then zero else e
        invariant j + |rest| == |old(progresses)|
      {
        var c := Call(progresses[j], e);
        assert progresses[j] == rest[0];
        OneMore(done, rest, e);
        progresses := progresses[j := c.stage];
        if !c.ok {
          return zero, false;
        }
        done, rest := done + [c.stage], rest[1..];
        v := e;
        j := j + 1;
      }
      return v, true;
    }

    /** Everything the chain lets through, in order. */
    method Execute() returns (res: seq<T>)
      modifies this`progresses
      ensures Passed(zero, old(progresses), initial) == Outcome(progresses, res)
    {
      PassedNone(zero, progresses);
      assert initial[..0] == [];
      res := [];
      var i := 0;
      while i < |initial|
        invariant 0 <= i <= |initial|
        invariant Passed(zero, old(progresses), initial[..i]) == Outcome(progresses, res)
      {
        PassedNext(zero, old(progresses), initial, i);
        var v, ok := ExecuteOne(initial[i]);
        if ok {
          res := res + [v];
        }
        i := i + 1;
      }
      assert initial[..i] == initial;
    }

    method CollectSlice() returns (res: seq<T>)
      modifies this`progresses
      ensures Passed(zero, old(progresses), initial) == Outcome(progresses, res)
    {
      res := Execute();
    }

    /** `sort` is the library's sort, of which nothing is used but that it orders what it is given. */
    method Sorted(less: (T, T) -> bool, sort: seq<T> -> seq<T>)
      requires forall s :: PQ.Ordered(less, sort(s)) && multiset(sort(s)) == multiset(s)
      modifies this
      ensures progresses == [] && PQ.Ordered(less, initial)
      ensures multiset(initial) == multiset(Passed(zero, old(progresses), old(initial)).out)
    {
      initial := Execute();
      progresses := [];
      initial := sort(initial);
    }

    method Reduce(e: T, f: (T, T) -> T) returns (r: T)
      modifies this`progresses
      ensures r == Folded(f, e, Passed(zero, old(progresses), initial).out)
      ensures progresses == Passed(zero, old(progresses), initial).stages
    {
      PassedNone(zero, progresses);
      assert initial[..0] == [];
      r := e;
      ghost var out: seq<T> := [];
      var i := 0;
      while i < |initial|
        invariant 0 <= i <= |initial|
        invariant Passed(zero, old(progresses), initial[..i]) == Outcome(progresses, out)
        invariant r == Folded(f, e, out)
      {
        PassedNext(zero, old(progresses), initial, i);
        var v, ok := ExecuteOne(initial[i]);
        if ok {
          FoldedNext(f, e, out, v);
          r := f(r, v);
          out := out + [v];
        }
        i := i + 1;
      }
      assert initial[..i] == initial;
    }

    method Count() returns (res: nat)
      modifies this`progresses
      ensures res == |Passed(zero, old(progresses), initial).out|
      ensures progresses == Passed(zero, old(progresses), initial).stages
    {
      PassedNone(zero, progresses);
      assert initial[..0] == [];
      res := 0;
      ghost var out: seq<T> := [];
      var i := 0;
      while i < |initial|
        invariant 0 <= i <= |initial|
        invariant Passed(zero, old(progresses), initial[..i]) == Outcome(progresses, out) && res == |out|
      {
        PassedNext(zero, old(progresses), initial, i);
        var v, ok := ExecuteOne(initial[i]);
        if ok {
          res := res + 1;
          out := out + [v];
        }
        i := i + 1;
      }
      assert initial[..i] == initial;
    }

    /** The first of the greatest elements. */
    method Max(less: (T, T) -> bool) returns (mx: T, flag: bool)
      requires PQ.StrictWeakOrder(less)
      modifies this`progresses
      ensures var out := Passed(zero, old(progresses), initial).out;
              && (flag <==> out != []) && (!flag ==> mx == zero)
              && (flag ==> FirstGreatest(less, out, mx))
      ensures progresses == Passed(zero, old(progresses), initial).stages
    {
      PassedNone(zero, progresses);
      assert initial[..0] == [];
      mx, flag := zero, false;
      ghost var out: seq<T> := [];
      var i := 0;
      while i < |initial|
        invariant 0 <= i <= |initial|
        invariant Passed(zero, old(progresses), initial[..i]) == Outcome(progresses, out)
        invariant (flag <==> out != []) && if flag then FirstGreatest(less, out, mx) else mx == zero
      {
        PassedNext(zero, old(progresses), initial, i);
        var v, ok := ExecuteOne(initial[i]);
        if ok {
          GreatestNext(less, out, mx, v);
          if !flag {
            flag := true;
            mx := v;
          } else if less(mx, v) {
            mx := v;
          }
          out := out + [v];
        }
        i := i + 1;
      }
      assert initial[..i] == initial;
    }

    /** Looks at no element after the first that the chain lets through. */
    method First() returns (v: T, ok: bool, ghost pulled: nat)
      modifies this`progresses
      ensures var out := Passed(zero, old(progresses), initial).out;
              && (ok <==> out != []) && v == if ok then out[0] else zero
      ensures pulled <= |initial| && progresses == Passed(zero, old(progresses), initial[..pulled]).stages
      ensures if ok then pulled > 0 && Passed(zero, old(progresses), initial[..pulled - 1]).out == [] else pulled == |initial|
    {
      PassedNone(zero, progresses);
      assert initial[..0] == [];
      var i := 0;
      while i < |initial|
        invariant 0 <= i <= |initial|
        invariant Passed(zero, old(progresses), initial[..i]) == Outcome(progresses, [])
      {
        PassedNext(zero, old(progresses), initial, i);
        v, ok := ExecuteOne(initial[i]);
        if ok {
          pulled := i + 1;
          PassedGrows(zero, old(progresses), initial, pulled);
          return;
        }
        i := i + 1;
      }
      assert initial[..i] == initial;
      return zero, false, i;
    }

    /** Whether some element that passes satisfies `f`; stops at the first. */
    method AnyMatch(f: T -> bool) returns (r: bool, ghost pulled: nat)
      modifies this`progresses
      ensures r <==> exists x :: x in Passed(zero, old(progresses), initial).out && f(x)
      ensures pulled <= |initial| && progresses == Passed(zero, old(progresses), initial[..pulled]).stages
      ensures if r then pulled > 0 && (forall x :: x in Passed(zero, old(progresses), initial[..pulled - 1]).out ==> !f(x))
              else pulled == |initial|
    {
      PassedNone(zero, progresses);
      assert initial[..0] == [];
      ghost var out: seq<T> := [];
      var i := 0;
      while i < |initial|
        invariant 0 <= i <= |initial|
        invariant Passed(zero, old(progresses), initial[..i]) == Outcome(progresses, out)
        invariant forall x :: x in out ==> !f(x)
      {
        PassedNext(zero, old(progresses), initial, i);
        var v, ok := ExecuteOne(initial[i]);
        if ok {
          out := out + [v];
          if f(v) {
            PassedGrows(zero, old(progresses), initial, i + 1);
            assert v in out;
            return true, i + 1;
          }
        }
        i := i + 1;
      }
      assert initial[..i] == initial;
      return false, i;
    }

    /** Whether all the elements that pass satisfy `f`; stops at the first that does not. */
    method AllMatch(f: T -> bool) returns (r: bool, ghost pulled: nat)
      modifies this`progresses
      ensures r <==> forall x :: x in Passed(zero, old(progresses), initial).out ==> f(x)
      ensures pulled <= |initial| && progresses == Passed(zero, old(progresses), initial[..pulled]).stages
      ensures if r then pulled == |initial|
              else pulled > 0 && forall x :: x in Passed(zero, old(progresses), initial[..pulled - 1]).out ==> f(x)
    {
      PassedNone(zero, progresses);
      assert initial[..0] == [];
      ghost var out: seq<T> := [];
      var i := 0;
      while i < |initial|
        invariant 0 <= i <= |initial|
        invariant Passed(zero, old(progresses), initial[..i]) == Outcome(progresses, out)
        invariant forall x :: x in out ==> f(x)
      {
        PassedNext(zero, old(progresses), initial, i);
        var v, ok := ExecuteOne(initial[i]);
        if ok {
          out := out + [v];
          if !f(v) {
            PassedGrows(zero, old(progresses), initial, i + 1);
            assert v in out;
            return false, i + 1;
          }
        }
        i := i + 1;
      }
      assert initial[..i] == initial;
      return true, i;
    }
  }

  ghost predicate FirstGreatest<T>(less: (T, T) -> bool, s: seq<T>, x: T) {
    exists k :: 0 <= k < |s| && s[k] == x && (forall j :: 0 <= j < k ==> less(s[j], x)) && forall j :: k < j < |s| ==> !less(x, s[j])
  }

  lemma GreatestNext<T(!new)>(less: (T, T) -> bool, s: seq<T>, x: T, y: T)
    requires PQ.StrictWeakOrder(less) && (s == [] || FirstGreatest(less, s, x))
    ensures FirstGreatest(less, s + [y], if s == [] || less(x, y) then y else x)
  {
    if s == [] || less(x, y) {
      assert (s + [y])[|s|] == y;
      forall j | 0 <= j < |s|
        ensures less(s[j], y)
      {
        assert less(s[j], x) || !less(x, s[j]);
      }
    } else {
      var k :| 0 <= k < |s| && s[k] == x && (forall j :: 0 <= j < k ==> less(s[j], x)) && forall j :: k < j < |s| ==> !less(x, s[j]);
      assert (s + [y])[k] == x;
    }
  }

  /** Collecting after a sort gives the second chain's meaning on the first chain's output, put in order. */
  method CollectSorted<T(!new)>(p: PipelineStream<T>, less: (T, T) -> bool, sort: seq<T> -> seq<T>, second: seq<Stage<T>>)
    returns (res: seq<T>, ghost middle: seq<T>)
    requires forall s :: PQ.Ordered(less, sort(s)) && multiset(sort(s)) == multiset(s)
    requires p.progresses != [] && second != []
    modifies p
    ensures PQ.Ordered(less, middle) && multiset(middle) == multiset(Staged(old(p.progresses), old(p.initial)).out)
    ensures res == Staged(second, middle).out
  {
    p.Sorted(less, sort);
    middle := p.initial;
    p.progresses := second;
    res := p.CollectSlice();
  }

  // ---------- What single stages do to a stream ----------

  /** How many of `n` elements come before the limit `i`. */
  function Within(i: int, n: nat): (k: nat)
    ensures k <= n
  {
    if i <= 0 then 0 else if i < n then i else n
  }

  /** Limit lets the first `i` elements through, none if `i` is not positive and all if there are no more; its counter has counted them. */
  method CollectLimited<T(!new)>(s: seq<T>, zero: T, i: int) returns (res: seq<T>, ghost counted: int)
    ensures var k := if i <= 0 then 0 else if i < |s| then i else |s|; res == s[..k] && counted == k
  {
    var p := new PipelineStream(s, zero);
    p.Limit(i);
    assert p.progresses == [Stage.Limit(i, 0)];
    LimitMeans(s, i);
    PassedOne(zero, Stage.Limit(i, 0), s);
    res := p.CollectSlice();
    counted := p.progresses[0].index;
  }

  lemma LimitMeans<T>(s: seq<T>, i: int)
    ensures Whole(Stage.Limit(i, 0), s) == Outcome([Stage.Limit(i, Within(i, |s|))], s[..Within(i, |s|)])
  {
  }

  lemma PassedOne<T>(zero: T, st: Stage<T>, s: seq<T>)
    ensures Passed(zero, [st], s) == Whole(st, s)
  {
    assert [st][1..] == [];
    var first := Whole(st, s);
    assert Staged([], first.out) == Outcome([], first.out);
    assert first.stages + [] == first.stages;
  }

  /** Peek calls its function with every element, once each and in order, and lets them all through. */
  method CollectPeeked<T(!new)>(s: seq<T>, zero: T) returns (res: seq<T>, calls: seq<T>)
    ensures res == s && calls == s
  {
    var p := new PipelineStream(s, zero);
    p.Peek();
    assert p.progresses == [Stage.Peek([])];
    PassedOne(zero, Stage.Peek([]), s);
    assert [] + s == s;
    res := p.CollectSlice();
    calls := p.progresses[0].seen;
  }

  /** Filter lets through the elements that satisfy the test, each as often as it was there, and in order. */
  method CollectFiltered<T(!new)>(s: seq<T>, zero: T, keep: T -> bool) returns (res: seq<T>, ghost from: seq<nat>)
    ensures |from| == |res| && forall a, b :: 0 <= a < b < |from| ==> from[a] < from[b]
    ensures forall a :: 0 <= a < |from| ==> from[a] < |s| && res[a] == s[from[a]]
    ensures forall j :: 0 <= j < |s| ==> (j in from <==> keep(s[j]))
  {
    var p := new PipelineStream(s, zero);
    p.Filter(keep);
    assert p.progresses == [Stage.Filter(keep)];
    PassedOne(zero, Stage.Filter(keep), s);
    res := p.CollectSlice();
    from := KeptFrom(keep, s);
  }

  /** `from` are the positions of the elements that satisfy the test, in order, and `out` those elements. */
  ghost predicate Chosen<T>(keep: T -> bool, s: seq<T>, from: seq<nat>, out: seq<T>) {
    && |from| == |out| && (forall a, b :: 0 <= a < b < |from| ==> from[a] < from[b])
    && (forall a :: 0 <= a < |from| ==> from[a] < |s| && out[a] == s[from[a]])
    && (forall j :: 0 <= j < |s| ==> (j in from <==> keep(s[j])))
  }

  lemma ChosenNext<T>(keep: T -> bool, s: seq<T>, from: seq<nat>, out: seq<T>, e: T)
    requires Chosen(keep, s, from, out)
    ensures if keep(e) then Chosen(keep, s + [e], from + [|s|], out + [e]) else Chosen(keep, s + [e], from, out)
  {
    assert forall j :: j in from ==> j < |s|;
    if keep(e) {
      assert forall j: nat :: j in from + [|s|] <==> j in from || j == |s|;
    }
  }

  lemma {:induction false} KeptFrom<T>(keep: T -> bool, s: seq<T>) returns (from: seq<nat>)
    ensures Chosen(keep, s, from, Kept(keep, s))
  {
    if s == [] {
      from := [];
    } else {
      var n := |s| - 1;
      var before := KeptFrom(keep, s[..n]);
      assert s == s[..n] + [s[n]];
      ChosenNext(keep, s[..n], before, Kept(keep, s[..n]), s[n]);
      from := if keep(s[n]) then before + [n] else before;
    }
  }

  /** A stream without stages yields a zero value for each element. */
  method CollectPlain<T(!new)>(s: seq<T>, zero: T) returns (res: seq<T>)
    ensures |res| == |s| && forall j :: 0 <= j < |res| ==> res[j] == zero
  {
    var p := new PipelineStream(s, zero);
    res := p.CollectSlice();
  }

  /** Peek and Limit in a row: the Peek before the limit is called with every element, the one behind it with those let through. */
  method CollectPeekedLimited<T(!new)>(s: seq<T>, zero: T, i: int) returns (res: seq<T>, before: seq<T>, after: seq<T>)
    ensures res == s[..Within(i, |s|)] && before == s && after == res
  {
    var p := new PipelineStream(s, zero);
    p.Peek();
    p.Limit(i);
    p.Peek();
    ghost var first, limit, last := Stage<T>.Peek([]), Stage<T>.Limit(i, 0), Stage<T>.Peek([]);
    assert p.progresses == [first] + ([limit] + [last]);
    LimitMeans(s, i);
    Compose([first], [limit] + [last], s);
    Compose([limit], [last], s);
    PassedOne(zero, first, s);
    PassedOne(zero, limit, s);
    PassedOne(zero, last, s[..Within(i, |s|)]);
    assert [] + s == s && [] + s[..Within(i, |s|)] == s[..Within(i, |s|)];
    res := p.CollectSlice();
    before := p.progresses[0].seen;
    after := p.progresses[2].seen;
  }
}
