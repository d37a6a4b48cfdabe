/**
 tools/timer/timerwheel.go: a hashed timing wheel. Timers sit in the slots of a
 ring with a count of remaining turns; each tick sweeps the slot under the
 pointer, in order, and stops at the first timer that has turns left, so that the
 timers behind it are not counted down.

 Add, Stop, Reset and Tick are atomic here. Every timer carries a ghost record:
 the tick at which it was armed, the delay in whole ticks it was armed with, and
 how many sweeps of its slot have stopped before reaching it.
 */
module TimerWheel {
  import opened Bags
  import opened SweepRounds
  import opened WheelArithmetic

  class Tw {
    var n: int
    var pos: nat
    const duration: nat
    const ticker: bool
    ghost var armed: nat
    ghost var delay: nat
    ghost var late: nat

    constructor (d: nat, ticker: bool)
      ensures this.duration == d && this.ticker == ticker
    {
      duration := d;
      this.ticker := ticker;
    }
  }

  /** What there is to know of a queued timer. */
  datatype Record = Record(tm: Tw, n: int, armed: nat, delay: nat, late: nat)

  ghost function RecordOf(t: Tw): Record
    reads t
  {
    Record(t, t.n, t.armed, t.delay, t.late)
  }

  ghost function RecordsOf(s: seq<Tw>): seq<Record>
    reads s
  {
    seq(|s|, j requires 0 <= j < |s| reads s => RecordOf(s[j]))
  }

  /** A callback run: which timer, in which tick, and its record at that time. */
  datatype Firing = Firing(tm: Tw, tick: nat, armed: nat, delay: nat, late: nat)

  function Fired(tick: nat, r: Record): Firing {
    Firing(r.tm, tick, r.armed, r.delay, r.late)
  }

  ghost function AllFired(tick: nat, rs: seq<Record>): seq<Firing> {
    seq(|rs|, j requires 0 <= j < |rs| => Fired(tick, rs[j]))
  }

  lemma AllFiredNext(tick: nat, rs: seq<Record>, k: nat)
    requires k < |rs|
    ensures AllFired(tick, rs[..k + 1]) == AllFired(tick, rs[..k]) + [Fired(tick, rs[k])]
  {
  }

  // ---------- Slot lists ----------

  ghost predicate NoDup<T>(s: seq<T>) {
    forall j, k :: 0 <= j < k < |s| ==> s[j] != s[k]
  }

  lemma OnlyAt<T>(s: seq<T>, k: nat)
    requires NoDup(s) && k < |s|
    ensures forall j :: 0 <= j < |s| && j != k ==> s[j] != s[k]
  {
  }

  /** list.Remove: takes out the element if the list has it. */
  function Remove<T(==)>(s: seq<T>, t: T): seq<T> {
    if s == [] then [] else if s[0] == t then s[1..] else [s[0]] + Remove(s[1..], t)
  }

  lemma {:induction false} RemoveOne<T>(s: seq<T>, t: T)
    requires NoDup(s)
    ensures NoDup(Remove(s, t))
    ensures forall x :: x in Remove(s, t) <==> x in s && x != t
  {
    if s != [] {
      RemoveOne(s[1..], t);
      assert s == [s[0]] + s[1..];
      assert forall x :: x in s <==> x == s[0] || x in s[1..];
      assert s[0] !in s[1..];
    }
  }

  /** The turns left of all the timers in a list of records. */
  ghost function Sum(rs: seq<Record>): int {
    if rs == [] then 0 else Sum(rs[..|rs| - 1]) + rs[|rs| - 1].n
  }

  lemma {:induction false} SumZero(rs: seq<Record>)
    requires forall i :: 0 <= i < |rs| ==> rs[i].n >= 0
    ensures Sum(rs) >= 0 && (Sum(rs) == 0 <==> forall i :: 0 <= i < |rs| ==> rs[i].n == 0)
  {
    if rs != [] {
      SumZero(rs[..|rs| - 1]);
    }
  }

  lemma {:induction false} SumSame(rs: seq<Record>, rs': seq<Record>)
    requires |rs'| == |rs| && forall i :: 0 <= i < |rs| ==> rs'[i].n == rs[i].n
    ensures Sum(rs') == Sum(rs)
  {
    if rs != [] {
      SumSame(rs[..|rs| - 1], rs'[..|rs| - 1]);
    }
  }

  lemma {:induction false} SumConcat(a: seq<Record>, b: seq<Record>)
    ensures Sum(a + b) == Sum(a) + Sum(b)
  {
    if b == [] {
      assert a + b == a;
    } else {
      assert (a + b)[..|a + b| - 1] == a + b[..|b| - 1];
      SumConcat(a, b[..|b| - 1]);
    }
  }

  lemma SumFirst(rs: seq<Record>)
    requires rs != []
    ensures Sum(rs) == rs[0].n + Sum(rs[1..])
  {
    assert rs == [rs[0]] + rs[1..];
    SumConcat([rs[0]], rs[1..]);
    assert Sum([rs[0]]) == Sum([]) + rs[0].n;
  }

  /** A list whose leading zeros are gone, and whose next element has been counted down. */
  lemma SumAfter(rs: seq<Record>, rs': seq<Record>, k: nat)
    requires k < |rs| && |rs'| == |rs| - k && rs'[0].n == rs[k].n - 1
    requires forall i :: 0 <= i < k ==> rs[i].n == 0
    requires forall i :: 1 <= i < |rs'| ==> rs'[i].n == rs[k + i].n
    ensures Sum(rs') == Sum(rs) - 1
  {
    hide Sum;
    assert rs == rs[..k] + rs[k..];
    SumConcat(rs[..k], rs[k..]);
    SumZero(rs[..k]);
    SumFirst(rs[k..]);
    SumFirst(rs');
    SumSame(rs[k..][1..], rs'[1..]);
  }

  lemma {:induction false} RemoveAt<T>(s: seq<T>, x: nat)
    requires x < |s| && forall j :: 0 <= j < x ==> s[j] != s[x]
    ensures Remove(s, s[x]) == s[..x] + s[x + 1..]
  {
    if x > 0 {
      RemoveAt(s[1..], x - 1);
      assert s[..x] == [s[0]] + s[1..][..x - 1] && s[1..][x..] == s[x + 1..];
    }
  }

  /** Taking a record out of a list takes away its turns from those behind it. */
  lemma SumWithout(rs: seq<Record>, x: nat, j: nat)
    requires x < j < |rs|
    ensures Sum((rs[..x] + rs[x + 1..])[..j]) == Sum(rs[..j + 1]) - rs[x].n
  {
    hide Sum;
    assert (rs[..x] + rs[x + 1..])[..j] == rs[..x] + rs[x + 1..j + 1];
    assert rs[..j + 1] == rs[..x] + rs[x..j + 1];
    SumConcat(rs[..x], rs[x + 1..j + 1]);
    SumConcat(rs[..x], rs[x..j + 1]);
    SumFirst(rs[x..j + 1]);
    assert rs[x..j + 1][1..] == rs[x + 1..j + 1];
  }

  /** The ticks in which the callback of `t` ran. */
  ghost function Times(fs: seq<Firing>, t: Tw): seq<nat> {
    if fs == [] then [] else Times(fs[..|fs| - 1], t) + if fs[|fs| - 1].tm == t then [fs[|fs| - 1].tick] else []
  }

  lemma {:induction false} TimesConcat(a: seq<Firing>, b: seq<Firing>, t: Tw)
    ensures Times(a + b, t) == Times(a, t) + Times(b, t)
  {
    if b == [] {
      assert a + b == a;
    } else {
      assert (a + b)[..|a + b| - 1] == a + b[..|b| - 1];
      TimesConcat(a, b[..|b| - 1], t);
    }
  }

  lemma {:induction false} TimesNone(tick: nat, rs: seq<Record>, t: Tw)
    requires forall x :: 0 <= x < |rs| ==> rs[x].tm != t
    ensures Times(AllFired(tick, rs), t) == []
  {
    if rs != [] {
      var n := |rs| - 1;
      TimesNone(tick, rs[..n], t);
      assert AllFired(tick, rs)[..n] == AllFired(tick, rs[..n]);
    }
  }

  lemma AllFiredAround(tick: nat, rs: seq<Record>, j: nat)
    requires j < |rs|
    ensures AllFired(tick, rs) == (AllFired(tick, rs[..j]) + [Fired(tick, rs[j])]) + AllFired(tick, rs[j + 1..])
  {
  }

  /** A sweep of distinct timers fires each of them once. */
  lemma TimesOnce(tick: nat, rs: seq<Record>, j: nat)
    requires j < |rs| && forall x :: 0 <= x < |rs| && x != j ==> rs[x].tm != rs[j].tm
    ensures Times(AllFired(tick, rs), rs[j].tm) == [tick]
  {
    var t, a, f, b := rs[j].tm, rs[..j], Fired(tick, rs[j]), rs[j + 1..];
    TimesNone(tick, a, t);
    TimesNone(tick, b, t);
    AllFiredAround(tick, rs, j);
    hide AllFired;
    TimesConcat(AllFired(tick, a) + [f], AllFired(tick, b), t);
    TimesConcat(AllFired(tick, a), [f], t);
    assert Times([f], t) == Times([], t) + [tick];
  }

  lemma TimesNext(before: seq<Firing>, tick: nat, L: seq<Tw>, rs: seq<Record>, t: Tw)
    requires NoDup(L) && |rs| == |L| && forall x :: 0 <= x < |rs| ==> rs[x].tm == L[x]
    ensures Times(before + AllFired(tick, rs), t) == Times(before, t) + if t in L then [tick] else []
  {
    TimesConcat(before, AllFired(tick, rs), t);
    if t in L {
      var j :| 0 <= j < |L| && L[j] == t;
      OnlyAt(L, j);
      TimesOnce(tick, rs, j);
    } else {
      TimesNone(tick, rs, t);
    }
  }

  /** The first `c` of the ticks from `at` on that are `period` apart. */
  ghost function Every(at: nat, period: nat, c: nat): seq<nat> {
    if c == 0 then [] else Every(at, period, c - 1) + [at + (c - 1) * period]
  }

  // ---------- The wheel ----------

  class TimerWheel {
    const sc: int
    const si: int
    const circle: int
    const slots: array<seq<Tw>>
    var sp: int
    var stopped: bool
    ghost var ticks: nat
    ghost var fires: seq<Firing>

    ghost predicate Shape()
      reads this
    {
      && sc > 0 && si > 0 && circle == sc * si > 0 && slots.Length == sc
      && 0 <= sp < sc && sp == ticks % sc
    }

    /** The timers that are in some slot. */
    ghost function Timers(): set<Tw>
      reads slots
    {
      set i, t | 0 <= i < slots.Length && t in slots[i] :: t
    }

    /** The timer sits in slot `i`, and with `n` turns left is due when its record promises. */
    ghost predicate TimerOk(t: Tw, i: int, n: int)
      requires sc > 0
      reads this, t
    {
      && t.pos == i && n >= 0 && t.armed <= ticks
      && Due(sc, ticks, t.pos, n) == Promised(sc, t.armed, t.delay, t.late)
    }

    ghost predicate FiresOk()
      reads this
    {
      forall k :: 0 <= k < |fires| ==>
        fires[k].tick <= ticks && fires[k].tick == Promised(sc, fires[k].armed, fires[k].delay, fires[k].late)
    }

    /** The first timer of the swept slot, once the sweep has counted it down. */
    ghost predicate IsFront(t: Tw, i: int)
      reads this, slots
    {
      0 <= i == sp < slots.Length && slots[i] != [] && slots[i][0] == t
    }

    /** The invariant, with the front timer perhaps already counted down in the running sweep. */
    ghost predicate Consistent(counted: bool)
      reads this, slots, Timers()
    {
      && Shape() && FiresOk()
      && (forall i, t :: 0 <= i < slots.Length && t in slots[i] ==>
            TimerOk(t, i, if counted && IsFront(t, i) then t.n + 1 else t.n))
      && (forall i :: 0 <= i < slots.Length ==> NoDup(slots[i]))
    }

    ghost predicate Valid()
      reads this, slots, Timers()
    {
      Consistent(false)
    }

    constructor (sc: int, si: int)
      requires sc > 0 && si > 0
      ensures Valid() && fresh(slots) && this.sc == sc && this.si == si && ticks == 0 && fires == [] && !stopped
      ensures forall i :: 0 <= i < slots.Length ==> slots[i] == []
    {
      this.sc := sc;
      this.si := si;
      circle := sc * si;
      slots := new seq<Tw>[sc](_ => []);
      sp := 0;
      stopped := false;
      ticks := 0;
      fires := [];
    }

    /** The end of `add`: computes the turns and the slot, and appends. */
    method Arm(tm: Tw, d: nat)
      requires Valid() && forall i :: 0 <= i < slots.Length ==> tm !in slots[i]
      modifies tm, slots
      ensures Valid()
      ensures tm.n == Turns(d, circle) && tm.pos == SlotFor(d, sc, si, sp)
      ensures tm.armed == ticks && tm.delay == d / si && tm.late == 0
      ensures forall i :: 0 <= i < slots.Length ==> slots[i] == old(slots[i]) + if i == tm.pos then [tm] else []
    {
      hide Due;
      hide Promised;
      hide Turns;
      hide SlotFor;
      var n := Turns(d, circle);
      var pos := SlotFor(d, sc, si, sp);
      tm.n := n;
      tm.pos := pos;
      tm.armed, tm.delay, tm.late := ticks, d / si, 0;
      slots[pos] := slots[pos] + [tm];
      assert TimerOk(tm, pos, tm.n) by {
        ArmDue(sc, si, ticks, d);
      }
      forall i, t | 0 <= i < slots.Length && t in slots[i]
        ensures TimerOk(t, i, t.n)
      {
        if t != tm {
          assert t in old(slots[i]) && old(TimerOk(t, i, t.n));
        }
      }
      assert NoDup(slots[pos]) by {
        assert tm !in old(slots[pos]);
      }
    }

    /**
     SetTimer and SetTicker; None stands for the panic on a negative duration or a
     stopped scheduler. It does not change when the others fire.
     */
    method Set(d: int, ticker: bool) returns (r: Option<Tw>)
      requires Valid()
      modifies slots
      ensures Valid()
      ensures r.None? <==> d < 0 || stopped
      ensures r.None? ==> forall i :: 0 <= i < slots.Length ==> slots[i] == old(slots[i])
      ensures r.Some? ==> var tm := r.value;
              && fresh(tm) && tm.duration == d && tm.n == Turns(d, circle) && tm.pos == SlotFor(d, sc, si, sp) && tm.ticker == ticker
              && tm.armed == ticks && tm.delay == d / si && tm.late == 0
              && forall i :: 0 <= i < slots.Length ==> slots[i] == old(slots[i]) + if i == tm.pos then [tm] else []
      ensures forall i, j :: 0 <= i < slots.Length && 0 <= j < |old(slots[i])| ==> FiresAt(i, j) == old(FiresAt(i, j))
    {
      hide Due;
      hide Turns;
      hide SlotFor;
      hide Promised;
      if d < 0 || stopped {
        assert forall i, j :: 0 <= i < slots.Length && 0 <= j < |slots[i]| ==> FiresAt(i, j) == old(FiresAt(i, j));
        return None;
      }
      var tm := new Tw(d, ticker);
      Arm(tm, d);
      r := Some(tm);
      forall i, j | 0 <= i < slots.Length && 0 <= j < |old(slots[i])|
        ensures FiresAt(i, j) == old(FiresAt(i, j))
      {
        assert slots[i][..j + 1] == old(slots[i])[..j + 1];
        assert RecordsOf(slots[i][..j + 1]) == old(RecordsOf(slots[i][..j + 1]));
      }
    }

    /** Takes the timer out of the slot it names, if it is there. */
    method Stop(tm: Tw)
      requires Valid() && tm.pos < slots.Length
      modifies slots
      ensures Valid()
      ensures forall i :: 0 <= i < slots.Length ==> slots[i] == if i == tm.pos then Remove(old(slots[i]), tm) else old(slots[i])
      ensures forall i :: 0 <= i < slots.Length ==> tm !in slots[i]
    {
      hide Due;
      hide Promised;
      RemoveOne(slots[tm.pos], tm);
      slots[tm.pos] := Remove(slots[tm.pos], tm);
      forall i, t | 0 <= i < slots.Length && t in slots[i]
        ensures TimerOk(t, i, t.n)
      {
        assert t in old(slots[i]) && old(TimerOk(t, i, t.n));
      }
      forall i | 0 <= i < slots.Length
        ensures tm !in slots[i]
      {
        assert tm in old(slots[i]) ==> old(TimerOk(tm, i, tm.n));
      }
    }

    /** Stops the timer and arms it again; on a panic (`!ok`) it has been stopped already. */
    method Reset(tm: Tw, d: int) returns (ok: bool)
      requires Valid() && tm.pos < slots.Length
      modifies slots, tm
      ensures Valid()
      ensures ok <==> d >= 0 && !stopped
      ensures ok ==> tm.armed == ticks && tm.delay == d / si && tm.late == 0
      ensures forall i :: 0 <= i < slots.Length ==>
                slots[i] == (if i == old(tm.pos) then Remove(old(slots[i]), tm) else old(slots[i]))
                            + (if ok && i == tm.pos then [tm] else [])
    {
      Stop(tm);
      if d < 0 || stopped {
        return false;
      }
      Arm(tm, d);
      return true;
    }

    /** Closing the stop channel twice panics. */
    method Shutdown()
      requires Valid() && !stopped
      modifies this`stopped
      ensures Valid() && stopped
    {
      stopped := true;
    }

    /** The record of a ticker fired and armed again in tick `tick`. */
    ghost function Afresh(t: Tw, tick: nat): Record
      requires si > 0 && circle > 0
    {
      Record(t, Turns(t.duration, circle), tick, t.duration / si, 0)
    }

    ghost function AllAfresh(s: seq<Tw>, tick: nat): (rs: seq<Record>)
      requires si > 0 && circle > 0
      ensures |rs| == |s|
    {
      seq(|s|, j requires 0 <= j < |s| => Afresh(s[j], tick))
    }

    /** A ticker fired in tick `tick` from slot `p` is queued again, for its interval from that tick on; a fired one-shot is gone. */
    ghost predicate ArmedAt(t: Tw, tick: nat, p: int)
      requires si > 0 && circle > 0
      reads this, slots, t
    {
      if t.ticker then
        && t.pos < slots.Length && t in slots[t.pos]
        && t.armed == tick && t.delay == t.duration / si
        && (t.pos != p ==> t.n == Turns(t.duration, circle) && t.late == 0)
      else forall i :: 0 <= i < slots.Length ==> t !in slots[i]
    }

    /** The same within the sweep that fired it. */
    ghost predicate Rearmed(t: Tw)
      requires si > 0 && circle > 0
      reads this, slots, t
    {
      ArmedAt(t, ticks, sp) && (t.ticker ==> t.late == 0)
    }

    /** Runs the callback of the counted-down front timer, removes it, and re-arms it if it is a ticker. */
    method FireFront(tm: Tw)
      requires Consistent(true) && IsFront(tm, sp) && tm.n == -1
      modifies this`fires, slots, tm
      ensures Valid()
      ensures fires == old(fires) + [Firing(tm, ticks, old(tm.armed), old(tm.delay), old(tm.late))]
      ensures Rearmed(tm) && (tm.ticker ==> tm.pos == SlotFor(tm.duration, sc, si, sp) && RecordOf(tm) == Afresh(tm, ticks))
      ensures forall i :: 0 <= i < slots.Length ==>
                slots[i] == (if i == sp then old(slots[i])[1..] else old(slots[i])) + (if tm.ticker && i == tm.pos then [tm] else [])
    {
      hide Due;
      hide Promised;
      hide Turns;
      hide SlotFor;
      fires := fires + [Firing(tm, ticks, tm.armed, tm.delay, tm.late)];
      assert ticks == Promised(sc, tm.armed, tm.delay, tm.late) by {
        assert TimerOk(tm, sp, 0);
        DueSwept(sc, ticks, 0);
      }
      slots[sp] := slots[sp][1..];
      forall i, t | 0 <= i < slots.Length && t in slots[i]
        ensures TimerOk(t, i, t.n) && t != tm
      {
        assert t in old(slots[i]) && old(!IsFront(t, i)) && old(TimerOk(t, i, t.n));
      }
      if tm.ticker {
        Arm(tm, tm.duration);
      }
    }

    /** A queued timer as the next tick will find it. */
    ghost predicate NextOk(t: Tw, i: int)
      requires sc > 0
      reads this, t
    {
      && t.pos == i && t.n >= 0 && t.armed <= ticks
      && Due(sc, ticks + 1, t.pos, t.n) == Promised(sc, t.armed, t.delay, t.late)
    }

    /** A timer of the swept slot that the sweep did not reach is a turn later. */
    ghost method MarkLate(counted: bool, L: seq<Tw>)
      requires Consistent(counted) && (counted ==> slots[sp] != [] && slots[sp][0].n >= 0)
      requires forall t :: t in slots[sp] ==> t in L
      modifies L`late
      ensures forall t :: t in slots[sp] ==> t.late == old(t.late) + if counted && IsFront(t, sp) then 0 else 1
      ensures forall t :: t in L && t !in slots[sp] ==> t.late == old(t.late)
      ensures forall i, t :: 0 <= i < slots.Length && t in slots[i] ==> NextOk(t, i)
    {
      hide Due;
      hide Promised;
      var behind := set t | t in slots[sp] && !(counted && IsFront(t, sp));
      forall t | t in behind
        ensures t.pos == sp
      {
        assert TimerOk(t, sp, t.n);
      }
      forall t | t in behind {
        t.late := t.late + 1;
      }
      forall i, t | 0 <= i < slots.Length && t in slots[i]
        ensures NextOk(t, i)
      {
        assert old(TimerOk(t, i, if counted && IsFront(t, i) then t.n + 1 else t.n));
        if i != sp {
          DueElsewhere(sc, ticks, i, t.n);
        } else if t in behind {
          DueSwept(sc, ticks, t.n);
          PromisedLater(sc, t.armed, t.delay, old(t.late));
        } else {
          DueSwept(sc, ticks, t.n + 1);
        }
      }
    }

    /** The turn of the wheel at the end of `tick`. */
    method Advance(ghost counted: bool, ghost L: seq<Tw>, ghost E: seq<Tw>, ghost k: nat)
      requires Consistent(counted) && (counted ==> slots[sp] != [] && slots[sp][0].n >= 0)
      requires k <= |E| && (forall t :: t in slots[sp] || t in E ==> t in L) && forall j :: 0 <= j < k ==> Rearmed(E[j])
      modifies this`sp, this`ticks, L`late
      ensures Valid() && ticks == old(ticks) + 1
      ensures forall t :: t in L ==> t.late == old(t.late) + if t in slots[old(sp)] && !(counted && t == slots[old(sp)][0]) then 1 else 0
      ensures forall j :: 0 <= j < k ==> ArmedAt(E[j], old(ticks), old(sp))
    {
      hide Due;
      hide Promised;
      hide Turns;
      MarkLate(counted, L);
      label marked:
      NextPointer(sc, ticks);
      ticks := ticks + 1;
      sp := (sp + 1) % sc;
      forall i, t | 0 <= i < slots.Length && t in slots[i]
        ensures TimerOk(t, i, t.n)
      {
        assert old@marked(NextOk(t, i));
      }
      forall j | 0 <= j < k
        ensures ArmedAt(E[j], old(ticks), old(sp))
      {
        assert old(Rearmed(E[j])) && E[j] in L;
        if E[j] in slots[old(sp)] {
          assert TimerOk(E[j], old(sp), E[j].n);
        }
      }
    }

    method CountDown(tm: Tw)
      requires Valid() && IsFront(tm, sp)
      modifies tm`n
      ensures Consistent(true) && tm.n == old(tm.n) - 1 >= -1
    {
      hide Due;
      hide Promised;
      assert TimerOk(tm, sp, tm.n);
      tm.n := tm.n - 1;
      forall i, t | 0 <= i < slots.Length && t in slots[i]
        ensures TimerOk(t, i, if IsFront(t, i) then t.n + 1 else t.n)
      {
        assert old(TimerOk(t, i, t.n));
      }
    }

    /** The front timer `tm` of the swept slot has been taken out, and put at the end of its new slot if it is a ticker. */
    twostate predicate Took(tm: Tw)
      reads this, slots, tm
    {
      && sc > 0 && si > 0 && 0 <= sp == old(sp) < slots.Length && old(slots[sp]) != [] && tm == old(slots[sp][0])
      && forall i :: 0 <= i < slots.Length ==>
           slots[i] == (if i == sp then old(slots[i])[1..] else old(slots[i])) + Goer(tm, sp, i)
    }

    /** One round of the sweep: the front timer is counted down and, if its turns are over, fired. `kept` are timers fired before it. */
    method TakeFront(ghost kept: seq<Tw>) returns (tm: Tw, fired: bool)
      requires Valid() && slots[sp] != []
      requires forall t :: t in kept ==> Rearmed(t)
      modifies this`fires, slots, slots[sp][0]
      ensures tm == old(slots[sp][0]) && (fired <==> old(tm.n) == 0)
      ensures !fired ==> Consistent(true) && RecordOf(tm) == old(RecordOf(tm)).(n := old(tm.n) - 1) && tm.n >= 0 && fires == old(fires)
      ensures !fired ==> forall i :: 0 <= i < slots.Length ==> slots[i] == old(slots[i])
      ensures fired ==> Valid() && fires == old(fires) + [Fired(ticks, old(RecordOf(tm)))]
      ensures fired ==> Rearmed(tm)
      ensures fired && tm.ticker ==> tm.pos == SlotFor(tm.duration, sc, si, sp) && RecordOf(tm) == Afresh(tm, ticks)
      ensures fired ==> Took(tm)
      ensures forall t :: t in kept && (fired ==> t != tm) ==> Rearmed(t)
    {
      hide Due;
      hide Promised;
      hide Turns;
      hide SlotFor;
      tm := slots[sp][0];
      CountDown(tm);
      fired := tm.n < 0;
      if fired {
        FireFront(tm);
      }
      forall t | t in kept && (fired ==> t != tm)
        ensures Rearmed(t)
      {
        assert old(Rearmed(t));
      }
    }

    /** The timer, if it is a ticker that, fired from slot `p`, is armed again into slot `i`. */
    ghost function Goer(t: Tw, p: nat, i: int): seq<Tw>
      requires sc > 0 && si > 0
    {
      if t.ticker && SlotFor(t.duration, sc, si, p) == i then [t] else []
    }

    ghost function Goes(s: seq<Tw>, p: nat, i: int): seq<Tw>
      requires sc > 0 && si > 0
    {
      if s == [] then [] else Goes(s[..|s| - 1], p, i) + Goer(s[|s| - 1], p, i)
    }

    lemma GoerIs(t: Tw, p: nat, i: int)
      requires sc > 0 && si > 0
      ensures Goer(t, p, i) == [] || (t.ticker && Goer(t, p, i) == [t])
    {
    }

    lemma GoesNext(s: seq<Tw>, t: Tw, p: nat, i: int)
      requires sc > 0 && si > 0
      ensures Goes(s + [t], p, i) == Goes(s, p, i) + Goer(t, p, i)
    {
      assert (s + [t])[..|s|] == s;
    }

    lemma {:induction false} GoesMember(s: seq<Tw>, p: nat, i: int)
      requires sc > 0 && si > 0
      ensures forall t :: t in Goes(s, p, i) <==> t in s && t.ticker && SlotFor(t.duration, sc, si, p) == i
    {
      hide SlotFor;
      if s != [] {
        GoesMember(s[..|s| - 1], p, i);
        assert s == s[..|s| - 1] + [s[|s| - 1]];
      }
    }

    /**
     The sweep in tick `tick` of slot `p`, which held the list `L` with the records
     `R`, as a queue: `E` are all the timers that are or have been in it, in order,
     `Q` their records when they joined it. `k` of them have been fired, and those
     among them that came back have joined at the end.
     */
    ghost predicate Queue(L: seq<Tw>, R: seq<Record>, E: seq<Tw>, Q: seq<Record>, k: nat, p: nat, tick: nat)
      requires sc > 0 && si > 0 && circle > 0
    {
      && k <= |E| && |R| == |L|
      && E == L + Goes(E[..k], p, p) && Q == R + AllAfresh(Goes(E[..k], p, p), tick)
      && forall j :: 0 <= j < k ==> Q[j].n == 0
    }

    lemma QueueNext(L: seq<Tw>, R: seq<Record>, E: seq<Tw>, Q: seq<Record>, k: nat, p: nat, tick: nat)
      requires sc > 0 && si > 0 && circle > 0 && Queue(L, R, E, Q, k, p, tick) && k < |E| && Q[k].n == 0
      ensures var tail := Goer(E[k], p, p);
              && Queue(L, R, E + tail, Q + AllAfresh(tail, tick), k + 1, p, tick)
              && (E + tail)[k + 1..] == E[k..][1..] + tail
    {
      hide Turns;
      hide SlotFor;
      hide Goer;
      hide Goes;
      var tail, back := Goer(E[k], p, p), Goes(E[..k], p, p);
      var E', Q' := E + tail, Q + AllAfresh(tail, tick);
      assert E'[..k + 1] == E[..k] + [E[k]];
      GoesNext(E[..k], E[k], p, p);
      assert E' == L + (back + tail);
      assert Q' == R + AllAfresh(back + tail, tick);
      assert |Q| == |E| && forall j :: 0 <= j <= k ==> Q'[j] == Q[j];
    }

    /** How the sweep ended: halted by a timer that it counted down, or with no successor to the last one fired. */
    ghost predicate Ending(L: seq<Tw>, E: seq<Tw>, Q: seq<Record>, k: nat, halted: bool) {
      && |L| <= |E| == |Q|
      && if halted then k < |E| && Q[k].n > 0
         else |L| <= k <= |E| && (|E| == k || (|E| == k + 1 && 0 < k && E[k] == E[k - 1]))
    }

    ghost predicate Swept(L: seq<Tw>, R: seq<Record>, before: seq<Firing>, E: seq<Tw>, Q: seq<Record>, k: nat)
      requires Shape()
      reads this, slots, E
    {
      && Queue(L, R, E, Q, k, sp, ticks) && k <= |Q| == |E| && slots[sp] == E[k..]
      && fires == before + AllFired(ticks, Q[..k])
      && forall j :: k <= j < |E| ==> RecordOf(E[j]) == Q[j]
    }

    ghost function BackOf(t: Tw, p: nat): Option<nat>
      requires sc > 0 && si > 0 && circle > 0
    {
      if t.ticker && SlotFor(t.duration, sc, si, p) == p then Some(Turns(t.duration, circle)) else None
    }

    ghost function ItemsOf(s: seq<Tw>, p: nat): (items: seq<Item>)
      requires sc > 0 && si > 0 && circle > 0
      ensures |items| == |s|
      reads s
    {
      seq(|s|, j requires 0 <= j < |s| reads s => Item(s[j].n, BackOf(s[j], p)))
    }

    /** A ticker shorter than a slot interval. */
    ghost predicate Fast(t: Tw) {
      t.ticker && t.duration < si
    }

    /**
     When the sweep of a slot with this list does not end: all its timers fire, no
     ticker comes back with turns to wait, and two are fast.
     */
    ghost predicate Endless(L: seq<Tw>)
      requires Shape()
      reads this, L
    {
      && (forall t :: t in L ==> t.n == 0)
      && (forall t :: t in L && t.ticker && t.duration >= si ==> SlotFor(t.duration, sc, si, sp) != sp)
      && exists j, k :: 0 <= j < k < |L| && Fast(L[j]) && Fast(L[k])
    }

    /** A fast ticker comes back without turns to wait, any other that comes back with some. */
    lemma BackTurns(t: Tw)
      requires Shape()
      ensures Fast(t) ==> BackOf(t, sp) == Some(0)
      ensures t.ticker && t.duration >= si && SlotFor(t.duration, sc, si, sp) == sp ==> Turns(t.duration, circle) >= 1
    {
      if Fast(t) {
        MulMonotone(1, sc, si);
        ModIs(t.duration, si, 0, t.duration);
        ModIs(t.duration, circle, 0, t.duration);
        ModIs(sp, sc, 0, sp);
      } else if t.ticker && SlotFor(t.duration, sc, si, sp) == sp {
        RearmedHere(t.duration, sc, si, sp);
      }
    }

    /** What a timer of the slot is to the loop. */
    lemma ItemAt(t: Tw)
      requires Shape()
      ensures Fast(t) <==> BackOf(t, sp) == Some(0)
      ensures BackOf(t, sp).Some? && BackOf(t, sp).value > 0 <==>
              t.ticker && t.duration >= si && SlotFor(t.duration, sc, si, sp) == sp
    {
      BackTurns(t);
      hide Turns;
      hide SlotFor;
    }

    lemma EndlessThenRotates(L: seq<Tw>)
      requires Shape() && Endless(L)
      ensures Rotates(ItemsOf(L, sp))
    {
      hide BackOf;
      hide SlotFor;
      hide Fast;
      var s := ItemsOf(L, sp);
      forall j | 0 <= j < |L|
        ensures s[j].n == 0 && (s[j].back.Some? ==> s[j].back.value == 0) && (Fast(L[j]) ==> s[j].back.Some?)
      {
        assert L[j] in L;
        ItemAt(L[j]);
      }
      var j, k :| 0 <= j < k < |L| && Fast(L[j]) && Fast(L[k]);
      assert s[j].back.Some? && s[k].back.Some?;
    }

    lemma RotatesThenEndless(L: seq<Tw>)
      requires Shape() && Rotates(ItemsOf(L, sp))
      ensures Endless(L)
    {
      hide BackOf;
      hide SlotFor;
      hide Fast;
      var s := ItemsOf(L, sp);
      forall t | t in L
        ensures t.n == 0 && !(t.ticker && t.duration >= si && SlotFor(t.duration, sc, si, sp) == sp)
      {
        var i :| 0 <= i < |L| && L[i] == t;
        assert s[i].n == t.n && s[i].back == BackOf(t, sp);
        ItemAt(t);
      }
      var j, k :| 0 <= j < k < |s| && s[j].back.Some? && s[k].back.Some?;
      ItemAt(L[j]);
      ItemAt(L[k]);
      assert Fast(L[j]) && Fast(L[k]);
    }

    lemma EndlessRotates(L: seq<Tw>)
      requires Shape()
      ensures Endless(L) <==> Rotates(ItemsOf(L, sp))
    {
      if Endless(L) {
        EndlessThenRotates(L);
      }
      if Rotates(ItemsOf(L, sp)) {
        RotatesThenEndless(L);
      }
    }

    /** The sweep of the slot under the pointer ends exactly if the slot is not endless. */
    lemma SweepEndsExactly()
      requires Valid()
      ensures Ends(ItemsOf(slots[sp], sp)) <==> !Endless(slots[sp])
    {
      hide Due;
      hide Promised;
      forall j | 0 <= j < |slots[sp]|
        ensures slots[sp][j].n >= 0
      {
        assert TimerOk(slots[sp][j], sp, slots[sp][j].n);
      }
      EndlessRotates(slots[sp]);
      EndsExactly(ItemsOf(slots[sp], sp));
    }

    lemma SweptNext(L: seq<Tw>, R: seq<Record>, before: seq<Firing>, E: seq<Tw>, Q: seq<Record>, k: nat)
      requires Shape() && Queue(L, R, E, Q, k, sp, ticks) && k < |E| == |Q| && Q[k].n == 0
      requires slots[sp] == E[k..][1..] + Goer(E[k], sp, sp)
      requires fires == before + AllFired(ticks, Q[..k]) + [Fired(ticks, Q[k])]
      requires forall j :: k < j < |E| ==> RecordOf(E[j]) == Q[j]
      requires E[k].ticker ==> RecordOf(E[k]) == Afresh(E[k], ticks)
      ensures Swept(L, R, before, E + Goer(E[k], sp, sp), Q + AllAfresh(Goer(E[k], sp, sp), ticks), k + 1)
    {
      hide Turns;
      hide Goer;
      hide Goes;
      hide Queue;
      var tail := Goer(E[k], sp, sp);
      var Q' := Q + AllAfresh(tail, ticks);
      GoerIs(E[k], sp, sp);
      QueueNext(L, R, E, Q, k, sp, ticks);
      AllFiredNext(ticks, Q, k);
      assert Q'[..k + 1] == Q[..k + 1];
    }

    method SweepRound(ghost L: seq<Tw>, ghost R: seq<Record>, ghost before: seq<Firing>, ghost E: seq<Tw>, ghost Q: seq<Record>,
                      ghost k: nat)
      returns (tm: Tw, fired: bool)
      requires Valid() && Swept(L, R, before, E, Q, k) && slots[sp] != []
      requires forall j :: 0 <= j < k ==> Rearmed(E[j])
      modifies this`fires, slots, slots[sp][0]
      ensures tm == old(slots[sp][0]) && k < |E| && tm == E[k] && (fired <==> Q[k].n == 0)
      ensures fired ==> Valid() && Swept(L, R, before, E + Goer(tm, sp, sp), Q + AllAfresh(Goer(tm, sp, sp), ticks), k + 1)
      ensures fired ==> forall i :: 0 <= i < slots.Length && i != sp ==> slots[i] == old(slots[i]) + Goer(tm, sp, i)
      ensures forall j :: 0 <= j < k ==> Rearmed(E[j])
      ensures fired ==> Rearmed(tm) && (tm.ticker ==> tm.n == Turns(tm.duration, circle))
      ensures !fired ==> Consistent(true) && fires == old(fires) && tm.n == Q[k].n - 1 >= 0
      ensures !fired ==> RecordOf(tm) == Q[k].(n := tm.n) && forall j :: k < j < |E| ==> RecordOf(E[j]) == Q[j]
      ensures !fired ==> forall i :: 0 <= i < slots.Length ==> slots[i] == old(slots[i])
    {
      hide Due;
      hide Promised;
      hide Turns;
      hide SlotFor;
      hide NoDup;
      hide Goes;
      hide Goer;
      hide Queue;
      OnlyAt(slots[sp], 0);
      tm, fired := TakeFront(E[..k]);
      forall j | k < j < |E|
        ensures RecordOf(E[j]) == Q[j]
      {
        assert E[j] == old(slots[sp])[j - k];
      }
      if fired {
        SweptNext(L, R, before, E, Q, k);
      }
      forall j | 0 <= j < k
        ensures Rearmed(E[j])
      {
        assert E[j] in E[..k];
      }
    }

    /** The rest of a sweep's queue, as what decides how it ends. */
    ghost function Rest(E: seq<Tw>, Q: seq<Record>, k: nat, p: nat): (items: seq<Item>)
      requires sc > 0 && si > 0 && circle > 0 && k <= |E| == |Q|
      ensures |items| == |E| - k
    {
      seq(|E| - k, j requires 0 <= j < |E| - k => Item(Q[k + j].n, BackOf(E[k + j], p)))
    }

    lemma RestNext(E: seq<Tw>, Q: seq<Record>, k: nat, p: nat, tick: nat)
      requires sc > 0 && si > 0 && circle > 0 && k + 1 < |E| == |Q| && Q[k].n == 0
      ensures var tail := Goer(E[k], p, p);
              Round(Rest(E, Q, k, p)) == Some(Rest(E + tail, Q + AllAfresh(tail, tick), k + 1, p))
    {
      hide Turns;
      hide SlotFor;
      var tail := Goer(E[k], p, p);
      var s, s' := Rest(E, Q, k, p), Rest(E + tail, Q + AllAfresh(tail, tick), k + 1, p);
      assert s[0] == Item(0, BackOf(E[k], p)) && s[0].back.Some? == (tail != []);
      forall j | 0 <= j < |s'|
        ensures s'[j] == if j < |s| - 1 then s[j + 1] else Item(BackOf(E[k], p).value, BackOf(E[k], p))
      {
      }
      assert s' == s[1..] + if tail != [] then [Item(BackOf(E[k], p).value, BackOf(E[k], p))] else [];
    }

    /** A sweep that has more to do gets on with it. */
    lemma RestLowers(E: seq<Tw>, Q: seq<Record>, k: nat, p: nat, tick: nat)
      requires sc > 0 && si > 0 && circle > 0 && k + 1 < |E| == |Q| && Q[k].n == 0
      requires (forall j :: k <= j < |E| ==> Q[j].n >= 0) && !Rotates(Rest(E, Q, k, p))
      ensures var tail := Goer(E[k], p, p);
              var next := Rest(E + tail, Q + AllAfresh(tail, tick), k + 1, p);
              !Rotates(next) && Left(next) < Left(Rest(E, Q, k, p))
    {
      hide Rotates;
      hide Left;
      hide Turns;
      hide SlotFor;
      RestNext(E, Q, k, p, tick);
      RoundLowers(Rest(E, Q, k, p));
    }

    lemma HaltedEnding(L: seq<Tw>, E: seq<Tw>, Q: seq<Record>, k: nat)
      requires |L| <= |E| == |Q| && k < |E| && Q[k].n > 0
      ensures Ending(L, E, Q, k, true)
    {
    }

    lemma LastRound(L: seq<Tw>, E: seq<Tw>, Q: seq<Record>, p: nat, tick: nat)
      requires sc > 0 && si > 0 && circle > 0 && 0 < |E| == |Q| && |L| <= |E|
      ensures var tail := Goer(E[|E| - 1], p, p); Ending(L, E + tail, Q + AllAfresh(tail, tick), |E|, false)
    {
      hide Turns;
      hide SlotFor;
      GoerIs(E[|E| - 1], p, p);
    }

    lemma SweepBegins(R: seq<Record>)
      requires Shape() && R == RecordsOf(slots[sp])
      ensures Swept(slots[sp], R, fires, slots[sp], R, 0)
      ensures Rest(slots[sp], R, 0, sp) == ItemsOf(slots[sp], sp)
    {
      hide Turns;
      hide SlotFor;
    }

    lemma RestSane(L: seq<Tw>, R: seq<Record>, before: seq<Firing>, E: seq<Tw>, Q: seq<Record>, k: nat)
      requires Valid() && Swept(L, R, before, E, Q, k)
      ensures forall j :: k <= j < |E| ==> Q[j].n >= 0
    {
      hide Due;
      hide Promised;
      hide Queue;
      forall j | k <= j < |E|
        ensures Q[j].n >= 0
      {
        assert E[j] == slots[sp][j - k] && RecordOf(E[j]) == Q[j];
        assert TimerOk(E[j], sp, E[j].n);
      }
    }

    /** The other slots have gained the tickers among `s` that go there. */
    ghost predicate Gained(others: seq<seq<Tw>>, now: seq<seq<Tw>>, s: seq<Tw>, p: nat)
      requires sc > 0 && si > 0
    {
      |others| == |now| && forall i :: 0 <= i < |now| && i != p ==> now[i] == others[i] + Goes(s, p, i)
    }

    lemma GainedNone(others: seq<seq<Tw>>, p: nat)
      requires sc > 0 && si > 0
      ensures Gained(others, others, [], p)
    {
    }

    lemma GainedNext(others: seq<seq<Tw>>, was: seq<seq<Tw>>, now: seq<seq<Tw>>, s: seq<Tw>, t: Tw, p: nat)
      requires sc > 0 && si > 0 && Gained(others, was, s, p) && |now| == |was|
      requires forall i :: 0 <= i < |now| && i != p ==> now[i] == was[i] + Goer(t, p, i)
      ensures Gained(others, now, s + [t], p)
    {
      hide Goes;
      hide Goer;
      forall i | 0 <= i < |now| && i != p
        ensures now[i] == others[i] + Goes(s + [t], p, i)
      {
        GoesNext(s, t, p, i);
      }
    }

    /** The state of a sweep that goes on. */
    ghost predicate Sweeping(L: seq<Tw>, R: seq<Record>, before: seq<Firing>, others: seq<seq<Tw>>, E: seq<Tw>, Q: seq<Record>,
                             k: nat)
      requires Shape()
      reads this, slots, E
    {
      && Swept(L, R, before, E, Q, k) && |L| <= |E| && (forall t :: t in E ==> t in L)
      && (forall j :: 0 <= j < k ==> Rearmed(E[j])) && Gained(others, slots[..], E[..k], sp)
    }

    /** A round of a sweep that ends, with the bookkeeping for it. */
    method SweepStep(ghost L: seq<Tw>, ghost R: seq<Record>, ghost before: seq<Firing>, ghost others: seq<seq<Tw>>, ghost E: seq<Tw>,
                     ghost Q: seq<Record>, ghost k: nat)
      returns (tm: Tw, fired: bool)
      requires Valid() && Sweeping(L, R, before, others, E, Q, k) && slots[sp] != [] && !Rotates(Rest(E, Q, k, sp))
      modifies this`fires, slots, slots[sp][0]
      ensures k < |E| && tm == E[k] && (fired <==> Q[k].n == 0)
      ensures fired ==> var E', Q' := E + Goer(tm, sp, sp), Q + AllAfresh(Goer(tm, sp, sp), ticks);
              && Valid() && Sweeping(L, R, before, others, E', Q', k + 1)
              && if k + 1 < |E| then !Rotates(Rest(E', Q', k + 1, sp)) && Left(Rest(E', Q', k + 1, sp)) < Left(Rest(E, Q, k, sp))
                 else Ending(L, E', Q', k + 1, false)
      ensures !fired ==> Consistent(true) && slots[sp] == E[k..] && tm.n >= 0 && Ending(L, E, Q, k, true) && fires == old(fires)
      ensures !fired ==> Gained(others, slots[..], E[..k], sp) && forall j :: 0 <= j < k ==> Rearmed(E[j])
      ensures !fired ==> RecordOf(tm) == Q[k].(n := Q[k].n - 1) && forall j :: k < j < |E| ==> RecordOf(E[j]) == Q[j]
    {
      hide Due;
      hide Promised;
      hide Turns;
      hide SlotFor;
      hide NoDup;
      hide Rearmed;
      hide Goes;
      hide Goer;
      hide Queue;
      hide Rotates;
      hide Left;
      hide Gained;
      hide Ending;
      hide TimerOk;
      hide FiresOk;
      hide Rest;
      hide AllFired;
      RestSane(L, R, before, E, Q, k);
      ghost var was := slots[..];
      tm, fired := SweepRound(L, R, before, E, Q, k);
      if fired {
        GoerIs(tm, sp, sp);
        GainedNext(others, was, slots[..], E[..k], tm, sp);
        assert (E + Goer(tm, sp, sp))[..k + 1] == E[..k] + [tm];
        if k + 1 < |E| {
          RestLowers(E, Q, k, sp, ticks);
        } else {
          LastRound(L, E, Q, sp, ticks);
        }
      } else {
        HaltedEnding(L, E, Q, k);
        assert slots[..] == was;
      }
    }

    lemma SweepingBegins(R: seq<Record>)
      requires Shape() && R == RecordsOf(slots[sp])
      ensures Sweeping(slots[sp], R, fires, slots[..], slots[sp], R, 0)
      ensures !Endless(slots[sp]) ==> !Rotates(Rest(slots[sp], R, 0, sp))
      ensures slots[sp] == [] ==> Ending(slots[sp], slots[sp], R, 0, false)
    {
      SweepBegins(R);
      EndlessRotates(slots[sp]);
      GainedNone(slots[..], sp);
    }

    /** The loop of `tick`. It ends, although it appends to the list that it walks. */
    method Sweep() returns (halted: bool, ghost E: seq<Tw>, ghost Q: seq<Record>, ghost k: nat)
      requires Valid() && !Endless(slots[sp])
      modifies this`fires, slots, slots[sp]
      ensures Consistent(halted) && (halted ==> slots[sp] != [] && slots[sp][0].n >= 0)
      ensures Queue(old(slots[sp]), old(RecordsOf(slots[sp])), E, Q, k, sp, ticks) && Ending(old(slots[sp]), E, Q, k, halted)
      ensures slots[sp] == E[k..] && (forall t :: t in E ==> t in old(slots[sp]))
      ensures fires == old(fires) + AllFired(ticks, Q[..k])
      ensures forall j :: 0 <= j < k ==> Rearmed(E[j])
      ensures halted ==> RecordOf(E[k]) == Q[k].(n := Q[k].n - 1)
      ensures forall j :: (if halted then k + 1 else k) <= j < |E| ==> RecordOf(E[j]) == Q[j]
      ensures Gained(old(slots[..]), slots[..], E[..k], sp)
    {
      hide Due;
      hide Promised;
      hide Turns;
      hide SlotFor;
      hide NoDup;
      hide Rearmed;
      hide Goes;
      hide Goer;
      hide Queue;
      hide Endless;
      hide Rotates;
      hide Left;
      hide Gained;
      hide Ending;
      hide TimerOk;
      hide FiresOk;
      hide Rest;
      hide AllFired;
      ghost var L, R, others := slots[sp], RecordsOf(slots[sp]), slots[..];
      SweepingBegins(R);
      E, Q, k, halted := L, R, 0, false;
      var e := |slots[sp]| > 0;
      while e
        invariant Valid() && Sweeping(L, R, old(fires), others, E, Q, k)
        invariant if e then slots[sp] != [] && !Rotates(Rest(E, Q, k, sp)) else Ending(L, E, Q, k, false)
        decreases if e then 1 + Left(Rest(E, Q, k, sp)) else 0
      {
        e := |slots[sp]| > 1;
        assert slots[sp][0] in slots[sp] && slots[sp][0] in L;
        var tm, fired := SweepStep(L, R, old(fires), others, E, Q, k);
        if !fired {
          halted := true;
          return;
        }
        E, Q, k := E + Goer(tm, sp, sp), Q + AllAfresh(Goer(tm, sp, sp), ticks), k + 1;
      }
    }

    /** A round in an endless slot fires, and leaves the slot endless, with an element to go on to. */
    method EndlessRound()
      requires Valid() && Endless(slots[sp])
      modifies this`fires, slots, slots[sp][0]
      ensures Valid() && |slots[sp]| >= 2 && Endless(slots[sp]) && |fires| == |old(fires)| + 1
    {
      hide Due;
      hide Promised;
      hide Turns;
      hide SlotFor;
      hide Goer;
      hide Endless;
      hide Rotates;
      ghost var L, R := slots[sp], RecordsOf(slots[sp]);
      SweepBegins(R);
      EndlessRotates(L);
      RotatingFront(L, R);
      var tm, fired := SweepRound(L, R, fires, L, R, 0);
      RestNext(L, R, 0, sp, ticks);
      RotatesOn(Rest(L, R, 0, sp));
      ghost var E, Q := L + Goer(tm, sp, sp), R + AllAfresh(Goer(tm, sp, sp), ticks);
      assert Rest(E, Q, 1, sp) == ItemsOf(slots[sp], sp);
      EndlessRotates(slots[sp]);
    }

    lemma RotatingFront(L: seq<Tw>, R: seq<Record>)
      requires Shape() && |R| == |L| && Rotates(Rest(L, R, 0, sp))
      ensures |L| >= 2 && R[0].n == 0
    {
      hide BackOf;
      assert Rest(L, R, 0, sp)[0].n == R[0].n;
    }

    /**
     One tick, for a slot whose sweep ends. `E` is the sweep's queue, `Q` the records
     in it and `k` the number fired, in order. If the sweep was halted, the next is
     counted down. All the others still in the slot become a turn later. A fired
     one-shot is gone, a fired ticker is armed again; nothing else changes. A stopped
     wheel panics when a ticker is to be armed again.
     */
    method Tick() returns (ghost E: seq<Tw>, ghost Q: seq<Record>, ghost k: nat, ghost halted: bool)
      requires Valid() && !Endless(slots[sp]) && (stopped ==> forall t :: t in slots[sp] ==> !t.ticker)
      modifies this`sp, this`ticks, this`fires, slots, slots[sp]
      ensures Valid() && ticks == old(ticks) + 1
      ensures Queue(old(slots[sp]), old(RecordsOf(slots[sp])), E, Q, k, old(sp), old(ticks))
      ensures Ending(old(slots[sp]), E, Q, k, halted) && forall t :: t in E ==> t in old(slots[sp])
      ensures fires == old(fires) + AllFired(old(ticks), Q[..k])
      ensures slots[old(sp)] == E[k..] && Gained(old(slots[..]), slots[..], E[..k], old(sp))
      ensures halted ==> RecordOf(E[k]) == Q[k].(n := Q[k].n - 1)
      ensures forall j :: (if halted then k + 1 else k) <= j < |E| ==> RecordOf(E[j]) == Q[j].(late := Q[j].late + 1)
      ensures forall j :: 0 <= j < k ==> ArmedAt(E[j], old(ticks), old(sp))
      ensures Among(slots[..], old(slots[..])) && (old(Steady(slots[..])) ==> Steady(slots[..]))
    {
      hide Due;
      hide Promised;
      hide Turns;
      hide SlotFor;
      hide NoDup;
      hide Rearmed;
      hide Queue;
      hide Gained;
      hide Endless;
      hide AllFired;
      hide Steady;
      hide Among;
      ghost var L, was := slots[sp], slots[..];
      halted, E, Q, k := Sweep();
      assert forall t :: t in E ==> t in L;
      forall j | k <= j < |E|
        ensures E[j] in slots[sp] && (E[j] == slots[sp][0] <==> j == k)
      {
        OnlyAt(slots[sp], 0);
        assert E[j] == slots[sp][j - k];
      }
      ghost var now := slots[..];
      KeepsSteady(was, now, E, k);
      Advance(halted, L, E, k);
      assert slots[..] == now;
    }

    // ---------- When a timer fires ----------

    /** The turns left of the timer at place `j` of slot `i` and of all ahead of it. */
    ghost function Through(i: nat, j: nat): int
      requires i < slots.Length && j < |slots[i]|
      reads slots, slots[i]
    {
      Sum(RecordsOf(slots[i][..j + 1]))
    }

    /** The tick in which that timer will fire, if neither it nor one ahead of it is stopped or reset. */
    ghost function FiresAt(i: nat, j: nat): int
      requires i < slots.Length && j < |slots[i]| && sc > 0
      reads this, slots, slots[i]
    {
      Due(sc, ticks, i, Through(i, j))
    }

    lemma ThroughIs(i: nat, j: nat)
      requires Valid() && i < slots.Length && j < |slots[i]|
      ensures RecordsOf(slots[i][..j + 1]) == RecordsOf(slots[i])[..j + 1]
      ensures forall x :: 0 <= x < |slots[i]| ==> RecordsOf(slots[i])[x].n >= 0
      ensures Through(i, j) >= slots[i][j].n >= 0
    {
      hide Due;
      hide Promised;
      forall x | 0 <= x < |slots[i]|
        ensures RecordsOf(slots[i])[x].n >= 0
      {
        assert TimerOk(slots[i][x], i, slots[i][x].n);
      }
      var rs := RecordsOf(slots[i])[..j + 1];
      assert RecordsOf(slots[i][..j + 1]) == rs;
      SumZero(rs[..j]);
    }

    /** A sweep fires exactly the timers with no turns left up to and including them. */
    lemma FiresNow(L: seq<Tw>, R: seq<Record>, E: seq<Tw>, Q: seq<Record>, k: nat, halted: bool, p: nat, tick: nat, j: nat)
      requires sc > 0 && si > 0 && circle > 0 && Queue(L, R, E, Q, k, p, tick) && Ending(L, E, Q, k, halted)
      requires j < |R| && forall x :: 0 <= x < |R| ==> R[x].n >= 0
      ensures j < k <==> Sum(R[..j + 1]) == 0
      ensures |E| == |Q| >= |R| == |L| && forall x :: 0 <= x < |R| ==> E[x] == L[x] && Q[x] == R[x]
      ensures j >= k ==> halted && R[k].n > 0 && forall x :: 0 <= x < k ==> R[x].n == 0
    {
      hide Turns;
      hide SlotFor;
      hide Goes;
      SumZero(R[..j + 1]);
      assert forall x :: 0 <= x < |R| ==> Q[x] == R[x] && E[x] == L[x];
      if j >= k {
        assert R[..j + 1][k].n > 0;
      }
    }

    lemma InSlot(i: nat)
      requires Valid() && i < slots.Length
      ensures NoDup(slots[i]) && forall t :: t in slots[i] ==> t.pos == i
    {
      hide Due;
      hide Promised;
      forall t | t in slots[i]
        ensures t.pos == i
      {
        assert TimerOk(t, i, t.n);
      }
    }

    lemma QueueTimers(L: seq<Tw>, R: seq<Record>, E: seq<Tw>, Q: seq<Record>, k: nat, p: nat, tick: nat)
      requires sc > 0 && si > 0 && circle > 0 && Queue(L, R, E, Q, k, p, tick)
      requires forall x :: 0 <= x < |R| ==> R[x].tm == L[x]
      ensures k <= |Q| == |E| && forall y :: 0 <= y < |E| ==> Q[y].tm == E[y]
    {
      hide Turns;
      hide SlotFor;
      hide Goes;
    }

    /** A timer in another slot is where it was, and so is all ahead of it. */
    lemma StaysElsewhere(i: nat, j: nat, rs: seq<Record>, tick: nat)
      requires Shape() && ticks == tick + 1 && i < slots.Length && i != tick % sc
      requires j < |rs| <= |slots[i]| && RecordsOf(slots[i])[..|rs|] == rs
      ensures FiresAt(i, j) == Due(sc, tick, i, Sum(rs[..j + 1]))
    {
      assert RecordsOf(slots[i][..j + 1]) == rs[..j + 1];
      DueElsewhere(sc, tick, i, Sum(rs[..j + 1]));
    }

    /** A timer behind the one that halted the sweep has one turn less ahead of it, and a turn has passed. */
    lemma StaysBehind(i: nat, j: nat, rs: seq<Record>, k: nat, tick: nat)
      requires Shape() && ticks == tick + 1 && i < slots.Length && i == tick % sc
      requires k <= j < |rs| && j - k < |slots[i]|
      requires forall x :: 0 <= x < k ==> rs[x].n == 0
      requires slots[i][0].n == rs[k].n - 1 && forall x :: 1 <= x <= j - k ==> slots[i][x].n == rs[k + x].n
      ensures FiresAt(i, j - k) == Due(sc, tick, i, Sum(rs[..j + 1]))
    {
      var rs' := RecordsOf(slots[i][..j - k + 1]);
      SumAfter(rs[..j + 1], rs', k);
      DueSwept(sc, tick, Sum(rs[..j + 1]));
    }

    ghost predicate Tracked(t: Tw, at: int, armed: nat, delay: nat, i: nat, j: nat)
      requires sc > 0
      reads this, slots, if i < slots.Length then slots[i] else []
    {
      && i < slots.Length && j < |slots[i]| && slots[i][j] == t
      && FiresAt(i, j) == at && t.armed == armed && t.delay == delay
    }

    /** No callback of the timer ran since there were `from` firings. */
    ghost predicate Silent(t: Tw, from: nat, until: nat)
      reads this
    {
      until <= |fires| && forall y :: from <= y < until ==> fires[y].tm != t
    }

    lemma SilentAfter(t: Tw, before: seq<Firing>, tick: nat, Q: seq<Record>)
      requires fires == before + AllFired(tick, Q) && forall y :: 0 <= y < |Q| ==> Q[y].tm != t
      ensures Silent(t, |before|, |fires|)
    {
    }

    lemma FiresThen(t: Tw, before: seq<Firing>, tick: nat, Q: seq<Record>, j: nat)
      requires j < |Q| && fires == before + AllFired(tick, Q) && forall y :: 0 <= y < j ==> Q[y].tm != t
      ensures |before| + j < |fires| && fires[|before| + j] == Fired(tick, Q[j]) && Silent(t, |before|, |before| + j)
    {
    }

    /** A timer in another slot, after the tick. */
    lemma PassedBy(t: Tw, was: seq<seq<Tw>>, rs: seq<Record>, before: seq<Firing>, E: seq<Tw>, Q: seq<Record>, k: nat,
                   i: nat, j: nat, tick: nat)
      requires Shape() && ticks == tick + 1 && i < slots.Length == |was| && i != tick % sc && j < |was[i]| == |rs| && k <= |E| == |Q|
      requires Gained(was, slots[..], E[..k], tick % sc) && was[i][j] == t && t !in E
      requires forall x :: 0 <= x < |rs| ==> RecordOf(was[i][x]) == rs[x]
      requires fires == before + AllFired(tick, Q[..k]) && forall y :: 0 <= y < |E| ==> Q[y].tm == E[y]
      ensures Tracked(t, Due(sc, tick, i, Sum(rs[..j + 1])), rs[j].armed, rs[j].delay, i, j) && Silent(t, |before|, |fires|)
    {
      hide Due;
      hide Goes;
      GainedAt(was, slots[..], E[..k], tick % sc, i);
      assert slots[i] == was[i] + slots[i][|rs|..];
      assert RecordsOf(slots[i])[..|rs|] == rs;
      StaysElsewhere(i, j, rs, tick);
      SilentAfter(t, before, tick, Q[..k]);
    }

    /** A timer behind the one that halted the sweep, after the tick. */
    lemma LeftBehind(t: Tw, R: seq<Record>, before: seq<Firing>, E: seq<Tw>, Q: seq<Record>, k: nat, j: nat, tick: nat)
      requires Shape() && ticks == tick + 1 && k <= j < |R| <= |E| == |Q| && (forall y :: 0 <= y < |R| ==> Q[y] == R[y])
      requires slots[tick % sc] == E[k..] && E[j] == t && forall y :: 0 <= y < j ==> E[y] != t
      requires forall x :: 0 <= x < k ==> R[x].n == 0
      requires RecordOf(E[k]) == Q[k].(n := Q[k].n - 1)
      requires forall y :: k < y < |E| ==> RecordOf(E[y]) == Q[y].(late := Q[y].late + 1)
      requires fires == before + AllFired(tick, Q[..k]) && forall y :: 0 <= y < |E| ==> Q[y].tm == E[y]
      ensures Tracked(t, Due(sc, tick, tick % sc, Sum(R[..j + 1])), R[j].armed, R[j].delay, tick % sc, j - k)
      ensures Silent(t, |before|, |fires|)
    {
      hide Due;
      hide Sum;
      assert RecordOf(E[j]).armed == R[j].armed && RecordOf(E[j]).delay == R[j].delay;
      forall x | 1 <= x <= j - k
        ensures slots[tick % sc][x].n == R[k + x].n
      {
        assert RecordOf(E[k + x]).n == Q[k + x].n;
      }
      StaysBehind(tick % sc, j, R, k, tick);
      SilentAfter(t, before, tick, Q[..k]);
    }

    /** No slot has two fast tickers. */
    ghost predicate Steady(lists: seq<seq<Tw>>) {
      forall i, a, b :: 0 <= i < |lists| && a in lists[i] && b in lists[i] && Fast(a) && Fast(b) ==> a == b
    }

    lemma EndlessUnsteady()
      requires Valid() && Endless(slots[sp])
      ensures !Steady(slots[..])
    {
      InSlot(sp);
      var j, k :| 0 <= j < k < |slots[sp]| && Fast(slots[sp][j]) && Fast(slots[sp][k]);
      var i, a, b := sp, slots[sp][j], slots[sp][k];
      assert a in slots[..][i] && b in slots[..][i] && a != b;
    }

    /** A steady wheel has no endless sweep. */
    lemma SteadyEnds()
      requires Valid() && Steady(slots[..])
      ensures !Endless(slots[sp])
    {
      if Endless(slots[sp]) {
        EndlessUnsteady();
      }
    }

    lemma SteadyNext(lists: seq<seq<Tw>>, lists': seq<seq<Tw>>, E: seq<Tw>, k: nat, p: nat)
      requires Shape() && Steady(lists) && |lists| == sc && p < sc && k <= |E| && Gained(lists, lists', E[..k], p)
      requires lists'[p] == E[k..] && forall t :: t in E ==> t in lists[p]
      ensures Steady(lists')
    {
      hide Goes;
      hide Turns;
      forall i, t | 0 <= i < |lists'| && t in lists'[i] && Fast(t)
        ensures t in lists[i]
      {
        if i != p {
          GoesMember(E[..k], p, i);
          FastStays(t, p);
        }
      }
    }

    /** The slots hold no timer that they did not hold before. */
    ghost predicate Among(now: seq<seq<Tw>>, lists: seq<seq<Tw>>) {
      forall i, t :: 0 <= i < |now| && t in now[i] ==> exists i0 :: 0 <= i0 < |lists| && t in lists[i0]
    }

    lemma NoneNew(lists: seq<seq<Tw>>, lists': seq<seq<Tw>>, E: seq<Tw>, k: nat, p: nat)
      requires sc > 0 && si > 0 && p < |lists| && k <= |E| && Gained(lists, lists', E[..k], p)
      requires lists'[p] == E[k..] && forall t :: t in E ==> t in lists[p]
      ensures Among(lists', lists)
    {
      hide Goes;
      hide SlotFor;
      forall i, t | 0 <= i < |lists'| && t in lists'[i]
        ensures exists i0 :: 0 <= i0 < |lists| && t in lists[i0]
      {
        if i != p {
          GoesMember(E[..k], p, i);
          assert t in lists[i] || t in lists[p];
        } else {
          assert t in lists[p];
        }
      }
    }

    lemma KeepsSteady(was: seq<seq<Tw>>, now: seq<seq<Tw>>, E: seq<Tw>, k: nat)
      requires Shape() && |was| == sc && k <= |E| && Gained(was, now, E[..k], sp)
      requires now[sp] == E[k..] && forall t :: t in E ==> t in was[sp]
      ensures Among(now, was) && (Steady(was) ==> Steady(now))
    {
      hide Goes;
      hide Steady;
      hide Among;
      NoneNew(was, now, E, k, sp);
      if Steady(was) {
        SteadyNext(was, now, E, k, sp);
      }
    }

    lemma FastStays(t: Tw, p: nat)
      requires Shape() && Fast(t) && p < sc
      ensures SlotFor(t.duration, sc, si, p) == p
    {
      ModIs(t.duration, si, 0, t.duration);
      ModIs(p, sc, 0, p);
    }

    /** What is known before a tick of the timer at place `j` of slot `i`. */
    lemma BeforeTick(i: nat, j: nat)
      requires Valid() && i < slots.Length && j < |slots[i]|
      ensures FiresAt(i, j) == Due(sc, ticks, i, Sum(RecordsOf(slots[i])[..j + 1])) >= ticks
      ensures FiresAt(i, j) == ticks <==> i == sp && Sum(RecordsOf(slots[i])[..j + 1]) == 0
      ensures forall x :: 0 <= x < |slots[i]| ==> RecordsOf(slots[i])[x].n >= 0
      ensures forall x :: 0 <= x < |slots[i]| && x != j ==> slots[i][x] != slots[i][j]
      ensures i != sp ==> forall x :: 0 <= x < |slots[i]| ==> slots[i][x] !in slots[sp]
    {
      hide Due;
      hide Promised;
      hide Sum;
      ThroughIs(i, j);
      DueNotPast(sc, ticks, i, Through(i, j));
      InSlot(i);
      InSlot(sp);
      OnlyAt(slots[i], j);
    }

    /**
     A tick, as the timer at place `j` of slot `i` sees it (if there is one to `watch`):
     it fires if this is the tick it was to fire in; else it waits on, in place `j'`, to
     fire when it was to.
     */
    method TickTimer(ghost watch: bool, ghost i: nat, ghost j: nat) returns (ghost j': nat)
      requires Valid() && !Endless(slots[sp]) && (stopped ==> forall t :: t in slots[sp] ==> !t.ticker)
      requires watch ==> i < slots.Length && j < |slots[i]|
      modifies this`sp, this`ticks, this`fires, slots, slots[sp]
      ensures Valid() && ticks == old(ticks) + 1 && old(fires) <= fires
      ensures watch ==> old(FiresAt(i, j)) >= old(ticks)
      ensures watch && old(FiresAt(i, j)) == old(ticks) ==>
                && |old(fires)| + j < |fires| && fires[|old(fires)| + j] == Fired(old(ticks), old(RecordOf(slots[i][j])))
                && Silent(old(slots[i][j]), |old(fires)|, |old(fires)| + j)
      ensures watch && old(FiresAt(i, j)) != old(ticks) ==>
                && Tracked(old(slots[i][j]), old(FiresAt(i, j)), old(slots[i][j].armed), old(slots[i][j].delay), i, j')
                && Silent(old(slots[i][j]), |old(fires)|, |fires|)
      ensures old(Steady(slots[..])) ==> Steady(slots[..])
      ensures Among(slots[..], old(slots[..]))
    {
      hide Due;
      hide Promised;
      hide Turns;
      hide SlotFor;
      hide NoDup;
      hide Queue;
      hide Ending;
      hide Endless;
      hide AllFired;
      hide Goes;
      hide Steady;
      hide Tracked;
      hide Silent;
      hide Sum;
      hide Gained;
      hide Afresh;
      hide ArmedAt;
      hide FiresAt;
      hide Through;
      hide Among;
      ghost var L, R, before, p, tick, was := slots[sp], RecordsOf(slots[sp]), fires, sp, ticks, slots[..];
      ghost var ts := if watch then slots[i] else [];
      ghost var rs := RecordsOf(ts);
      if watch {
        BeforeTick(i, j);
      }
      var E, Q, k, halted := Tick();
      j' := j;
      QueueTimers(L, R, E, Q, k, p, tick);
      if watch {
        if i == p {
          FiresNow(L, R, E, Q, k, halted, p, tick, j);
          if j < k {
            FiresThen(ts[j], before, tick, Q[..k], j);
          } else {
            j' := j - k;
            LeftBehind(ts[j], R, before, E, Q, k, j, tick);
          }
        } else {
          PassedBy(ts[j], was, rs, before, E, Q, k, i, j, tick);
        }
      }
    }

    lemma GainedAt(others: seq<seq<Tw>>, now: seq<seq<Tw>>, s: seq<Tw>, p: nat, i: nat)
      requires sc > 0 && si > 0 && Gained(others, now, s, p) && i < |now| && i != p
      ensures others[i] <= now[i]
    {
      hide Goes;
    }

    /** The timer fired once since there were `from` firings, in tick `at`, for the arming it had. */
    ghost predicate FiredAt(t: Tw, at: int, armed: nat, delay: nat, from: nat)
      reads this
    {
      exists x :: from <= x < |fires| && fires[x].tm == t && fires[x].tick == at
                  && fires[x].armed == armed && fires[x].delay == delay && Silent(t, from, x)
    }

    /**
     `turns` turns of the loop of `start`, with no other call meanwhile. The timer at
     place `j` of slot `i` fires in the very tick that FiresAt predicts, and not before.
     */
    method Start(turns: nat, ghost i: nat, ghost j: nat)
      requires Valid() && Steady(slots[..]) && !stopped && i < slots.Length && j < |slots[i]|
      modifies this`sp, this`ticks, this`fires, slots, Timers()
      ensures Valid() && Steady(slots[..]) && ticks == old(ticks) + turns && old(fires) <= fires
      ensures old(FiresAt(i, j)) < old(ticks) + turns ==>
                FiredAt(old(slots[i][j]), old(FiresAt(i, j)), old(slots[i][j].armed), old(slots[i][j].delay), |old(fires)|)
      ensures old(FiresAt(i, j)) >= old(ticks) + turns ==>
                && (exists j' :: Tracked(old(slots[i][j]), old(FiresAt(i, j)), old(slots[i][j].armed), old(slots[i][j].delay), i, j'))
                && Silent(old(slots[i][j]), |old(fires)|, |fires|)
    {
      hide Due;
      hide Promised;
      hide Steady;
      hide Endless;
      hide TimerOk;
      hide FiresOk;
      hide NoDup;
      hide Through;
      ghost var t, at, armed, delay, from := slots[i][j], FiresAt(i, j), slots[i][j].armed, slots[i][j].delay, |fires|;
      ghost var all := Timers();
      ghost var j' := j;
      BeforeTick(i, j);
      for n := 0 to turns
        invariant Valid() && Steady(slots[..]) && !stopped && ticks == old(ticks) + n && old(fires) <= fires
        invariant Timers() <= all
        invariant if at < ticks then FiredAt(t, at, armed, delay, from)
                  else Tracked(t, at, armed, delay, i, j') && Silent(t, from, |fires|)
      {
        SteadyEnds();
        ghost var was := slots[..];
        assert forall u :: u in slots[sp] ==> u in all;
        j' := TickTimer(at >= ticks, i, j');
        AmongTimers(was, all);
      }
    }

    lemma AmongTimers(was: seq<seq<Tw>>, all: set<Tw>)
      requires Among(slots[..], was) && forall i, t :: 0 <= i < |was| && t in was[i] ==> t in all
      ensures Timers() <= all
    {
      forall i, t | 0 <= i < slots.Length && t in slots[i]
        ensures t in all
      {
        assert t in slots[..][i];
      }
    }

    /** No timer ever fired early, and each fired late by a turn for each sweep that stopped before it. */
    lemma NeverEarly(k: nat)
      requires Valid() && k < |fires|
      ensures var f := fires[k]; var delta := f.tick - (f.armed + f.delay);
              delta >= 0 && delta / sc == f.late && delta % sc == 0
    {
      MulMonotone(0, fires[k].late, sc);
      ModIs(fires[k].tick - (fires[k].armed + fires[k].delay), sc, fires[k].late, 0);
    }

    /**
     A queued timer fires a turn late for each turn left to the timers ahead of it,
     beside the turns that it is late already; so a timer that has just been armed
     fires on time exactly if no timer ahead of it in its slot has turns left.
     */
    lemma OnTimeExactly(i: nat, j: nat)
      requires Valid() && i < slots.Length && j < |slots[i]|
      ensures var t, ahead := slots[i][j], Sum(RecordsOf(slots[i][..j]));
              && FiresAt(i, j) == t.armed + t.delay + (t.late + ahead) * sc
              && (ahead == 0 <==> forall x :: 0 <= x < j ==> slots[i][x].n == 0)
              && (FiresAt(i, j) == t.armed + t.delay <==> t.late == 0 && ahead == 0)
    {
      var t, rs := slots[i][j], RecordsOf(slots[i][..j]);
      ThroughIs(i, j);
      assert RecordsOf(slots[i][..j + 1])[..j] == rs == RecordsOf(slots[i])[..j];
      SumZero(rs);
      assert forall x :: 0 <= x < j ==> rs[x].n == slots[i][x].n;
      assert Due(sc, ticks, i, t.n) == Promised(sc, t.armed, t.delay, t.late) by {
        assert TimerOk(t, i, t.n);
      }
      LaterBy(sc, t.late, Sum(rs), t.n);
    }

    /** Once a timer is taken out of its slot, those behind it fire earlier, by a turn for each turn it had left. */
    lemma StopHastens(i: nat, x: nat, j: nat)
      requires Valid() && i < slots.Length && x < j < |slots[i]|
      ensures var s := Remove(slots[i], slots[i][x]);
              && |s| == |slots[i]| - 1 && s[j - 1] == slots[i][j]
              && Due(sc, ticks, i, Sum(RecordsOf(s)[..j])) == FiresAt(i, j) - slots[i][x].n * sc
    {
      hide Due;
      hide Promised;
      hide Sum;
      var s, rs := slots[i], RecordsOf(slots[i]);
      InSlot(i);
      OnlyAt(s, x);
      RemoveAt(s, x);
      assert RecordsOf(Remove(s, s[x])) == rs[..x] + rs[x + 1..];
      SumWithout(rs, x, j);
      ThroughIs(i, j);
      DueLess(sc, ticks, i, Sum(rs[..j + 1]), s[x].n);
    }

    /** All one-shots were armed for less than a turn, all tickers for at least a tick and less than a turn, and nothing was ever late. */
    ghost predicate Exact()
      reads this, slots, Timers()
    {
      && (forall i, t :: 0 <= i < slots.Length && t in slots[i] ==>
            t.n == 0 && t.late == 0 && (t.ticker ==> si <= t.duration < circle))
      && forall j :: 0 <= j < |fires| ==> fires[j].late == 0
    }

    ghost predicate Queued(t: Tw)
      reads this, slots, t
    {
      t.pos < slots.Length && t in slots[t.pos]
    }

    lemma QueuedIn(t: Tw, i: nat)
      requires Valid() && i < slots.Length && t in slots[i]
      ensures t.pos == i && Queued(t)
    {
      InSlot(i);
    }

    /** In an exact wheel no timer is overdue, and those that are due are the ones in the slot under the pointer. */
    lemma NotOverdue(t: Tw)
      requires Valid() && Exact() && Queued(t)
      ensures ticks <= t.armed + t.delay
      ensures t.armed + t.delay == ticks <==> t in slots[sp]
    {
      hide Due;
      assert TimerOk(t, t.pos, t.n);
      PromisedOnTime(sc, t.armed, t.delay);
      DueNotPast(sc, ticks, t.pos, t.n);
      if t in slots[sp] {
        QueuedIn(t, sp);
      }
    }

    method SetExact(d: nat, ticker: bool) returns (tm: Tw)
      requires Valid() && Exact() && !stopped && d < circle && (ticker ==> d >= si)
      modifies slots
      ensures Valid() && Exact() && Queued(tm) && tm.armed == ticks && tm.delay == d / si
    {
      hide Due;
      hide Promised;
      hide Turns;
      var r := Set(d, ticker);
      tm := r.value;
      ShortTurn(d, sc, si);
      forall i, t | 0 <= i < slots.Length && t in slots[i]
        ensures t.n == 0 && t.late == 0 && (t.ticker ==> si <= t.duration < circle)
      {
        assert t == tm || t in old(slots[i]);
      }
      assert tm in slots[tm.pos];
    }

    /** In an exact wheel no fired ticker comes back to the slot it was in. */
    lemma ExactQueue(L: seq<Tw>, R: seq<Record>, E: seq<Tw>, Q: seq<Record>, k: nat, halted: bool, p: nat, tick: nat)
      requires Shape() && p < sc && Queue(L, R, E, Q, k, p, tick) && Ending(L, E, Q, k, halted)
      requires forall t :: t in E ==> t in L && (t.ticker ==> si <= t.duration < circle)
      requires forall x :: 0 <= x < |R| ==> R[x].n == 0
      ensures E == L && Q == R && k == |L| && !halted && E[..k] == L && Q[..k] == R
    {
      hide Turns;
      hide Goes;
      GoesMember(E[..k], p, p);
      var back := Goes(E[..k], p, p);
      if back != [] {
        var t := back[0];
        assert t in back && t in E;
        ShortTurn(t.duration, sc, si);
        RearmedElsewhere(sc, p, t.duration / si);
        assert false;
      }
    }

    lemma ExactSteady()
      requires Valid() && Exact()
      ensures Steady(slots[..]) && !Endless(slots[sp])
    {
      assert forall i, t :: 0 <= i < slots.Length && t in slots[..][i] ==> t in slots[i];
      SteadyEnds();
    }

    /** After a tick that fired the whole list `L` of slot `p`, the wheel is exact again. */
    lemma ExactAgain(was: seq<seq<Tw>>, L: seq<Tw>, p: nat, tick: nat)
      requires Valid() && p < sc && slots[p] == [] && Gained(was, slots[..], L, p)
      requires forall t :: t in L ==> ArmedAt(t, tick, p) && (t.ticker ==> si <= t.duration < circle)
      requires forall i, t :: 0 <= i < |was| && i != p && t in was[i] ==>
                 t in L || (t.n == 0 && t.late == 0 && (t.ticker ==> si <= t.duration < circle))
      ensures forall i, t :: 0 <= i < slots.Length && t in slots[i] ==>
                t.n == 0 && t.late == 0 && (t.ticker ==> si <= t.duration < circle)
    {
      hide Due;
      hide Promised;
      hide Turns;
      hide SlotFor;
      hide Goes;
      forall i, t | 0 <= i < slots.Length && t in slots[i]
        ensures t.n == 0 && t.late == 0 && (t.ticker ==> si <= t.duration < circle)
      {
        GoesMember(L, p, i);
        QueuedIn(t, i);
        assert t in slots[..][i];
        assert t in was[i] || t in Goes(L, p, i);
        if t in L && t.ticker {
          ShortTurn(t.duration, sc, si);
        }
      }
    }

    /**
     In an exact wheel a tick fires every timer of its slot; it arms the tickers among
     them again, and leaves the others as they were.
     */
    method TickExact()
      requires Valid() && Exact() && (stopped ==> forall t :: t in slots[sp] ==> !t.ticker)
      modifies this`sp, this`ticks, this`fires, slots, slots[sp]
      ensures Valid() && Exact() && ticks == old(ticks) + 1 && slots[old(sp)] == [] && Among(slots[..], old(slots[..]))
      ensures fires == old(fires) + AllFired(old(ticks), old(RecordsOf(slots[sp])))
      ensures forall t :: t in old(slots[sp]) ==> ArmedAt(t, old(ticks), old(sp))
      ensures forall i :: 0 <= i < slots.Length && i != old(sp) ==> old(slots[i]) <= slots[i]
    {
      hide Due;
      hide Promised;
      hide Turns;
      hide SlotFor;
      hide Queue;
      hide Ending;
      hide Endless;
      hide AllFired;
      hide Gained;
      hide Steady;
      hide Among;
      hide ArmedAt;
      ghost var L, R, was, p, tick := slots[sp], RecordsOf(slots[sp]), slots[..], sp, ticks;
      ExactSteady();
      var E, Q, k, halted := Tick();
      ExactQueue(L, R, E, Q, k, halted, p, tick);
      ExactAgain(was, L, p, tick);
      forall j | 0 <= j < |fires|
        ensures fires[j].late == 0
      {
        FiredLate(|old(fires)|, tick, R, old(fires), j);
      }
      forall i | 0 <= i < slots.Length && i != p
        ensures old(slots[i]) <= slots[i]
      {
        GainedAt(was, slots[..], L, p, i);
      }
    }

    lemma FiredLate(n: nat, tick: nat, R: seq<Record>, before: seq<Firing>, j: nat)
      requires fires == before + AllFired(tick, R) && n == |before| && j < |fires|
      requires (forall x :: 0 <= x < n ==> before[x].late == 0) && forall x :: 0 <= x < |R| ==> R[x].late == 0
      ensures fires[j].late == 0
    {
    }

    /** Where a timer is after it has fired `c` times, first in tick `at`; a ticker fires again every `period` ticks. */
    ghost predicate OnSchedule(t: Tw, at: nat, period: nat, c: nat)
      reads this, slots, t
    {
      if t.ticker then
        && Queued(t) && t.armed + t.delay == at + c * period && (c > 0 ==> at + (c - 1) * period < ticks)
      else if c == 0 then Queued(t) && t.armed + t.delay == at
      else c == 1 && at < ticks && forall i :: 0 <= i < slots.Length ==> t !in slots[i]
    }

    lemma EveryNone(at: nat, period: nat, times: seq<nat>)
      ensures times + Every(at, period, 0) == times
    {
    }

    lemma EveryNext(at: nat, period: nat, c: nat, times: seq<nat>)
      ensures (times + Every(at, period, c)) + [at + c * period] == times + Every(at, period, c + 1)
    {
    }

    lemma Rescheduled(t: Tw, at: nat, period: nat, c: nat, tick: nat, p: nat)
      requires si > 0 && circle > 0 && ticks == tick + 1 && ArmedAt(t, tick, p)
      requires if t.ticker then tick == at + c * period && period == t.duration / si else c == 0 && at == tick
      ensures OnSchedule(t, at, period, c + 1)
    {
      assert (c + 1) * period == c * period + period;
    }

    lemma OffSlot(t: Tw, at: nat, period: nat, c: nat)
      requires Valid() && Exact() && OnSchedule(t, at, period, c)
      ensures t.ticker || c == 0 ==> Queued(t) && ticks <= t.armed + t.delay && (t.armed + t.delay == ticks <==> t in slots[sp])
      ensures !t.ticker && c > 0 ==> forall i :: 0 <= i < slots.Length ==> t !in slots[i]
    {
      if t.ticker || c == 0 {
        NotOverdue(t);
      }
    }

    /** A timer that is in no slot stays out. */
    lemma StaysOut(was: seq<seq<Tw>>, t: Tw)
      requires Among(slots[..], was) && forall i :: 0 <= i < |was| ==> t !in was[i]
      ensures forall i :: 0 <= i < slots.Length ==> t !in slots[i]
    {
      forall i | 0 <= i < slots.Length
        ensures t !in slots[i]
      {
        assert slots[..][i] == slots[i];
      }
    }

    method TurnExact(ghost t: Tw, ghost at: nat, ghost period: nat, ghost c: nat, ghost times: seq<nat>) returns (ghost c': nat)
      requires Valid() && Exact() && !stopped && OnSchedule(t, at, period, c) && (t.ticker ==> period == t.duration / si)
      requires Times(fires, t) == times + Every(at, period, c)
      modifies this`sp, this`ticks, this`fires, slots, slots[sp]
      ensures Valid() && Exact() && ticks == old(ticks) + 1 && Among(slots[..], old(slots[..]))
      ensures OnSchedule(t, at, period, c') && Times(fires, t) == times + Every(at, period, c')
    {
      hide Due;
      hide Promised;
      hide Turns;
      hide SlotFor;
      hide NoDup;
      hide AllFired;
      hide Among;
      hide ArmedAt;
      hide Times;
      hide Every;
      ghost var was, L, R, p, tick := slots[..], slots[sp], RecordsOf(slots[sp]), sp, ticks;
      OffSlot(t, at, period, c);
      InSlot(sp);
      TimesNext(fires, tick, L, R, t);
      ghost var queued := t.ticker || c == 0;
      TickExact();
      c' := c;
      if t in L {
        EveryNext(at, period, c, times);
        Rescheduled(t, at, period, c, tick, p);
        c' := c + 1;
      } else if !queued {
        StaysOut(was, t);
      }
    }

    /**
     `turns` turns of the loop of `start` in an exact wheel, for a timer `t` that is
     queued. It fires first exactly `delay` ticks after it was armed; a one-shot not
     again, a ticker then exactly every `duration / si` ticks.
     */
    method StartExact(turns: nat, ghost t: Tw) returns (ghost c: nat)
      requires Valid() && Exact() && !stopped && Queued(t)
      modifies this`sp, this`ticks, this`fires, slots, Timers()
      ensures Valid() && Exact() && ticks == old(ticks) + turns
      ensures Times(fires, t) == old(Times(fires, t)) + Every(old(t.armed + t.delay), t.duration / si, c)
      ensures if t.ticker then (c > 0 ==> old(t.armed + t.delay) + (c - 1) * (t.duration / si) < ticks)
                               && ticks <= old(t.armed + t.delay) + c * (t.duration / si)
              else c == if old(t.armed + t.delay) < ticks then 1 else 0
    {
      hide Exact;
      hide Consistent;
      hide Among;
      hide Times;
      hide Every;
      PointerInRange();
      ghost var at, period, all := t.armed + t.delay, t.duration / si, Timers();
      c := 0;
      EveryNone(at, period, Times(fires, t));
      for n := 0 to turns
        invariant Valid() && Exact() && !stopped && ticks == old(ticks) + n
        invariant Timers() <= all
        invariant OnSchedule(t, at, period, c)
        invariant Times(fires, t) == old(Times(fires, t)) + Every(at, period, c)
      {
        ghost var was := slots[..];
        PointerInRange();
        assert forall u :: u in slots[sp] ==> u in all;
        c := TurnExact(t, at, period, c, old(Times(fires, t)));
        AmongTimers(was, all);
      }
      OffSlot(t, at, period, c);
    }

    lemma PointerInRange()
      requires Valid()
      ensures si > 0 && 0 <= sp < slots.Length
    {
    }
  }
}
