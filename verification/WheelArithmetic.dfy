/**
 The arithmetic of a timing wheel with `sc` slots of `si` time units, whose pointer is
 at `ticks % sc` after `ticks` ticks (tools/timer/timerwheel.go): turns and slots from
 durations, and the tick in which a timer in a slot is due.
 */
module WheelArithmetic {

  /** The tick in which a timer in slot `pos` with `n` turns left fires, if each sweep of its slot reaches it. */
  ghost function Due(sc: int, ticks: nat, pos: int, n: int): int
    requires sc > 0
  {
    ticks + (pos - ticks) % sc + n * sc
  }

  /** The tick that the record of a timer predicts: on time, or late by whole turns. */
  ghost function Promised(sc: int, armed: nat, delay: nat, late: nat): int {
    armed + delay + late * sc
  }

  lemma DivUnique(a: int, b: int, q: int)
    requires b > 0 && q * b <= a < q * b + b
    ensures a / b == q
  {
    var p := a / b;
    assert p * b <= a < p * b + b;
    if p > q {
      MulMonotone(q + 1, p, b);
    } else {
      MulMonotone(p + 1, if p < q then q else p + 1, b);
    }
  }

  lemma ModIs(a: int, m: int, k: int, r: int)
    requires a == k * m + r && 0 <= r < m
    ensures a / m == k && a % m == r
  {
    DivUnique(a, m, k);
  }

  lemma MulMonotone(x: int, y: int, z: int)
    requires x <= y && z >= 0
    ensures x * z <= y * z
  {
  }

  lemma Distribute(x: int, y: int, z: int)
    ensures (x + y) * z == x * z + y * z
  {
  }

  lemma Associate(x: int, y: int, z: int)
    ensures (x * y) * z == x * (y * z)
  {
  }

  lemma WithinCircle(r: nat, e: nat, sc: int, si: int)
    requires r < sc && e < si
    ensures 0 <= r * si + e < sc * si
  {
    MulMonotone(r + 1, sc, si);
    Distribute(r, 1, si);
    MulMonotone(0, r, si);
  }

  /** Turns are the whole ticks divided by the number of slots. */
  lemma NestedDiv(d: nat, sc: int, si: int)
    requires sc > 0 && si > 0
    ensures sc * si > 0 && d / (sc * si) == (d / si) / sc
  {
    var q := d / si;
    var n, r := q / sc, q % sc;
    var e := d - q * si;
    assert 0 <= e < si && q == n * sc + r;
    WithinCircle(r, e, sc, si);
    assert q * si == n * (sc * si) + r * si by {
      Distribute(n * sc, r, si);
      Associate(n, sc, si);
    }
    ModIs(d, sc * si, n, r * si + e);
  }

  lemma GapOf(sc: int, ticks: nat, q: nat)
    requires sc > 0
    ensures ((q + ticks % sc) % sc - ticks) % sc == q % sc
  {
    var r := ticks % sc;
    var a, b := ticks / sc, (q + r) / sc;
    assert ticks == a * sc + r && q + r == b * sc + (q + r) % sc;
    assert (q / sc - a - b) * sc == (q / sc) * sc - a * sc - b * sc;
    ModIs((q + r) % sc - ticks, sc, q / sc - a - b, q % sc);
  }

  /** How many turns, and which slot, `add` computes for a duration `d`. */
  function Turns(d: nat, circle: int): (n: nat)
    requires circle > 0
  {
    d / circle
  }

  function SlotFor(d: nat, sc: int, si: int, sp: nat): (pos: nat)
    requires sc > 0 && si > 0
    ensures pos < sc
  {
    (d / si + sp) % sc
  }

  /** A timer armed for `d` is due after `d / si` ticks. */
  lemma ArmDue(sc: int, si: int, ticks: nat, d: nat)
    requires sc > 0 && si > 0 && sc * si > 0
    ensures Due(sc, ticks, SlotFor(d, sc, si, ticks % sc), Turns(d, sc * si)) == ticks + d / si
    ensures Promised(sc, ticks, d / si, 0) == ticks + d / si
  {
    NestedDiv(d, sc, si);
    GapOf(sc, ticks, d / si);
  }

  /** One tick on, a timer in a slot that was not swept is due when it was. */
  lemma DueElsewhere(sc: int, ticks: nat, pos: nat, n: int)
    requires sc > 0 && pos < sc && pos != ticks % sc
    ensures Due(sc, ticks + 1, pos, n) == Due(sc, ticks, pos, n)
  {
    var a, r := ticks / sc, ticks % sc;
    var k := if pos > r then -a else -a - 1;
    var gap := if pos > r then pos - r else pos - r + sc;
    assert k * sc == if pos > r then -(a * sc) else -(a * sc) - sc;
    ModIs(pos - ticks, sc, k, gap);
    ModIs(pos - (ticks + 1), sc, k, gap - 1);
  }

  /** In the swept slot, a timer counted down is due when it was; one not reached is due a turn later. */
  lemma DueSwept(sc: int, ticks: nat, n: int)
    requires sc > 0
    ensures Due(sc, ticks, ticks % sc, n) == ticks + n * sc
    ensures Due(sc, ticks + 1, ticks % sc, n - 1) == Due(sc, ticks, ticks % sc, n)
    ensures Due(sc, ticks + 1, ticks % sc, n) == Due(sc, ticks, ticks % sc, n) + sc
  {
    var a, r := ticks / sc, ticks % sc;
    assert (-a) * sc == -(a * sc) && (-a - 1) * sc == -(a * sc) - sc;
    ModIs(r - ticks, sc, -a, 0);
    ModIs(r - (ticks + 1), sc, -a - 1, sc - 1);
    assert (n - 1) * sc == n * sc - sc;
  }

  /** A duration below one turn takes no turns; from a tick on it is not a whole number of turns. */
  lemma ShortTurn(d: nat, sc: int, si: int)
    requires sc > 0 && si > 0 && d < sc * si
    ensures Turns(d, sc * si) == 0
    ensures d >= si ==> 1 <= d / si < sc
  {
    ModIs(d, sc * si, 0, d);
    var q := d / si;
    assert d == q * si + d % si;
    if q >= sc {
      MulMonotone(sc, q, si);
    }
  }

  lemma PromisedOnTime(sc: int, armed: nat, delay: nat)
    ensures Promised(sc, armed, delay, 0) == armed + delay
  {
  }

  lemma LaterBy(sc: int, late: nat, ahead: nat, n: nat)
    requires sc > 0
    ensures (ahead + n) * sc == n * sc + ahead * sc && (late + ahead) * sc == late * sc + ahead * sc
    ensures (late + ahead) * sc == 0 <==> late == 0 && ahead == 0
  {
    if late + ahead > 0 {
      MulMonotone(1, late + ahead, sc);
    }
  }

  lemma PromisedLater(sc: int, armed: nat, delay: nat, late: nat)
    ensures Promised(sc, armed, delay, late + 1) == Promised(sc, armed, delay, late) + sc
  {
  }

  lemma NextPointer(sc: int, ticks: nat)
    requires sc > 0
    ensures (ticks % sc + 1) % sc == (ticks + 1) % sc
  {
    var a, r := ticks / sc, ticks % sc;
    if r + 1 < sc {
      ModIs(ticks + 1, sc, a, r + 1);
    } else {
      assert (a + 1) * sc == a * sc + sc;
      ModIs(ticks + 1, sc, a + 1, 0);
    }
  }

  /** A ticker re-armed into the slot it was in has at least one turn to wait. */
  lemma RearmedHere(d: nat, sc: int, si: int, sp: nat)
    requires sc > 0 && si > 0 && sc * si > 0 && sp < sc && d >= si && SlotFor(d, sc, si, sp) == sp
    ensures Turns(d, sc * si) >= 1
  {
    NestedDiv(d, sc, si);
    var q := d / si;
    assert d == q * si + d % si;
    if q < sc {
      RearmedElsewhere(sc, sp, q);
    }
    assert q >= sc;
    if q / sc == 0 {
      ModIs(q, sc, 0, q);
    }
  }

  /** A ticker whose interval is not a whole number of turns is re-armed into another slot. */
  lemma RearmedElsewhere(sc: int, sp: nat, q: nat)
    requires sp < sc && 1 <= q < sc
    ensures (q + sp) % sc != sp
  {
    if q + sp >= sc {
      ModIs(q + sp, sc, 1, q + sp - sc);
    }
  }

  lemma DueLess(sc: int, ticks: nat, pos: nat, n: int, m: int)
    requires sc > 0
    ensures Due(sc, ticks, pos, n - m) == Due(sc, ticks, pos, n) - m * sc
  {
    assert (n - m) * sc == n * sc - m * sc;
  }

  /** Nothing is due in the past, and what is due now sits in the slot under the pointer with no turns left. */
  lemma DueNotPast(sc: int, ticks: nat, pos: nat, n: nat)
    requires sc > 0 && pos < sc
    ensures Due(sc, ticks, pos, n) >= ticks
    ensures Due(sc, ticks, pos, n) == ticks <==> pos == ticks % sc && n == 0
  {
    if n > 0 {
      MulMonotone(1, n, sc);
    }
    if pos != ticks % sc {
      var m := (pos - ticks) / sc;
      assert pos - ticks == m * sc + (pos - ticks) % sc;
      if (pos - ticks) % sc == 0 {
        assert ticks == (-m) * sc + pos;
        ModIs(ticks, sc, -m, pos);
      }
    } else {
      DueSwept(sc, ticks, n);
    }
  }
}
