/**
 When the sweep of a timing wheel's slot ends (tools/timer/timerwheel.go). The loop
 takes the first element, looks up its successor, and only then removes the element
 and perhaps appends it again; it stops at an element with turns left, or when there
 was no successor. Here a list is reduced to what decides that.
 */
module SweepRounds {
  import opened Bags

  /** A timer in the swept slot: its turns left, and those it comes back to the slot with once fired, if it does. */
  datatype Item = Item(n: int, back: Option<nat>)

  /** One round of the loop over a list; None if the loop ends with it. */
  function Round(s: seq<Item>): Option<seq<Item>>
    requires s != []
  {
    if s[0].n > 0 || |s| == 1 then None
    else Some(s[1..] + if s[0].back.Some? then [Item(s[0].back.value, s[0].back)] else [])
  }

  ghost predicate EndsWithin(s: seq<Item>, rounds: int)
    decreases rounds
  {
    s == [] || (rounds > 0 && (Round(s) == None || EndsWithin(Round(s).value, rounds - 1)))
  }

  ghost predicate Ends(s: seq<Item>) {
    exists rounds :: EndsWithin(s, rounds)
  }

  /** All fire, none comes back with turns to wait, and two come back. */
  ghost predicate Rotates(s: seq<Item>) {
    && (forall j :: 0 <= j < |s| ==> s[j].n == 0 && (s[j].back.Some? ==> s[j].back.value == 0))
    && exists j, k :: 0 <= j < k < |s| && s[j].back.Some? && s[k].back.Some?
  }

  lemma RotatesOn(s: seq<Item>)
    requires Rotates(s)
    ensures Round(s).Some? && Rotates(Round(s).value)
  {
    var j, k :| 0 <= j < k < |s| && s[j].back.Some? && s[k].back.Some?;
    var s' := Round(s).value;
    assert s'[k - 1] == s[k];
    if j == 0 {
      assert s'[|s| - 1].back.Some?;
    } else {
      assert s'[j - 1] == s[j];
    }
  }

  ghost predicate Waits(x: Item) {
    x.n > 0
  }

  ghost predicate ComesToWait(x: Item) {
    x.back.Some? && x.back.value > 0
  }

  /** The position of the first that satisfies `p`. */
  ghost function First(p: Item -> bool, s: seq<Item>): (j: nat)
    ensures j <= |s| && (j < |s| ==> p(s[j])) && forall i :: 0 <= i < j ==> !p(s[i])
  {
    if s == [] || p(s[0]) then 0 else 1 + First(p, s[1..])
  }

  lemma FirstIs(p: Item -> bool, s: seq<Item>, j: nat)
    requires j < |s| && p(s[j]) && forall i :: 0 <= i < j ==> !p(s[i])
    ensures First(p, s) == j
  {
  }

  /** A bound on the rounds, less one for each round. */
  ghost function Left(s: seq<Item>): nat {
    var w, c := First(Waits, s), First(ComesToWait, s);
    if w < |s| then w
    else if c < |s| then |s| + c
    else 2 * |s| + if s != [] && s[0].back.Some? then 1 else 0
  }

  ghost predicate Sane(s: seq<Item>) {
    forall j :: 0 <= j < |s| ==> s[j].n >= 0
  }

  lemma RoundLowers(s: seq<Item>)
    requires s != [] && Sane(s) && !Rotates(s) && Round(s).Some?
    ensures var s' := Round(s).value; s' != [] && Sane(s') && !Rotates(s') && Left(s') < Left(s)
  {
    var s' := Round(s).value;
    var w, c := First(Waits, s), First(ComesToWait, s);
    assert forall j :: 0 < j < |s| ==> s'[j - 1] == s[j];
    if w < |s| {
      WaiterNearer(s);
    } else if c < |s| {
      ComerNearer(s);
    } else {
      OthersGo(s);
    }
  }

  lemma WaiterNearer(s: seq<Item>)
    requires s != [] && Round(s).Some? && First(Waits, s) < |s|
    ensures var s' := Round(s).value; First(Waits, s') == First(Waits, s) - 1 < |s'| && !Rotates(s') && Left(s') < Left(s)
  {
    var s', w := Round(s).value, First(Waits, s);
    assert s'[w - 1] == s[w];
    assert forall j :: 0 < j < |s| ==> s'[j - 1] == s[j];
    FirstIs(Waits, s', w - 1);
  }

  lemma ComerNearer(s: seq<Item>)
    requires s != [] && Round(s).Some? && First(Waits, s) == |s| && First(ComesToWait, s) < |s|
    ensures var s' := Round(s).value; !Rotates(s') && Left(s') < Left(s)
  {
    var s', c := Round(s).value, First(ComesToWait, s);
    assert forall j :: 0 < j < |s| ==> s'[j - 1] == s[j];
    assert |s'| <= |s|;
    if c == 0 {
      assert Waits(s'[|s| - 1]) && s'[|s| - 1].n != 0;
      assert First(Waits, s') < |s'|;
    } else {
      assert s'[c - 1] == s[c] && s'[c - 1].back.value != 0;
      FirstIs(ComesToWait, s', c - 1);
      assert First(ComesToWait, s') == c - 1 < |s'|;
    }
    hide First;
  }

  lemma RotatedBefore(s: seq<Item>)
    requires s != [] && Round(s).Some? && Rotates(Round(s).value)
    ensures exists j, k :: 0 <= j < k < |s| && s[j].back.Some? && s[k].back.Some?
  {
    var s' := Round(s).value;
    var j, k :| 0 <= j < k < |s'| && s'[j].back.Some? && s'[k].back.Some?;
    assert s[j + 1] == s'[j];
    if k == |s| - 1 {
      assert s[0].back.Some? && s[j + 1].back.Some?;
    } else {
      assert s[k + 1] == s'[k] && s[j + 1].back.Some?;
    }
  }

  lemma OthersGo(s: seq<Item>)
    requires s != [] && Sane(s) && Round(s).Some? && !Rotates(s)
    requires First(Waits, s) == First(ComesToWait, s) == |s|
    ensures var s' := Round(s).value; !Rotates(s') && Left(s') < Left(s)
  {
    var s' := Round(s).value;
    assert forall j :: 0 <= j < |s| ==> !Waits(s[j]) && !ComesToWait(s[j]);
    if Rotates(s') {
      RotatedBefore(s);
      assert false;
    }
    assert s[0].back.Some? && s[1].back.Some? ==> Rotates(s) by {
      assert 0 < 1 < |s|;
    }
    hide Rotates;
    assert forall j :: 0 <= j < |s'| ==> s'[j] == if j + 1 < |s| then s[j + 1] else Item(0, s[0].back);
    assert First(Waits, s') == First(ComesToWait, s') == |s'|;
    assert s'[0] == s[1];
  }

  /** The loop over a list ends exactly if the list does not rotate for ever. */
  lemma EndsExactly(s: seq<Item>)
    requires Sane(s)
    ensures Ends(s) <==> !Rotates(s)
  {
    if Ends(s) {
      var rounds :| EndsWithin(s, rounds);
      if Rotates(s) {
        NeverEnds(s, rounds);
      }
    }
    if !Rotates(s) {
      EndsInTime(s);
      assert EndsWithin(s, Left(s) + 1);
    }
  }

  lemma {:induction false} NeverEnds(s: seq<Item>, rounds: int)
    requires Rotates(s)
    ensures !EndsWithin(s, rounds)
    decreases rounds
  {
    RotatesOn(s);
    if rounds > 0 {
      NeverEnds(Round(s).value, rounds - 1);
    }
  }

  lemma {:induction false} EndsInTime(s: seq<Item>)
    requires Sane(s) && !Rotates(s)
    ensures EndsWithin(s, Left(s) + 1)
    decreases Left(s)
  {
    if s != [] && Round(s).Some? {
      RoundLowers(s);
      EndsInTime(Round(s).value);
      Longer(Round(s).value, Left(Round(s).value) + 1, Left(s));
    }
  }

  lemma {:induction false} Longer(s: seq<Item>, a: int, b: int)
    requires a <= b && EndsWithin(s, a)
    ensures EndsWithin(s, b)
    decreases a
  {
    if s != [] && Round(s).Some? {
      Longer(Round(s).value, a - 1, b - 1);
    }
  }
}
