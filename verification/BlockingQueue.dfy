/**
 tools/collection/queue.go: a FIFO queue over a slice that is appended to at the
 back and re-sliced at the front.
 */
module Queue {

  class Queue<T> {
    var elems: seq<T>
    const zero: T

    constructor (zero: T)
      ensures elems == [] && this.zero == zero
    {
      this.zero := zero;
      elems := [];
    }

    method Push(e: T)
      modifies this
      ensures elems == old(elems) + [e]
    {
      elems := elems + [e];
    }

    /** The empty queue answers with the zero value. */
    method Pop() returns (e: T)
      modifies this
      ensures old(elems) == [] ==> e == zero && elems == []
      ensures old(elems) != [] ==> old(elems) == [e] + elems
    {
      if |elems| == 0 {
        return zero;
      }
      e := elems[0];
      elems := elems[1..];
    }

    method Peek() returns (e: T)
      ensures e == if elems == [] then zero else elems[0]
    {
      if |elems| == 0 {
        return zero;
      }
      e := elems[0];
    }

    method Clear()
      modifies this
      ensures elems == []
    {
      elems := [];
    }
  }

  /** What is pushed comes out in the order it went in, behind what was there before. */
  method PushAllPopAll<T>(q: Queue<T>, items: seq<T>) returns (out: seq<T>)
    modifies q
    ensures out == old(q.elems) + items && q.elems == []
  {
    for i := 0 to |items|
      invariant q.elems == old(q.elems) + items[..i]
    {
      q.Push(items[i]);
    }
    ghost var all := q.elems;
    assert all == old(q.elems) + items;
    out := [];
    while q.elems != []
      invariant out + q.elems == all
      decreases |q.elems|
    {
      var e := q.Pop();
      out := out + [e];
    }
  }
}

/**
 tools/collection/blockingqueue.go: a queue guarded by a mutex and a condition
 variable, as a monitor. An action is one critical section: from taking the lock
 until releasing it, at the end of a call or inside cond.Wait. Calls are named by
 numbers. A waiting call is un-notified (`waiting...`) until a Signal or a
 Broadcast moves it among the notified, which compete for the lock with new calls.
 Signal may choose any waiting call; sync.Cond does not say which.
 */
module BlockingQueue {
  import opened Bags

  /** `accepted` and `popped` are histories; `drained` are the ShutdownWithDrained calls that returned. */
  datatype State<T> = State(
    elems: seq<T>,
    shutdown: bool,
    waiting: set<nat>,
    notified: set<nat>,
    waitingDrainers: set<nat>,
    notifiedDrainers: set<nat>,
    accepted: seq<T>,
    popped: seq<T>,
    emptyPops: nat,
    drained: set<nat>)
  {
    ghost function Sleeping(): set<nat> { waiting + waitingDrainers }

    ghost function Calls(): set<nat> { waiting + notified + waitingDrainers + notifiedDrainers }
  }

  /** `pick` is the call that Signal wakes, if any waits. */
  datatype Action<T> =
    | Push(e: T, pick: Option<nat>)
    | Pop(t: nat, pick: Option<nat>)
    | PopWoken(t: nat, pick: Option<nat>)
    | Shutdown
    | Drain(t: nat)
    | DrainWoken(t: nat)

  ghost predicate Init<T>(s: State<T>) {
    s == State([], false, {}, {}, {}, {}, [], [], 0, {})
  }

  ghost predicate CanSignal<T>(s: State<T>, pick: Option<nat>) {
    if s.Sleeping() == {} then pick == None else pick.Some? && pick.value in s.Sleeping()
  }

  ghost function Signal<T>(s: State<T>, pick: Option<nat>): State<T> {
    if pick == None then s
    else if pick.value in s.waiting then
      s.(waiting := s.waiting - {pick.value}, notified := s.notified + {pick.value})
    else
      s.(waitingDrainers := s.waitingDrainers - {pick.value}, notifiedDrainers := s.notifiedDrainers + {pick.value})
  }

  ghost function Broadcast<T>(s: State<T>): State<T> {
    s.(waiting := {}, notified := s.notified + s.waiting,
    waitingDrainers := {}, notifiedDrainers := s.notifiedDrainers + s.waitingDrainers)
  }

  /** Pop from the loop condition on, by a call that is in no wait set. */
  ghost function PopBody<T>(s: State<T>, t: nat, pick: Option<nat>): State<T> {
    if s.elems == [] && !s.shutdown then s.(waiting := s.waiting + {t})
    else if s.elems == [] then s.(emptyPops := s.emptyPops + 1)
    else
      var s1 := s.(elems := s.elems[1..], popped := s.popped + [s.elems[0]]);
      if s1.elems == [] then Signal(s1, pick) else s1
  }

  /** ShutdownWithDrained from the loop condition on. */
  ghost function DrainBody<T>(s: State<T>, t: nat): State<T> {
    if s.elems != [] then s.(waitingDrainers := s.waitingDrainers + {t}) else s.(drained := s.drained + {t})
  }

  ghost predicate Enabled<T>(s: State<T>, a: Action<T>) {
    match a
    case Push(e, pick) => CanSignal(s, pick)
    case Pop(t, pick) => t !in s.Calls() && CanSignal(s, pick)
    case PopWoken(t, pick) => t in s.notified && CanSignal(s, pick)
    case Shutdown => true
    case Drain(t) => t !in s.Calls()
    case DrainWoken(t) => t in s.notifiedDrainers
  }

  ghost function Apply<T>(s: State<T>, a: Action<T>): State<T>
    requires Enabled(s, a)
  {
    match a
    case Push(e, pick) =>
      if s.shutdown then s
      else Signal(s.(elems := s.elems + [e], accepted := s.accepted + [e]), pick)
    case Pop(t, pick) => PopBody(s, t, pick)
    case PopWoken(t, pick) => PopBody(s.(notified := s.notified - {t}), t, pick)
    case Shutdown => Broadcast(s.(shutdown := true))
    case Drain(t) => DrainBody(Broadcast(s.(shutdown := true)), t)
    case DrainWoken(t) => DrainBody(s.(notifiedDrainers := s.notifiedDrainers - {t}), t)
  }

  ghost predicate Next<T(!new)>(s: State<T>, s': State<T>) {
    exists a :: Enabled(s, a) && s' == Apply(s, a)
  }

  ghost predicate Run<T(!new)>(r: seq<State<T>>) {
    && |r| > 0 && Init(r[0])
    && forall i :: 0 <= i < |r| - 1 ==> Next(r[i], r[i + 1])
  }

  // ---------- Invariants of every run ----------

  /** While a consumer sleeps un-notified, there are no more items than consumers already woken for them. */
  ghost predicate NoLostWakeup<T>(s: State<T>) {
    !s.shutdown && s.waiting != {} ==> |s.elems| <= |s.notified|
  }

  ghost predicate Disjoint<T>(s: State<T>) {
    && s.waiting !! s.notified !! s.waitingDrainers !! s.notifiedDrainers
    && (s.shutdown ==> s.waiting == {})
    && (!s.shutdown ==> s.waitingDrainers == {} && s.notifiedDrainers == {} && s.emptyPops == 0 && s.drained == {})
  }

  ghost predicate Inv<T>(s: State<T>) {
    && NoLostWakeup(s)
    && Disjoint(s)
    && s.popped + s.elems == s.accepted
    && (s.drained != {} ==> s.elems == [])
  }

  /** The no-lost-wakeup condition, short of one wakeup. */
  ghost predicate OneShort<T>(s: State<T>) {
    !s.shutdown && s.waiting != {} ==> |s.elems| <= |s.notified| + 1
  }

  lemma SignalConsumer<T>(s: State<T>, t: nat)
    requires OneShort(s) && Disjoint(s) && t in s.waiting
    ensures NoLostWakeup(Signal(s, Some(t))) && Disjoint(Signal(s, Some(t)))
  {
    assert |s.notified + {t}| == |s.notified| + 1;
  }

  lemma SignalDrainer<T>(s: State<T>, t: nat)
    requires OneShort(s) && Disjoint(s) && t in s.waitingDrainers
    ensures NoLostWakeup(Signal(s, Some(t))) && Disjoint(Signal(s, Some(t)))
  {
  }

  /** One Signal makes up for one wakeup short, whichever call it wakes. */
  lemma SignalRestores<T>(s: State<T>, pick: Option<nat>)
    requires OneShort(s) && Disjoint(s) && CanSignal(s, pick)
    ensures NoLostWakeup(Signal(s, pick)) && Disjoint(Signal(s, pick))
    ensures var s' := Signal(s, pick); s'.elems == s.elems && s'.popped == s.popped && s'.accepted == s.accepted && s'.drained == s.drained
  {
    if pick.Some? {
      hide Signal;
      hide NoLostWakeup;
      if pick.value in s.waiting {
        SignalConsumer(s, pick.value);
      } else {
        SignalDrainer(s, pick.value);
      }
      SignalFrame(s, pick);
    }
  }

  lemma SignalFrame<T>(s: State<T>, pick: Option<nat>)
    ensures var s' := Signal(s, pick); s'.elems == s.elems && s'.popped == s.popped && s'.accepted == s.accepted && s'.drained == s.drained
  {
  }

  lemma TakeKeeps<T>(s: State<T>, t: nat, pick: Option<nat>)
    requires OneShort(s) && Disjoint(s) && CanSignal(s, pick) && s.elems != []
    requires s.popped + s.elems == s.accepted && s.drained == {}
    ensures Inv(PopBody(s, t, pick))
  {
    var s1 := s.(elems := s.elems[1..], popped := s.popped + [s.elems[0]]);
    assert s1.popped + s1.elems == s.popped + s.elems;
    if s1.elems == [] {
      SignalRestores(s1, pick);
    }
  }

  lemma PopKeeps<T>(s: State<T>, t: nat, pick: Option<nat>)
    requires OneShort(s) && Disjoint(s) && t !in s.Calls() && CanSignal(s, pick)
    requires s.popped + s.elems == s.accepted && (s.drained != {} ==> s.elems == [])
    ensures Inv(PopBody(s, t, pick))
  {
    if s.elems != [] {
      TakeKeeps(s, t, pick);
    }
  }

  lemma DrainKeeps<T>(s: State<T>, t: nat)
    requires Inv(s) && s.shutdown && t !in s.Calls()
    ensures Inv(DrainBody(s, t))
  {
  }

  lemma BroadcastKeeps<T>(s: State<T>)
    requires Inv(s)
    ensures Inv(Broadcast(s.(shutdown := true)))
  {
  }

  lemma PushStep<T>(s: State<T>, e: T, pick: Option<nat>)
    requires Inv(s) && CanSignal(s, pick)
    ensures Inv(Apply(s, Push(e, pick)))
  {
    if !s.shutdown {
      var s1 := s.(elems := s.elems + [e], accepted := s.accepted + [e]);
      assert s1.popped + s1.elems == s1.accepted;
      SignalRestores(s1, pick);
    }
  }

  lemma WokenStep<T>(s: State<T>, t: nat, pick: Option<nat>)
    requires Inv(s) && t in s.notified && CanSignal(s, pick)
    ensures Inv(Apply(s, PopWoken(t, pick)))
  {
    var s1 := s.(notified := s.notified - {t});
    assert s1.Sleeping() == s.Sleeping() && t !in s1.Calls();
    PopKeeps(s1, t, pick);
  }

  lemma InvStep<T(!new)>(s: State<T>, a: Action<T>)
    requires Inv(s) && Enabled(s, a)
    ensures Inv(Apply(s, a))
  {
    match a {
      case Push(e, pick) => PushStep(s, e, pick);
      case Pop(t, pick) => PopKeeps(s, t, pick);
      case PopWoken(t, pick) => WokenStep(s, t, pick);
      case Shutdown => BroadcastKeeps(s);
      case Drain(t) =>
        BroadcastKeeps(s);
        DrainKeeps(Broadcast(s.(shutdown := true)), t);
      case DrainWoken(t) => DrainKeeps(s.(notifiedDrainers := s.notifiedDrainers - {t}), t);
    }
  }

  lemma {:induction false} RunInv<T(!new)>(r: seq<State<T>>, i: nat)
    requires Run(r) && i < |r|
    ensures Inv(r[i])
  {
    hide Apply;
    if i > 0 {
      RunInv(r, i - 1);
      assert Next(r[i - 1], r[i - 1 + 1]);
      var a :| Enabled(r[i - 1], a) && r[i] == Apply(r[i - 1], a);
      InvStep(r[i - 1], a);
    }
  }

  // ---------- What the invariants mean to the callers ----------

  /**
   Before shutdown, if there is an item and a consumer sleeps, then some woken
   consumer is on its way, and whichever woken consumer gets the lock first takes
   the oldest item.
   */
  lemma ItemsAreFetched<T(!new)>(r: seq<State<T>>, i: nat)
    requires Run(r) && i < |r| && var s := r[i]; !s.shutdown && s.elems != [] && s.waiting != {}
    ensures r[i].notified != {}
    ensures forall t, pick :: Enabled(r[i], PopWoken(t, pick)) ==>
              var s' := Apply(r[i], PopWoken(t, pick));
              && s'.popped == r[i].popped + [r[i].elems[0]] && s'.elems == r[i].elems[1..]
              && t !in s'.Calls()
  {
    RunInv(r, i);
  }

  /** Items leave in the order in which they were accepted; none is lost, added or duplicated. */
  lemma Fifo<T(!new)>(r: seq<State<T>>, i: nat)
    requires Run(r) && i < |r|
    ensures r[i].popped + r[i].elems == r[i].accepted
  {
    RunInv(r, i);
  }

  /** A run with the actions that it is made of. */
  ghost predicate Trace<T(!new)>(r: seq<State<T>>, acts: seq<Action<T>>)
    decreases |acts|
  {
    && |r| == |acts| + 1
    && if acts == [] then Init(r[0]) else
         var n := |acts| - 1;
         Trace(r[..n + 1], acts[..n]) && Enabled(r[n], acts[n]) && r[n + 1] == Apply(r[n], acts[n])
  }

  /** Every run has such actions. */
  lemma {:induction false} TraceOf<T(!new)>(r: seq<State<T>>) returns (acts: seq<Action<T>>)
    requires Run(r)
    ensures Trace(r, acts)
  {
    hide Apply;
    hide Enabled;
    if |r| == 1 {
      acts := [];
    } else {
      var n := |r| - 2;
      assert Run(r[..n + 1]);
      var before := TraceOf(r[..n + 1]);
      assert Next(r[n], r[n + 1]);
      var a :| Enabled(r[n], a) && r[n + 1] == Apply(r[n], a);
      acts := before + [a];
      assert acts[..n] == before;
    }
  }

  /** No call of Shutdown or ShutdownWithDrained has been made. */
  ghost predicate StillOpen<T>(acts: seq<Action<T>>) {
    forall k :: 0 <= k < |acts| ==> !acts[k].Shutdown? && !acts[k].Drain?
  }

  /** What was pushed while the queue was open. */
  ghost function Pushed<T>(acts: seq<Action<T>>): seq<T> {
    if acts == [] then [] else
      var n := |acts| - 1;
      Pushed(acts[..n]) + if acts[n].Push? && StillOpen(acts[..n]) then [acts[n].e] else []
  }

  /** What the calls of Pop took: the head of the queue, when there was one. */
  ghost function Taken<T(!new)>(r: seq<State<T>>, acts: seq<Action<T>>): seq<T>
    requires |r| == |acts| + 1
    decreases |acts|
  {
    if acts == [] then [] else
      var n := |acts| - 1;
      Taken(r[..n + 1], acts[..n])
      + if (acts[n].Pop? || acts[n].PopWoken?) && r[n].elems != [] then [r[n].elems[0]] else []
  }

  /** One action, seen from outside: what it adds at the back and takes from the front. */
  lemma ElemsStep<T>(s: State<T>, a: Action<T>)
    requires Enabled(s, a)
    ensures Apply(s, a).shutdown <==> s.shutdown || a.Shutdown? || a.Drain?
    ensures a.Push? ==> Apply(s, a).elems == s.elems + if s.shutdown then [] else [a.e]
    ensures (a.Pop? || a.PopWoken?) && s.elems != [] ==> Apply(s, a).elems == s.elems[1..]
    ensures !a.Push? && (s.elems == [] || !(a.Pop? || a.PopWoken?)) ==> Apply(s, a).elems == s.elems
  {
  }

  lemma OpenStep<T>(acts: seq<Action<T>>)
    requires acts != []
    ensures var n := |acts| - 1; StillOpen(acts) <==> StillOpen(acts[..n]) && !acts[n].Shutdown? && !acts[n].Drain?
  {
    var n := |acts| - 1;
    assert forall k :: 0 <= k < n ==> acts[..n][k] == acts[k];
  }

  /**
   What the calls of Pop have taken, followed by what is in the queue, is what was
   pushed before any shutdown, in order; whatever consumers sleep, wake or barge in.
   */
  lemma {:induction false} FifoOfCalls<T(!new)>(r: seq<State<T>>, acts: seq<Action<T>>)
    requires Trace(r, acts)
    ensures Taken(r, acts) + r[|acts|].elems == Pushed(acts)
    ensures r[|acts|].shutdown <==> !StillOpen(acts)
    decreases |acts|
  {
    hide Apply;
    hide Enabled;
    if acts != [] {
      var n := |acts| - 1;
      FifoOfCalls(r[..n + 1], acts[..n]);
      ElemsStep(r[n], acts[n]);
      OpenStep(acts);
    }
  }

  lemma AcceptedStep<T>(s: State<T>, a: Action<T>)
    requires Enabled(s, a)
    ensures Apply(s, a).accepted == s.accepted + if a.Push? && !s.shutdown then [a.e] else []
  {
  }

  /** Accepted is what was pushed while the queue was open: a push is dropped exactly after a shutdown. */
  lemma {:induction false} AcceptedWerePushed<T(!new)>(r: seq<State<T>>, acts: seq<Action<T>>)
    requires Trace(r, acts)
    ensures r[|acts|].accepted == Pushed(acts)
    decreases |acts|
  {
    hide Apply;
    hide Enabled;
    if acts != [] {
      var n := |acts| - 1;
      AcceptedWerePushed(r[..n + 1], acts[..n]);
      FifoOfCalls(r[..n + 1], acts[..n]);
      AcceptedStep(r[n], acts[n]);
    }
  }

  lemma SignalCalls<T>(s: State<T>, pick: Option<nat>, t: nat)
    requires CanSignal(s, pick)
    ensures t in Signal(s, pick).Calls() <==> t in s.Calls()
  {
  }

  lemma BodyReturns<T>(s: State<T>, t: nat, pick: Option<nat>)
    requires t !in s.Calls() && CanSignal(s, pick)
    ensures var s' := PopBody(s, t, pick);
            && (t in s'.Calls() <==> s.elems == [] && !s.shutdown) && (t in s'.Calls() ==> t in s'.waiting)
  {
    if s.elems != [] {
      var s1 := s.(elems := s.elems[1..], popped := s.popped + [s.elems[0]]);
      SignalCalls(s1, pick, t);
      assert t !in s1.Calls();
    }
  }

  lemma WokenGone<T>(s: State<T>, t: nat)
    requires Disjoint(s) && t in s.notified
    ensures var s1 := s.(notified := s.notified - {t}); t !in s1.Calls() && s1.Sleeping() == s.Sleeping()
  {
  }

  /** A call of Pop sleeps exactly if the queue is empty and open, and else returns; it never takes part in another call. */
  lemma PopReturns<T>(s: State<T>, a: Action<T>)
    requires Inv(s) && Enabled(s, a) && (a.Pop? || a.PopWoken?)
    ensures var s' := Apply(s, a);
            && (a.t in s'.Calls() <==> s.elems == [] && !s.shutdown)
            && (a.t in s'.Calls() ==> a.t in s'.waiting)
  {
    hide PopBody;
    if a.Pop? {
      BodyReturns(s, a.t, a.pick);
    } else {
      WokenGone(s, a.t);
      BodyReturns(s.(notified := s.notified - {a.t}), a.t, a.pick);
    }
  }

  /** A call of ShutdownWithDrained returns exactly if the queue is empty, and else sleeps. */
  lemma DrainReturns<T>(s: State<T>, a: Action<T>)
    requires Inv(s) && Enabled(s, a) && (a.Drain? || a.DrainWoken?)
    ensures var s' := Apply(s, a);
            && (a.t in s'.Calls() <==> s.elems != [])
            && (s.elems == [] ==> a.t in s'.drained) && (a.t in s'.Calls() ==> a.t in s'.waitingDrainers)
  {
  }

  /** A call in progress stays so until it acts itself, and one that was woken stays woken; a shutdown wakes all that sleep. */
  lemma CallsStay<T>(s: State<T>, a: Action<T>, t: nat)
    requires Enabled(s, a) && t in s.Calls() && !((a.PopWoken? || a.DrainWoken?) && a.t == t)
    ensures var s' := Apply(s, a);
            && t in s'.Calls()
            && (t in s.notified ==> t in s'.notified) && (t in s.notifiedDrainers ==> t in s'.notifiedDrainers)
            && (a.Shutdown? || a.Drain? ==> t in s'.notified || t in s'.notifiedDrainers)
  {
  }

  lemma GrowStep<T>(s: State<T>, a: Action<T>)
    requires Enabled(s, a)
    ensures s.popped <= Apply(s, a).popped && s.accepted <= Apply(s, a).accepted
    ensures s.shutdown ==> Apply(s, a).shutdown && Apply(s, a).accepted == s.accepted
    ensures Apply(s, a).emptyPops > s.emptyPops ==> s.shutdown && s.elems == []
  {
  }

  /** What was popped and accepted is never taken back, and nothing is accepted after shutdown. */
  lemma {:induction false} HistoriesGrow<T(!new)>(r: seq<State<T>>, i: nat, j: nat)
    requires Run(r) && i <= j < |r|
    ensures r[i].popped <= r[j].popped && r[i].accepted <= r[j].accepted
    ensures r[i].shutdown ==> r[j].shutdown && r[j].accepted == r[i].accepted
  {
    hide Apply;
    if i < j {
      HistoriesGrow(r, i, j - 1);
      assert Next(r[j - 1], r[j - 1 + 1]);
      var a :| Enabled(r[j - 1], a) && r[j] == Apply(r[j - 1], a);
      GrowStep(r[j - 1], a);
    }
  }

  /** ShutdownWithDrained returns only after every accepted item was popped. */
  lemma DrainedMeansPopped<T(!new)>(r: seq<State<T>>, i: nat)
    requires Run(r) && i < |r| && r[i].drained != {}
    ensures r[i].shutdown && r[i].elems == [] && r[i].popped == r[i].accepted
  {
    RunInv(r, i);
  }

  /** The ShutdownWithDrained calls in progress. */
  ghost function Drainers<T>(s: State<T>): set<nat> {
    s.waitingDrainers + s.notifiedDrainers
  }

  ghost predicate DrainerNeeded<T>(s: State<T>) {
    s.waitingDrainers != {} ==> s.elems != []
  }

  /** The exact effect on the drainers of the Pop that empties the queue: it wakes one of them. */
  lemma EmptyingPop<T>(s: State<T>, t: nat, pick: Option<nat>)
    requires Inv(s) && s.shutdown && |s.elems| == 1 && t !in s.Calls() && CanSignal(s, pick)
    ensures DrainerNeeded(PopBody(s, t, pick)) <==> |s.waitingDrainers| <= 1
  {
    assert s.Sleeping() == s.waitingDrainers;
    if s.waitingDrainers != {} {
      var rest := s.waitingDrainers - {pick.value};
      assert |rest| == |s.waitingDrainers| - 1;
    }
  }

  lemma DrainerPop<T>(s: State<T>, t: nat, pick: Option<nat>)
    requires Disjoint(s) && DrainerNeeded(s) && |s.waitingDrainers| <= 1 && t !in s.Calls() && CanSignal(s, pick)
    requires OneShort(s) && s.popped + s.elems == s.accepted && (s.drained != {} ==> s.elems == [])
    ensures DrainerNeeded(PopBody(s, t, pick))
  {
    if s.shutdown && |s.elems| == 1 {
      EmptyingPop(s, t, pick);
    }
  }

  lemma DrainerWokenPop<T>(s: State<T>, t: nat, pick: Option<nat>)
    requires Inv(s) && DrainerNeeded(s) && |s.waitingDrainers| <= 1 && t in s.notified && CanSignal(s, pick)
    ensures DrainerNeeded(Apply(s, PopWoken(t, pick)))
  {
    var s1 := s.(notified := s.notified - {t});
    assert s1.Sleeping() == s.Sleeping() && t !in s1.Calls();
    DrainerPop(s1, t, pick);
  }

  lemma DrainerStep<T>(s: State<T>, a: Action<T>)
    requires Inv(s) && DrainerNeeded(s) && |s.waitingDrainers| <= 1 && Enabled(s, a)
    ensures DrainerNeeded(Apply(s, a))
  {
    if a.Pop? {
      DrainerPop(s, a.t, a.pick);
    } else if a.PopWoken? {
      DrainerWokenPop(s, a.t, a.pick);
    }
  }

  /** With at most one drainer at a time, a drainer sleeps un-notified only while there are items. */
  lemma {:induction false} DrainerNotForgotten<T(!new)>(r: seq<State<T>>, i: nat)
    requires Run(r) && i < |r| && forall j :: 0 <= j < i ==> |Drainers(r[j])| <= 1
    ensures DrainerNeeded(r[i])
  {
    hide Apply;
    if i > 0 {
      DrainerNotForgotten(r, i - 1);
      RunInv(r, i - 1);
      assert Next(r[i - 1], r[i - 1 + 1]);
      var a :| Enabled(r[i - 1], a) && r[i] == Apply(r[i - 1], a);
      assert |Drainers(r[i - 1])| == |r[i - 1].waitingDrainers| + |r[i - 1].notifiedDrainers|;
      DrainerStep(r[i - 1], a);
    }
  }

  /** A drainer that sleeps beside an empty queue sleeps on, whatever happens short of another shutdown call. */
  lemma ForgottenForever<T>(s: State<T>, a: Action<T>)
    requires Inv(s) && s.shutdown && s.elems == [] && Enabled(s, a) && !(a.Shutdown? || a.Drain?)
    ensures Apply(s, a).waitingDrainers == s.waitingDrainers && Apply(s, a).elems == [] && Apply(s, a).shutdown
  {
  }

  lemma Extend<T(!new)>(r: seq<State<T>>, a: Action<T>) returns (r': seq<State<T>>)
    requires Run(r) && Enabled(r[|r| - 1], a)
    ensures Run(r') && |r'| == |r| + 1 && r'[|r'| - 1] == Apply(r[|r| - 1], a)
  {
    hide Apply;
    r' := r + [Apply(r[|r| - 1], a)];
    assert Next(r[|r| - 1], r'[|r|]);
  }

  /** With two drainers that does happen to the second: one Signal wakes only the first. */
  lemma SecondDrainerForgotten<T(!new)>(e: T) returns (r: seq<State<T>>)
    ensures Run(r) && var s := r[|r| - 1]; s.shutdown && s.elems == [] && s.Calls() == s.waitingDrainers == {2}
  {
    r := [State([], false, {}, {}, {}, {}, [], [], 0, {})];
    r := Extend(r, Push(e, None));
    r := Extend(r, Drain(1));
    r := Extend(r, Drain(2));
    r := Extend(r, DrainWoken(1));
    r := Extend(r, Pop(3, Some(1)));
    assert r[|r| - 1].notifiedDrainers == {1} && r[|r| - 1].waitingDrainers == {2};
    r := Extend(r, DrainWoken(1));
  }
}
