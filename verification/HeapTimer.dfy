/**
 tools/timer/heaptimer.go: a timer scheduler whose event loop owns a heap of
 mutable timer objects, fed by channels from its users.

 `store` is the memory of timer objects, named by their position in it; the heap
 and the channels hold names, so a write to an object is seen through all of them.
 The add channel and the goroutines that wait to send on it are one bag: the order
 of arrival plays no part. The heap operations are those of PriorityQueue, used
 through their contracts. Time is a clock that never goes back.
 */
module HeapTimer {
  import opened Bags
  import PQ = PriorityQueue

  /** `root` is the object the user's handle points to: the object itself, or the one it was copied from. */
  datatype Timer = Timer(root: nat, ticker: bool, trigger: int, duration: nat, removed: bool)

  /** `now` is the time that the event loop had read when it found the timer due. */
  datatype Firing = Firing(id: nat, trigger: int, now: int, at: int, fromHeap: bool, removed: bool)

  /**
   Where the event loop is: before reading the clock, in the loop that drains the
   heap (having read `now`, when `mark` timers had fired), in the select, in the
   inner loop that empties the add channel, or stopped.
   */
  datatype Phase = Top | Draining(now: int, mark: nat) | Selecting(now: int) | Adding | Stopped

  datatype State = State(
    store: seq<Timer>,
    heap: seq<nat>,
    transit: multiset<nat>,
    fired: multiset<nat>,
    dropped: multiset<nat>,
    mods: multiset<(nat, nat)>,
    removes: multiset<nat>,
    clock: int,
    phase: Phase,
    log: seq<Firing>)

  datatype Action =
    | SetTimer(d: nat, ticker: bool)
    | StopCall(h: nat)
    | ResetCall(h: nat, d: nat)
    | Advance(dt: nat)
    | StartDrain
    | DrainOne(heap: seq<nat>)
    | EndDrain
    | SelectAdd(id: nat, heap: seq<nat>)
    | AddMore(id: nat, heap: seq<nat>)
    | AddDone
    | SelectReset(h: nat, d: nat)
    | SelectRemove(h: nat)
    | SelectTimeout
    | SelectStop

  ghost predicate Init(s: State) {
    s == State([], [], multiset{}, multiset{}, multiset{}, multiset{}, multiset{}, s.clock, Top, [])
  }

  function Trigger(store: seq<Timer>, id: nat): int {
    if id < |store| then store[id].trigger else 0
  }

  /** The comparison the scheduler gives to its priority queue; it reads the objects as they are now. */
  ghost function Earlier(store: seq<Timer>): (nat, nat) -> bool {
    (a: nat, b: nat) => Trigger(store, a) < Trigger(store, b)
  }

  /** A user's handle: an object made by SetTimer or SetTicker. */
  ghost predicate IsHandle(store: seq<Timer>, h: nat) {
    h < |store| && store[h].root == h
  }

  ghost predicate Enabled(s: State, a: Action) {
    match a
    case SetTimer(d, ticker) => true
    case StopCall(h) => IsHandle(s.store, h)
    case ResetCall(h, d) => IsHandle(s.store, h)
    case Advance(dt) => true
    case StartDrain => s.phase.Top?
    case DrainOne(heap) =>
      && s.phase.Draining? && s.heap != [] && s.heap[0] < |s.store|
      && s.store[s.heap[0]].trigger <= s.phase.now && PQ.Popped(Earlier(s.store), s.heap, s.heap[0], heap)
    case EndDrain =>
      s.phase.Draining? && (s.heap != [] ==> s.heap[0] < |s.store| && s.store[s.heap[0]].trigger > s.phase.now)
    case SelectAdd(id, heap) =>
      && s.phase.Selecting? && id in s.transit && id < |s.store|
      && PQ.Pushed(Earlier(s.store), s.heap, id, heap)
    case AddMore(id, heap) =>
      && s.phase.Adding? && id in s.transit && id < |s.store|
      && PQ.Pushed(Earlier(s.store), s.heap, id, heap)
    case AddDone => s.phase.Adding?
    case SelectReset(h, d) => s.phase.Selecting? && (h, d) in s.mods && IsHandle(s.store, h)
    case SelectRemove(h) => s.phase.Selecting? && h in s.removes && IsHandle(s.store, h)
    case SelectTimeout => s.phase.Selecting?
    case SelectStop => s.phase.Selecting?
  }

  /** The callback runs; `fromHeap` tells the drain of the heap from the late-add path. */
  ghost function Fire(s: State, id: nat, now: int, fromHeap: bool): State
    requires id < |s.store|
  {
    s.(log := s.log + [Firing(id, s.store[id].trigger, now, s.clock, fromHeap, s.store[id].removed)])
  }

  ghost function Apply(s: State, a: Action): State
    requires Enabled(s, a)
  {
    match a
    case SetTimer(d, ticker) =>
      s.(store := s.store + [Timer(|s.store|, ticker, s.clock + d, d, false)], transit := s.transit + multiset{|s.store|})
    case StopCall(h) => s.(removes := s.removes + multiset{h})
    case ResetCall(h, d) => s.(mods := s.mods + multiset{(h, d)})
    case Advance(dt) => s.(clock := s.clock + dt)
    case StartDrain => s.(phase := Draining(s.clock, |s.log|))
    case DrainOne(heap) =>
      var m := s.heap[0];
      var s1 := s.(heap := heap);
      if s.store[m].removed then s1.(dropped := s.dropped + multiset{m})
      else if s.store[m].ticker then
        Fire(s1, m, s.phase.now, true).(
          store := s.store[m := s.store[m].(trigger := s.phase.now + s.store[m].duration)],
          transit := s.transit + multiset{m})
      else Fire(s1, m, s.phase.now, true).(fired := s.fired + multiset{m})
    case EndDrain => s.(phase := Selecting(s.phase.now))
    case SelectAdd(id, heap) =>
      var s1 := s.(transit := s.transit - multiset{id});
      if s.store[id].trigger < s.phase.now then Fire(s1, id, s.phase.now, false).(fired := s.fired + multiset{id}, phase := Top)
      else s1.(heap := heap, phase := Adding)
    case AddMore(id, heap) =>
      var s1 := s.(transit := s.transit - multiset{id});
      if s.store[id].trigger < s.clock then Fire(s1, id, s.clock, false).(fired := s.fired + multiset{id})
      else s1.(heap := heap)
    case AddDone => s.(phase := Top)
    case SelectReset(h, d) =>
      var tt := s.store[h].(duration := d, trigger := s.clock + d);
      s.(store := s.store[h := s.store[h].(removed := true)] + [tt], mods := s.mods - multiset{(h, d)},
      transit := s.transit + multiset{|s.store|}, phase := Top)
    case SelectRemove(h) =>
      s.(store := s.store[h := s.store[h].(removed := true)], removes := s.removes - multiset{h}, phase := Top)
    case SelectTimeout => s.(phase := Top)
    case SelectStop => s.(phase := Stopped)
  }

  ghost predicate Next(s: State, s': State) {
    exists a :: Enabled(s, a) && s' == Apply(s, a)
  }

  ghost predicate Run(r: seq<State>) {
    && |r| > 0 && Init(r[0])
    && forall i :: 0 <= i < |r| - 1 ==> Next(r[i], r[i + 1])
  }

  /** Every step of a run is some process's action. */
  lemma StepOf(r: seq<State>, k: nat) returns (a: Action)
    requires Run(r) && k + 1 < |r|
    ensures Enabled(r[k], a) && r[k + 1] == Apply(r[k], a)
  {
    assert Next(r[k], r[k + 1]);
    a :| Enabled(r[k], a) && r[k + 1] == Apply(r[k], a);
  }

  /** The comparison is one the priority queue accepts, whatever the objects hold. */
  lemma EarlierIsOrder(store: seq<Timer>)
    ensures PQ.StrictWeakOrder(Earlier(store))
  {
  }

  // ---------- Where the objects are ----------

  /** 1 for a firing of object `id`. */
  ghost function FiringOf(id: nat): Firing -> nat {
    (f: Firing) => if f.id == id then 1 else 0
  }

  /** Object `id` is in exactly one place, and a one-shot has fired exactly if it is in the place of the fired. */
  ghost predicate Placed(s: State, id: nat) {
    && s.transit[id] + multiset(s.heap)[id] + s.fired[id] + s.dropped[id] == (if id < |s.store| then 1 else 0)
    && (id < |s.store| && !s.store[id].ticker ==> Weight(FiringOf(id), s.log) == s.fired[id])
    && (id >= |s.store| ==> Weight(FiringOf(id), s.log) == 0)
  }

  lemma DrainPlaced(s: State, heap: seq<nat>, id: nat)
    requires Enabled(s, DrainOne(heap)) && Placed(s, id)
    ensures Placed(Apply(s, DrainOne(heap)), id)
  {
    var s' := Apply(s, DrainOne(heap));
    assert multiset(s.heap)[id] == multiset(heap)[id] + multiset{s.heap[0]}[id];
    if |s'.log| > |s.log| {
      WeightAppend(FiringOf(id), s.log, s'.log[|s.log|]);
    }
  }

  /** A timer taken from the channel fires, or goes into the heap. */
  lemma AddPlaced(s: State, s': State, m: nat, heap: seq<nat>, id: nat)
    requires Placed(s, id) && m in s.transit && m < |s.store| && multiset(heap) == multiset(s.heap) + multiset{m}
    requires s'.store == s.store && s'.transit == s.transit - multiset{m} && s'.dropped == s.dropped
    requires || (s'.heap == heap && s'.fired == s.fired && s'.log == s.log)
             || (s'.heap == s.heap && s'.fired == s.fired + multiset{m} && |s'.log| == |s.log| + 1
                 && s'.log == s.log + [s'.log[|s.log|]] && s'.log[|s.log|].id == m)
    ensures Placed(s', id)
  {
    assert multiset(heap)[id] == multiset(s.heap)[id] + multiset{m}[id];
    if s'.log != s.log {
      WeightAppend(FiringOf(id), s.log, s'.log[|s.log|]);
    }
  }

  lemma AddStep(s: State, a: Action, id: nat)
    requires Enabled(s, a) && (a.SelectAdd? || a.AddMore?) && Placed(s, id)
    ensures Placed(Apply(s, a), id)
  {
    hide Placed;
    AddPlaced(s, Apply(s, a), a.id, a.heap, id);
  }

  /** No action loses an object, puts it in two places, or fires a one-shot twice. */
  lemma PlacedStep(s: State, a: Action, id: nat)
    requires Enabled(s, a) && Placed(s, id)
    ensures Placed(Apply(s, a), id)
  {
    if a.DrainOne? {
      DrainPlaced(s, a.heap, id);
    } else if a.SelectAdd? || a.AddMore? {
      AddStep(s, a, id);
    } else {
      assert Apply(s, a).log == s.log && Apply(s, a).heap == s.heap && Apply(s, a).fired == s.fired;
    }
  }

  // ---------- Handles ----------

  ghost predicate Live(store: seq<Timer>, id: nat) {
    id < |store| && !store[id].removed
  }

  ghost predicate IsCopy(store: seq<Timer>, id: nat) {
    id < |store| && store[id].root != id
  }

  /** A handle has at most one un-removed copy, and then its own object is removed. */
  ghost predicate HandlesOk(store: seq<Timer>) {
    && (forall id :: 0 <= id < |store| ==> IsHandle(store, store[id].root))
    && (forall id :: 0 <= id < |store| && IsCopy(store, id) && Live(store, id) ==> !Live(store, store[id].root))
    && (forall i, j :: 0 <= i < j < |store| && IsCopy(store, i) && IsCopy(store, j) && Live(store, i) && Live(store, j)
          ==> store[i].root != store[j].root)
  }

  ghost function Marked(store: seq<Timer>, h: nat): seq<Timer>
    requires h < |store|
  {
    store[h := store[h].(removed := true)]
  }

  lemma MarkedHandles(store: seq<Timer>, h: nat)
    requires HandlesOk(store) && IsHandle(store, h)
    ensures HandlesOk(Marked(store, h))
  {
    var store' := Marked(store, h);
    assert forall id: nat :: IsCopy(store', id) == IsCopy(store, id) && (Live(store', id) ==> Live(store, id));
    assert forall id: nat :: IsHandle(store', id) == IsHandle(store, id);
  }

  /** Resetting adds a copy, un-removed only if the handle's own object was. */
  lemma ResetHandles(store: seq<Timer>, h: nat, tt: Timer)
    requires HandlesOk(store) && IsHandle(store, h) && tt.root == h && tt.removed == store[h].removed
    ensures HandlesOk(Marked(store, h) + [tt])
  {
    MarkedHandles(store, h);
    var store1 := Marked(store, h);
    var store' := store1 + [tt];
    assert forall id: nat :: id < |store| ==> store'[id] == store1[id];
    forall i | 0 <= i < |store| && IsCopy(store', i) && Live(store', i) && Live(store', |store|)
      ensures store'[i].root != h
    {
      assert IsCopy(store, i) && Live(store, i) && Live(store, h);
    }
    forall id | 0 <= id < |store'|
      ensures IsHandle(store', store'[id].root)
      ensures IsCopy(store', id) && Live(store', id) ==> !Live(store', store'[id].root)
    {
      if id < |store| {
        assert IsHandle(store1, store1[id].root);
        assert IsCopy(store1, id) && Live(store1, id) ==> !Live(store1, store1[id].root);
      }
    }
  }

  lemma NewHandle(store: seq<Timer>, t: Timer)
    requires HandlesOk(store) && t.root == |store|
    ensures HandlesOk(store + [t])
  {
    var store' := store + [t];
    forall id | 0 <= id < |store'|
      ensures IsHandle(store', store'[id].root)
      ensures IsCopy(store', id) && Live(store', id) ==> !Live(store', store'[id].root)
    {
      if id < |store| {
        assert IsHandle(store, store[id].root);
        assert IsCopy(store, id) && Live(store, id) ==> !Live(store, store[id].root);
      }
    }
  }

  lemma RearmedHandles(store: seq<Timer>, m: nat, trigger: int)
    requires HandlesOk(store) && m < |store|
    ensures HandlesOk(store[m := store[m].(trigger := trigger)])
  {
    var store' := store[m := store[m].(trigger := trigger)];
    assert forall id: nat :: IsCopy(store', id) == IsCopy(store, id) && Live(store', id) == Live(store, id);
    assert forall id: nat :: IsHandle(store', id) == IsHandle(store, id);
  }

  lemma HandlesStep(s: State, a: Action)
    requires Enabled(s, a) && HandlesOk(s.store)
    ensures HandlesOk(Apply(s, a).store)
  {
    var store' := Apply(s, a).store;
    if a.SetTimer? {
      NewHandle(s.store, store'[|s.store|]);
    } else if a.SelectReset? {
      ResetHandles(s.store, a.h, store'[|s.store|]);
    } else if a.SelectRemove? {
      MarkedHandles(s.store, a.h);
    } else if store' != s.store {
      RearmedHandles(s.store, s.heap[0], store'[s.heap[0]].trigger);
    }
  }

  // ---------- The heap and the clock ----------

  ghost predicate HeapOk(s: State) {
    && PQ.IsHeap(Earlier(s.store), s.heap)
    && (forall x :: x in s.heap ==> x < |s.store|)
  }

  lemma HeapFrame(store: seq<Timer>, store': seq<Timer>, heap: seq<nat>)
    requires PQ.IsHeap(Earlier(store), heap)
    requires forall x :: x in heap ==> Trigger(store', x) == Trigger(store, x)
    ensures PQ.IsHeap(Earlier(store'), heap)
  {
    forall j | 0 < j < |heap|
      ensures !Earlier(store')(heap[j], heap[PQ.Parent(j)])
    {
      assert !Earlier(store)(heap[j], heap[PQ.Parent(j)]);
      assert heap[j] in heap && heap[PQ.Parent(j)] in heap;
    }
  }

  /** Popping and pushing change nothing else about what is in the heap. */
  lemma PoppedMember(heap: seq<nat>, m: nat, heap': seq<nat>, x: nat)
    requires multiset(heap) == multiset(heap') + multiset{m} && multiset(heap)[m] <= 1 && x in heap'
    ensures x in heap && x != m
  {
    assert x in multiset(heap');
    assert multiset(heap)[x] == multiset(heap')[x] + multiset{m}[x];
    assert x in multiset(heap);
  }

  lemma PushedMember(heap: seq<nat>, m: nat, heap': seq<nat>, x: nat)
    requires multiset(heap') == multiset(heap) + multiset{m} && x in heap'
    ensures x in heap || x == m
  {
    assert x in multiset(heap');
    assert multiset(heap')[x] == multiset(heap)[x] + multiset{m}[x];
    assert x != m ==> x in multiset(heap);
  }

  lemma DrainHeap(s: State, heap: seq<nat>)
    requires Enabled(s, DrainOne(heap)) && HeapOk(s) && Placed(s, s.heap[0])
    ensures HeapOk(Apply(s, DrainOne(heap)))
  {
    var store', m := Apply(s, DrainOne(heap)).store, s.heap[0];
    forall x | x in heap
      ensures x < |s.store| && x != m
    {
      PoppedMember(s.heap, m, heap, x);
    }
    HeapFrame(s.store, store', heap);
  }

  lemma AddHeap(s: State, a: Action)
    requires Enabled(s, a) && HeapOk(s) && (a.SelectAdd? || a.AddMore?)
    ensures HeapOk(Apply(s, a))
  {
    forall x | x in a.heap
      ensures x < |s.store|
    {
      PushedMember(s.heap, a.id, a.heap, x);
    }
  }

  /** Heap order survives every action: `trigger` is written only on an object outside the heap. */
  lemma HeapStep(s: State, a: Action)
    requires Enabled(s, a) && HeapOk(s) && (forall id :: Placed(s, id))
    ensures HeapOk(Apply(s, a))
  {
    if a.DrainOne? {
      assert Placed(s, s.heap[0]);
      DrainHeap(s, a.heap);
    } else if a.SelectAdd? || a.AddMore? {
      AddHeap(s, a);
    } else {
      var store' := Apply(s, a).store;
      assert Apply(s, a).heap == s.heap;
      assert |store'| >= |s.store| && forall x :: x in s.heap ==> Trigger(store', x) == Trigger(s.store, x);
      HeapFrame(s.store, store', s.heap);
    }
  }

  // ---------- The firings ----------

  ghost predicate FiringOk(s: State, f: Firing) {
    f.trigger <= f.now <= f.at <= s.clock && (f.fromHeap ==> !f.removed)
  }

  /** During a drain, what it has fired is in trigger order and before all that is left. */
  ghost predicate DrainOk(s: State) {
    s.phase.Draining? ==>
      && s.phase.now <= s.clock && s.phase.mark <= |s.log|
      && (forall j, x :: s.phase.mark <= j < |s.log| && x in s.heap ==> s.log[j].trigger <= Trigger(s.store, x))
      && (forall j, k :: s.phase.mark <= j < k < |s.log| ==> s.log[j].trigger <= s.log[k].trigger)
  }

  ghost predicate LogOk(s: State) {
    && (forall k :: 0 <= k < |s.log| ==> FiringOk(s, s.log[k]))
    && (s.phase.Selecting? ==> s.phase.now <= s.clock)
    && DrainOk(s)
  }

  lemma DrainLog(s: State, heap: seq<nat>)
    requires Enabled(s, DrainOne(heap)) && HeapOk(s) && LogOk(s) && Placed(s, s.heap[0])
    ensures LogOk(Apply(s, DrainOne(heap)))
  {
    var s', m := Apply(s, DrainOne(heap)), s.heap[0];
    forall x | x in heap
      ensures x in s.heap && x != m && Trigger(s.store, m) <= Trigger(s'.store, x) == Trigger(s.store, x)
    {
      PoppedMember(s.heap, m, heap, x);
      var i :| 0 <= i < |s.heap| && s.heap[i] == x;
      assert !Earlier(s.store)(s.heap[i], m);
    }
  }

  lemma QuietLog(s: State, a: Action)
    requires Enabled(s, a) && LogOk(s) && Apply(s, a).log == s.log && (Apply(s, a).phase.Draining? ==> a.StartDrain? || s.phase.Draining?)
    requires Apply(s, a).phase.Draining? && !a.StartDrain? ==>
      && Apply(s, a).heap == s.heap && Apply(s, a).phase == s.phase
      && forall x :: x in s.heap ==> Trigger(Apply(s, a).store, x) == Trigger(s.store, x)
    ensures LogOk(Apply(s, a))
  {
  }

  lemma LogStep(s: State, a: Action)
    requires Enabled(s, a) && HeapOk(s) && LogOk(s) && (forall id :: Placed(s, id))
    ensures LogOk(Apply(s, a))
  {
    if a.DrainOne? {
      assert Placed(s, s.heap[0]);
      DrainLog(s, a.heap);
    } else if a.SelectAdd? || a.AddMore? {
      assert !Apply(s, a).phase.Draining?;
    } else {
      assert Apply(s, a).log == s.log;
      QuietLog(s, a);
    }
  }

  ghost predicate Inv(s: State) {
    && (forall id :: Placed(s, id))
    && HandlesOk(s.store) && HeapOk(s) && LogOk(s)
  }

  lemma {:induction false} RunInv(r: seq<State>, i: nat)
    requires Run(r) && i < |r|
    ensures Inv(r[i])
  {
    hide Apply;
    if i > 0 {
      RunInv(r, i - 1);
      assert Next(r[i - 1], r[i - 1 + 1]);
      var a :| Enabled(r[i - 1], a) && r[i] == Apply(r[i - 1], a);
      forall id
        ensures Placed(r[i], id)
      {
        assert Placed(r[i - 1], id);
        PlacedStep(r[i - 1], a, id);
      }
      HandlesStep(r[i - 1], a);
      HeapStep(r[i - 1], a);
      LogStep(r[i - 1], a);
    }
  }

  // ---------- What holds in every run ----------

  /**
   Each timer object is in exactly one place: in transit, in the heap, fired, or
   dropped as removed. A one-shot fires at most once.
   */
  lemma Conservation(r: seq<State>, i: nat, id: nat)
    requires Run(r) && i < |r| && id < |r[i].store|
    ensures r[i].transit[id] + multiset(r[i].heap)[id] + r[i].fired[id] + r[i].dropped[id] == 1
    ensures !r[i].store[id].ticker ==> Weight(FiringOf(id), r[i].log) <= 1
  {
    RunInv(r, i);
    assert Placed(r[i], id);
  }

  /** No timer fires before its trigger, and none that is marked removed fires from the heap. */
  lemma NeverEarly(r: seq<State>, i: nat, k: nat)
    requires Run(r) && i < |r| && k < |r[i].log|
    ensures r[i].log[k].trigger <= r[i].log[k].at
    ensures r[i].log[k].fromHeap ==> !r[i].log[k].removed
  {
    RunInv(r, i);
    assert FiringOk(r[i], r[i].log[k]);
  }

  /** A user's handle stands for at most one un-removed object, however often it is reset or stopped. */
  lemma OneLivePerHandle(r: seq<State>, n: nat, i: nat, j: nat)
    requires Run(r) && n < |r| && Live(r[n].store, i) && Live(r[n].store, j) && r[n].store[i].root == r[n].store[j].root
    ensures i == j
  {
    RunInv(r, n);
    var store := r[n].store;
    assert IsHandle(store, store[i].root) && IsHandle(store, store[j].root);
  }

  /**
   A drain fires in trigger order, and when it ends every timer left in the heap
   is due strictly later than the time it was run for.
   */
  lemma DrainInOrder(r: seq<State>, i: nat)
    requires Run(r) && i < |r| && r[i].phase.Draining? && Enabled(r[i], EndDrain)
    ensures forall j, k :: r[i].phase.mark <= j < k < |r[i].log| ==> r[i].log[j].trigger <= r[i].log[k].trigger
    ensures forall x :: x in r[i].heap ==> Trigger(r[i].store, x) > r[i].phase.now
  {
    RunInv(r, i);
    var s := r[i];
    EarlierIsOrder(s.store);
    forall x | x in s.heap
      ensures Trigger(s.store, x) > s.phase.now
    {
      var k :| 0 <= k < |s.heap| && s.heap[k] == x;
      PQ.RootLeast(Earlier(s.store), s.heap, k);
    }
  }

  // ---------- Clocks and durations ----------

  /** When the object's last interval began: with its last firing from the heap, or else when it was `made`. */
  ghost function Base(log: seq<Firing>, id: nat, made: int): int {
    if log == [] then made else
      var last := log[|log| - 1];
      if last.id == id && last.fromHeap then last.now else Base(log[..|log| - 1], id, made)
  }

  ghost function Expected(log: seq<Firing>, id: nat, made: int, d: nat, ticker: bool): int {
    (if ticker then Base(log, id, made) else made) + d
  }

  /** The object, made at clock `made` for duration `d`, is and always was to fire `d` after its interval began. */
  ghost predicate ArmedFor(s: State, id: nat, made: int, d: nat, ticker: bool) {
    && id < |s.store| && s.store[id].duration == d && s.store[id].ticker == ticker
    && s.store[id].trigger == Expected(s.log, id, made, d, ticker)
    && forall k :: 0 <= k < |s.log| && s.log[k].id == id ==> s.log[k].trigger == Expected(s.log[..k], id, made, d, ticker)
  }

  lemma LogNext(log: seq<Firing>, f: Firing, id: nat, made: int, d: nat, ticker: bool)
    requires forall k :: 0 <= k < |log| && log[k].id == id ==> log[k].trigger == Expected(log[..k], id, made, d, ticker)
    requires f.id == id ==> f.trigger == Expected(log, id, made, d, ticker)
    ensures forall k :: 0 <= k < |log + [f]| && (log + [f])[k].id == id ==>
              (log + [f])[k].trigger == Expected((log + [f])[..k], id, made, d, ticker)
    ensures Base(log + [f], id, made) == if f.id == id && f.fromHeap then f.now else Base(log, id, made)
  {
    hide Expected;
    assert (log + [f])[..|log|] == log;
    forall k | 0 <= k < |log|
      ensures (log + [f])[..k] == log[..k]
    {
    }
  }

  lemma FiringArmed(s: State, a: Action, id: nat, made: int, d: nat, ticker: bool)
    requires Enabled(s, a) && ArmedFor(s, id, made, d, ticker) && |Apply(s, a).log| > |s.log|
    ensures ArmedFor(Apply(s, a), id, made, d, ticker)
  {
    var s' := Apply(s, a);
    var f := s'.log[|s.log|];
    assert s'.log == s.log + [f];
    LogNext(s.log, f, id, made, d, ticker);
  }

  lemma ArmedStep(s: State, a: Action, id: nat, made: int, d: nat, ticker: bool)
    requires Enabled(s, a) && ArmedFor(s, id, made, d, ticker)
    ensures ArmedFor(Apply(s, a), id, made, d, ticker)
  {
    if |Apply(s, a).log| > |s.log| {
      FiringArmed(s, a, id, made, d, ticker);
    } else {
      QuietArmed(s, a, id);
      hide Apply;
      hide Enabled;
    }
  }

  ghost predicate SameTimes(t: Timer, t': Timer) {
    t'.trigger == t.trigger && t'.duration == t.duration && t'.ticker == t.ticker
  }

  lemma LoopQuiet(s: State, a: Action, id: nat)
    requires Enabled(s, a) && id < |s.store| && (a.DrainOne? || a.SelectAdd? || a.AddMore?) && |Apply(s, a).log| <= |s.log|
    ensures var s' := Apply(s, a); s'.log == s.log && s'.store == s.store
  {
  }

  /** An action that runs no callback leaves the object's times alone. */
  lemma QuietArmed(s: State, a: Action, id: nat)
    requires Enabled(s, a) && id < |s.store| && |Apply(s, a).log| <= |s.log|
    ensures var s' := Apply(s, a); s'.log == s.log && id < |s'.store| && SameTimes(s.store[id], s'.store[id])
  {
    if a.DrainOne? || a.SelectAdd? || a.AddMore? {
      LoopQuiet(s, a, id);
    } else {
      assert Apply(s, a).log == s.log;
    }
  }

  /** The action makes an object for duration `d`: SetTimer, SetTicker, or the event loop for a Reset. */
  ghost predicate Makes(s: State, a: Action, d: nat, ticker: bool) {
    && Enabled(s, a)
    && (a == SetTimer(d, ticker) || (a.SelectReset? && a.d == d && s.store[a.h].ticker == ticker))
  }

  lemma NeverFired(s: State, id: nat)
    requires Placed(s, id) && id >= |s.store|
    ensures forall k :: 0 <= k < |s.log| ==> s.log[k].id != id
  {
    forall k | 0 <= k < |s.log|
      ensures s.log[k].id != id
    {
      WeightContains(FiringOf(id), s.log, k);
    }
  }

  lemma {:induction false} BaseNone(log: seq<Firing>, id: nat, made: int)
    requires forall k :: 0 <= k < |log| ==> log[k].id != id
    ensures Base(log, id, made) == made
  {
    if log != [] {
      BaseNone(log[..|log| - 1], id, made);
    }
  }

  lemma MadeArmed(s: State, a: Action, d: nat, ticker: bool)
    requires Makes(s, a, d, ticker) && Placed(s, |s.store|)
    ensures ArmedFor(Apply(s, a), |s.store|, s.clock, d, ticker)
  {
    var s' := Apply(s, a);
    assert s'.log == s.log && s'.store[|s.store|].trigger == s.clock + d;
    NeverFired(s, |s.store|);
    BaseNone(s.log, |s.store|, s.clock);
  }

  lemma PlacedAt(r: seq<State>, i: nat, id: nat)
    requires Run(r) && i < |r|
    ensures Placed(r[i], id)
  {
    RunInv(r, i);
  }

  /** At moment `i` an object is made for duration `d`. */
  ghost predicate MadeAt(r: seq<State>, i: nat, d: nat, ticker: bool) {
    Run(r) && i + 1 < |r| && exists a :: Makes(r[i], a, d, ticker) && r[i + 1] == Apply(r[i], a)
  }

  lemma ArmedFirst(r: seq<State>, i: nat, d: nat, ticker: bool)
    requires MadeAt(r, i, d, ticker)
    ensures ArmedFor(r[i + 1], |r[i].store|, r[i].clock, d, ticker)
  {
    PlacedAt(r, i, |r[i].store|);
    hide Run;
    hide Apply;
    hide ArmedFor;
    hide Placed;
    var a :| Makes(r[i], a, d, ticker) && r[i + 1] == Apply(r[i], a);
    MadeArmed(r[i], a, d, ticker);
  }

  lemma {:induction false} ArmedRun(r: seq<State>, i: nat, j: nat, id: nat, made: int, d: nat, ticker: bool)
    requires Run(r) && i <= j < |r| && ArmedFor(r[i], id, made, d, ticker)
    ensures ArmedFor(r[j], id, made, d, ticker)
  {
    hide Run;
    hide ArmedFor;
    if i < j {
      ArmedRun(r, i, j - 1, id, made, d, ticker);
      ArmedNext(r, j - 1, id, made, d, ticker);
    }
  }

  /** From its making on, an object's trigger is the clock at the beginning of its interval plus its duration, exactly. */
  lemma TriggerExact(r: seq<State>, i: nat, j: nat, d: nat, ticker: bool)
    requires MadeAt(r, i, d, ticker) && i < j < |r|
    ensures ArmedFor(r[j], |r[i].store|, r[i].clock, d, ticker)
  {
    hide ArmedFor;
    hide Makes;
    ArmedFirst(r, i, d, ticker);
    ArmedRun(r, i + 1, j, |r[i].store|, r[i].clock, d, ticker);
  }

  lemma ArmedNext(r: seq<State>, k: nat, id: nat, made: int, d: nat, ticker: bool)
    requires Run(r) && k + 1 < |r| && ArmedFor(r[k], id, made, d, ticker)
    ensures ArmedFor(r[k + 1], id, made, d, ticker)
  {
    var b := StepOf(r, k);
    ArmedStep(r[k], b, id, made, d, ticker);
  }

  /** Intervals only move on. */
  lemma {:induction false} BaseGrows(s: State, id: nat, made: int, d: nat, a: nat, b: nat)
    requires ArmedFor(s, id, made, d, true) && a <= b <= |s.log| && forall k :: 0 <= k < |s.log| ==> FiringOk(s, s.log[k])
    ensures Base(s.log[..a], id, made) <= Base(s.log[..b], id, made)
    decreases b
  {
    if a < b {
      BaseGrows(s, id, made, d, a, b - 1);
      assert s.log[..b][..b - 1] == s.log[..b - 1];
      assert FiringOk(s, s.log[b - 1]);
    }
  }

  /** No callback runs before its timer's duration has passed since the call of SetTimer or SetTicker, or since the Reset was taken up. */
  lemma NotBeforeDuration(r: seq<State>, i: nat, j: nat, d: nat, ticker: bool, k: nat)
    requires MadeAt(r, i, d, ticker) && i < j < |r|
    requires k < |r[j].log| && r[j].log[k].id == |r[i].store|
    ensures r[j].log[k].at >= r[i].clock + d
  {
    var s, id, made := r[j], |r[i].store|, r[i].clock;
    TriggerExact(r, i, j, d, ticker);
    RunInv(r, j);
    assert FiringOk(s, s.log[k]);
    if ticker {
      BaseGrows(s, id, made, d, 0, k);
      assert s.log[..0] == [];
    }
  }

  /** A ticker's callback runs at least its duration after the time of the drain that ran it before. */
  lemma TickersApart(r: seq<State>, i: nat, j: nat, d: nat, x: nat, y: nat)
    requires MadeAt(r, i, d, true) && i < j < |r|
    requires x < y < |r[j].log| && r[j].log[x].id == r[j].log[y].id == |r[i].store|
    ensures r[j].log[x].fromHeap ==> r[j].log[y].at >= r[j].log[x].now + d
  {
    var s, id, made := r[j], |r[i].store|, r[i].clock;
    TriggerExact(r, i, j, d, true);
    RunInv(r, j);
    assert FiringOk(s, s.log[y]);
    BaseGrows(s, id, made, d, x + 1, y);
    assert s.log[..x + 1][x] == s.log[x];
  }

  /** All the while a drain goes by the time that it read first. */
  lemma {:induction false} DrainTime(r: seq<State>, m: nat, j: nat)
    requires Run(r) && m < j < |r| && Enabled(r[m], StartDrain) && r[m + 1] == Apply(r[m], StartDrain)
    requires forall k :: m < k <= j ==> r[k].phase.Draining?
    ensures r[j].phase.now == r[m].clock
  {
    hide Run;
    if m + 1 < j {
      DrainTime(r, m, j - 1);
      var b := StepOf(r, j - 1);
      hide Apply;
      hide Enabled;
      DrainKeepsTime(r[j - 1], b);
    }
  }

  lemma DrainKeepsTime(s: State, a: Action)
    requires Enabled(s, a) && s.phase.Draining? && Apply(s, a).phase.Draining?
    ensures Apply(s, a).phase == s.phase
  {
  }

  /** A drain that began at moment `m` leaves no timer in the heap that had become due by then. */
  lemma NoneLeftDue(r: seq<State>, i: nat, m: nat, j: nat, d: nat, ticker: bool)
    requires MadeAt(r, i, d, ticker) && i < j < |r|
    requires m < j && Enabled(r[m], StartDrain) && r[m + 1] == Apply(r[m], StartDrain)
    requires forall k :: m < k <= j ==> r[k].phase.Draining?
    requires Enabled(r[j], EndDrain) && |r[i].store| in r[j].heap
    ensures r[m].clock < (if ticker then Base(r[j].log, |r[i].store|, r[i].clock) else r[i].clock) + d
  {
    hide Apply;
    DrainTime(r, m, j);
    TriggerExact(r, i, j, d, ticker);
    DrainInOrder(r, j);
  }

  lemma DroppedStep(s: State, a: Action)
    requires Enabled(s, a) && forall id :: id in s.dropped ==> id < |s.store| && s.store[id].removed
    ensures var s' := Apply(s, a); forall id :: id in s'.dropped ==> id < |s'.store| && s'.store[id].removed
  {
    Grows(s, a);
    if !a.DrainOne? {
      assert Apply(s, a).dropped == s.dropped;
    }
  }

  /** Only timers that a Stop or a Reset has marked are dropped without a callback. */
  lemma {:induction false} DroppedWereRemoved(r: seq<State>, j: nat, id: nat)
    requires Run(r) && j < |r| && r[j].dropped[id] > 0
    ensures id < |r[j].store| && r[j].store[id].removed
  {
    AllDroppedRemoved(r, j);
  }

  lemma {:induction false} AllDroppedRemoved(r: seq<State>, j: nat)
    requires Run(r) && j < |r|
    ensures forall id :: id in r[j].dropped ==> id < |r[j].store| && r[j].store[id].removed
  {
    hide Apply;
    hide Enabled;
    if j > 0 {
      AllDroppedRemoved(r, j - 1);
      assert Next(r[j - 1], r[j - 1 + 1]);
      var a :| Enabled(r[j - 1], a) && r[j] == Apply(r[j - 1], a);
      DroppedStep(r[j - 1], a);
    }
  }

  /** A timer received from the channel runs at once exactly if its time is already past; else it waits in the heap. */
  lemma ReceivedExactly(s: State, a: Action)
    requires Enabled(s, a) && (a.SelectAdd? || a.AddMore?)
    ensures var s', late := Apply(s, a), s.store[a.id].trigger < (if a.SelectAdd? then s.phase.now else s.clock);
            && (late ==> |s'.log| == |s.log| + 1 && s'.log[|s.log|].id == a.id && s'.heap == s.heap)
            && (!late ==> s'.log == s.log && s'.heap == a.heap)
  {
  }

  lemma StoppedStep(s: State, a: Action)
    requires Enabled(s, a) && s.phase.Stopped?
    ensures Apply(s, a).phase.Stopped? && Apply(s, a).log == s.log
  {
  }

  /** After the event loop has taken up the shutdown no callback runs. */
  lemma {:induction false} StoppedForGood(r: seq<State>, m: nat, k: nat)
    requires Run(r) && m < k < |r| && Enabled(r[m], SelectStop) && r[m + 1] == Apply(r[m], SelectStop)
    ensures r[k].phase.Stopped? && r[k].log == r[m].log
    decreases k
  {
    hide Run;
    if m + 1 < k {
      StoppedForGood(r, m, k - 1);
      var a := StepOf(r, k - 1);
      hide Apply;
      hide Enabled;
      StoppedStep(r[k - 1], a);
    }
  }

  // ---------- Requests ----------

  /** A run with the actions that it is made of. */
  ghost predicate Trace(r: seq<State>, acts: seq<Action>)
    decreases |acts|
  {
    && |r| == |acts| + 1
    && if acts == [] then Init(r[0]) else
         var n := |acts| - 1;
         Trace(r[..n + 1], acts[..n]) && Enabled(r[n], acts[n]) && r[n + 1] == Apply(r[n], acts[n])
  }

  /** Every run has such actions. */
  lemma {:induction false} TraceOf(r: seq<State>) returns (acts: seq<Action>)
    requires Run(r)
    ensures Trace(r, acts)
  {
    hide Apply;
    hide Enabled;
    if |r| == 1 {
      acts := [];
    } else {
      var n := |r| - 2;
      assert Run(r[..n + 1]);
      var before := TraceOf(r[..n + 1]);
      var a := StepOf(r, n);
      acts := before + [a];
      assert acts[..n] == before;
    }
  }

  ghost function Stops(h: nat): Action -> nat {
    (a: Action) => if a == StopCall(h) then 1 else 0
  }

  ghost function StopsTaken(h: nat): Action -> nat {
    (a: Action) => if a == SelectRemove(h) then 1 else 0
  }

  ghost function Resets(h: nat, d: nat): Action -> nat {
    (a: Action) => if a == ResetCall(h, d) then 1 else 0
  }

  ghost function ResetsTaken(h: nat, d: nat): Action -> nat {
    (a: Action) => if a == SelectReset(h, d) then 1 else 0
  }

  lemma StopStep(s: State, a: Action, h: nat)
    requires Enabled(s, a)
    ensures Apply(s, a).removes[h] + StopsTaken(h)(a) == s.removes[h] + Stops(h)(a)
  {
    if !a.StopCall? && !a.SelectRemove? {
      assert Apply(s, a).removes == s.removes;
    }
  }

  lemma ResetStep(s: State, a: Action, h: nat, d: nat)
    requires Enabled(s, a)
    ensures Apply(s, a).mods[(h, d)] + ResetsTaken(h, d)(a) == s.mods[(h, d)] + Resets(h, d)(a)
  {
    if !a.ResetCall? && !a.SelectReset? {
      assert Apply(s, a).mods == s.mods;
    }
  }

  lemma CountNext(f: Action -> nat, acts: seq<Action>)
    requires acts != []
    ensures Weight(f, acts) == Weight(f, acts[..|acts| - 1]) + f(acts[|acts| - 1])
  {
    assert acts == acts[..|acts| - 1] + [acts[|acts| - 1]];
    WeightAppend(f, acts[..|acts| - 1], acts[|acts| - 1]);
  }

  /** No call of Stop or Reset is lost: each is taken up by the event loop, once, or still waits. */
  lemma {:induction false} RequestsKept(r: seq<State>, acts: seq<Action>, h: nat, d: nat)
    requires Trace(r, acts)
    ensures Weight(Stops(h), acts) == Weight(StopsTaken(h), acts) + r[|acts|].removes[h]
    ensures Weight(Resets(h, d), acts) == Weight(ResetsTaken(h, d), acts) + r[|acts|].mods[(h, d)]
    decreases |acts|
  {
    hide Apply;
    hide Enabled;
    if acts != [] {
      var n := |acts| - 1;
      RequestsKept(r[..n + 1], acts[..n], h, d);
      StopStep(r[n], acts[n], h);
      ResetStep(r[n], acts[n], h, d);
      hide Stops;
      hide StopsTaken;
      hide Resets;
      hide ResetsTaken;
      hide Weight;
      CountNext(Stops(h), acts);
      CountNext(StopsTaken(h), acts);
      CountNext(Resets(h, d), acts);
      CountNext(ResetsTaken(h, d), acts);
    }
  }

  // ---------- What Stop and Reset achieve ----------

  /** An object of the handle `h` among the first `n`. */
  ghost predicate Older(s: State, h: nat, n: nat, id: nat) {
    id < n && id < |s.store| && s.store[id].root == h
  }

  /** None of these objects is in transit, and those in the heap are marked removed. */
  ghost predicate Quiet(s: State, h: nat, n: nat) {
    forall id: nat :: Older(s, h, n, id) ==> s.transit[id] == 0 && (id in s.heap ==> s.store[id].removed)
  }

  /** Objects keep their handles and their marks, and firings are not taken back. */
  ghost predicate Grown(s: State, s': State) {
    && |s.store| <= |s'.store| && s.log <= s'.log
    && forall id :: 0 <= id < |s.store| ==> s'.store[id].root == s.store[id].root && (s.store[id].removed ==> s'.store[id].removed)
  }

  lemma LoopGrows(s: State, a: Action)
    requires Enabled(s, a) && (a.DrainOne? || a.SelectAdd? || a.AddMore?)
    ensures Grown(s, Apply(s, a))
  {
    assert a.SelectAdd? || a.AddMore? ==> Apply(s, a).store == s.store;
  }

  lemma Grows(s: State, a: Action)
    requires Enabled(s, a)
    ensures Grown(s, Apply(s, a))
  {
    if a.DrainOne? || a.SelectAdd? || a.AddMore? {
      LoopGrows(s, a);
    } else {
      assert Apply(s, a).log == s.log;
    }
  }

  lemma QuietDrain(s: State, heap: seq<nat>, h: nat, n: nat)
    requires Enabled(s, DrainOne(heap)) && Quiet(s, h, n)
    ensures var s' := Apply(s, DrainOne(heap));
            Quiet(s', h, n) && forall k :: |s.log| <= k < |s'.log| ==> !Older(s', h, n, s'.log[k].id)
  {
    var m, s' := s.heap[0], Apply(s, DrainOne(heap));
    forall id: nat | Older(s', h, n, id)
      ensures s'.transit[id] == 0 && (id in heap ==> s'.store[id].removed)
    {
      assert Older(s, h, n, id);
      if id in heap {
        assert id in multiset(heap) && id in multiset(s.heap);
      }
    }
    assert Older(s, h, n, m) ==> s.store[m].removed;
  }

  lemma QuietAdd(s: State, a: Action, h: nat, n: nat)
    requires Enabled(s, a) && (a.SelectAdd? || a.AddMore?) && Quiet(s, h, n)
    ensures var s' := Apply(s, a);
            Quiet(s', h, n) && forall k :: |s.log| <= k < |s'.log| ==> !Older(s', h, n, s'.log[k].id)
  {
    var s' := Apply(s, a);
    forall id: nat | Older(s', h, n, id)
      ensures s'.transit[id] == 0 && (id in s'.heap ==> s'.store[id].removed)
    {
      assert Older(s, h, n, id);
      if id in a.heap {
        PushedMember(s.heap, a.id, a.heap, id);
      }
    }
  }

  lemma QuietStep(s: State, a: Action, h: nat, n: nat)
    requires Enabled(s, a) && Quiet(s, h, n) && n <= |s.store|
    ensures var s' := Apply(s, a);
            Quiet(s', h, n) && forall k :: |s.log| <= k < |s'.log| ==> !Older(s', h, n, s'.log[k].id)
  {
    if a.DrainOne? {
      QuietDrain(s, a.heap, h, n);
    } else if a.SelectAdd? || a.AddMore? {
      QuietAdd(s, a, h, n);
    } else {
      var s' := Apply(s, a);
      Grows(s, a);
      assert s'.log == s.log && s'.heap == s.heap;
      forall id: nat | Older(s', h, n, id)
        ensures s'.transit[id] == 0 && (id in s'.heap ==> s'.store[id].removed)
      {
        assert Older(s, h, n, id);
      }
    }
  }

  /** Quiet objects stay so, and do not fire. */
  lemma {:induction false} QuietRun(r: seq<State>, m: nat, k: nat, h: nat, n: nat)
    requires Run(r) && m <= k < |r| && Quiet(r[m], h, n) && n <= |r[m].store|
    ensures Quiet(r[k], h, n) && n <= |r[k].store| && r[m].log <= r[k].log
    ensures forall y :: |r[m].log| <= y < |r[k].log| ==> !Older(r[k], h, n, r[k].log[y].id)
  {
    hide Apply;
    hide Enabled;
    if m < k {
      QuietRun(r, m, k - 1, h, n);
      assert Next(r[k - 1], r[k - 1 + 1]);
      var a :| Enabled(r[k - 1], a) && r[k] == Apply(r[k - 1], a);
      QuietStep(r[k - 1], a, h, n);
      Grows(r[k - 1], a);
    }
  }

  /** An object of the handle `h` among the first `n` fires after moment `m`. */
  ghost predicate FiresLater(r: seq<State>, m: nat, h: nat, n: nat)
    requires m < |r|
  {
    var s := r[|r| - 1];
    exists y :: |r[m].log| <= y < |s.log| && Older(s, h, n, s.log[y].id)
  }

  // ---------- Runs that make a timer fire ----------

  ghost function Insert(store: seq<Timer>, s: seq<nat>, x: nat): seq<nat> {
    if s == [] || Trigger(store, x) <= Trigger(store, s[0]) then [x] + s else [s[0]] + Insert(store, s[1..], x)
  }

  ghost predicate Sorted(store: seq<Timer>, s: seq<nat>) {
    forall i, j :: 0 <= i < j < |s| ==> Trigger(store, s[i]) <= Trigger(store, s[j])
  }

  lemma SortedHead(store: seq<Timer>, x: nat, s: seq<nat>)
    requires Sorted(store, s) && forall y :: y in s ==> Trigger(store, x) <= Trigger(store, y)
    ensures Sorted(store, [x] + s)
  {
  }

  lemma {:induction false} InsertKeeps(store: seq<Timer>, s: seq<nat>, x: nat)
    requires Sorted(store, s)
    ensures Sorted(store, Insert(store, s, x)) && multiset(Insert(store, s, x)) == multiset(s) + multiset{x}
    ensures forall y :: y in Insert(store, s, x) ==> y in s || y == x
  {
    if s == [] || Trigger(store, x) <= Trigger(store, s[0]) {
      SortedHead(store, x, s);
    } else {
      InsertKeeps(store, s[1..], x);
      assert s == [s[0]] + s[1..];
      SortedHead(store, s[0], Insert(store, s[1..], x));
    }
  }

  /** Every bag of timers can be arranged as a heap. */
  lemma SomeHeap(store: seq<Timer>, b: seq<nat>) returns (heap: seq<nat>)
    ensures PQ.IsHeap(Earlier(store), heap) && multiset(heap) == multiset(b)
  {
    heap := SomeOrder(store, b);
    assert forall j :: 0 < j < |heap| ==> Trigger(store, heap[PQ.Parent(j)]) <= Trigger(store, heap[j]);
  }

  lemma {:induction false} SomeOrder(store: seq<Timer>, b: seq<nat>) returns (s: seq<nat>)
    ensures Sorted(store, s) && multiset(s) == multiset(b)
  {
    if b == [] {
      s := [];
    } else {
      s := SomeOrder(store, b[1..]);
      InsertKeeps(store, s, b[0]);
      s := Insert(store, s, b[0]);
      assert b == [b[0]] + b[1..];
    }
  }

  lemma SomePop(store: seq<Timer>, heap: seq<nat>) returns (heap': seq<nat>)
    requires heap != [] && PQ.IsHeap(Earlier(store), heap)
    ensures PQ.Popped(Earlier(store), heap, heap[0], heap') && |heap'| == |heap| - 1
  {
    heap' := SomeHeap(store, heap[1..]);
    assert heap == [heap[0]] + heap[1..];
    EarlierIsOrder(store);
    forall j | 0 <= j < |heap|
      ensures !Earlier(store)(heap[j], heap[0])
    {
      PQ.RootLeast(Earlier(store), heap, j);
    }
    assert |multiset(heap')| == |heap'|;
  }

  lemma SomePush(store: seq<Timer>, heap: seq<nat>, id: nat) returns (heap': seq<nat>)
    ensures PQ.Pushed(Earlier(store), heap, id, heap')
  {
    heap' := SomeHeap(store, heap + [id]);
  }

  /** `r'` goes on from `r` without any call of Reset. */
  ghost predicate Follows(r: seq<State>, r': seq<State>) {
    && |r| > 0 && Run(r') && r <= r' && r[|r| - 1].log <= r'[|r'| - 1].log
    && forall k :: |r| - 1 <= k < |r'| ==> r'[k].mods == r[|r| - 1].mods
  }

  lemma Extend(r: seq<State>, r0: seq<State>, a: Action) returns (r': seq<State>)
    requires Follows(r0, r) && Enabled(r[|r| - 1], a)
    requires !a.ResetCall? && !a.SelectReset?
    ensures Follows(r0, r') && r'[|r'| - 1] == Apply(r[|r| - 1], a)
  {
    r' := r + [Apply(r[|r| - 1], a)];
    assert Next(r[|r| - 1], r'[|r|]);
    Grows(r[|r| - 1], a);
  }

  lemma DrainLeaves(s: State, heap: seq<nat>, id: nat)
    requires Enabled(s, DrainOne(heap)) && Placed(s, id) && id in s.transit
    ensures var s' := Apply(s, DrainOne(heap));
            && s'.heap == heap && s'.phase == s.phase && s'.clock == s.clock && |s'.store| == |s.store|
            && id in s'.transit && (id < |s.store| ==> s'.store[id] == s.store[id])
  {
    assert s.heap[0] in multiset(s.heap);
  }

  /** The loop that drains the heap comes to its end; what is in transit stays there. */
  lemma {:induction false} DrainAll(r: seq<State>, r0: seq<State>, id: nat) returns (r': seq<State>)
    requires Follows(r0, r) && r[|r| - 1].phase.Draining? && id in r[|r| - 1].transit
    ensures Follows(r0, r') && r'[|r'| - 1].phase == Selecting(r[|r| - 1].phase.now) && r'[|r'| - 1].clock == r[|r| - 1].clock
    ensures id in r'[|r'| - 1].transit && |r'[|r'| - 1].store| == |r[|r| - 1].store|
    ensures id < |r[|r| - 1].store| ==> r'[|r'| - 1].store[id] == r[|r| - 1].store[id]
    decreases |r[|r| - 1].heap|
  {
    var s := r[|r| - 1];
    RunInv(r, |r| - 1);
    assert s.heap == [] || s.heap[0] in s.heap;
    if s.heap == [] || s.store[s.heap[0]].trigger > s.phase.now {
      r' := Extend(r, r0, EndDrain);
    } else {
      var heap := SomePop(s.store, s.heap);
      assert Placed(s, s.heap[0]) && Placed(s, id);
      r' := Extend(r, r0, DrainOne(heap));
      DrainLeaves(s, heap, id);
      hide Apply;
      hide Enabled;
      r' := DrainAll(r', r0, id);
    }
  }

  /** A timer in transit can come in late, whether it is marked removed or not. */
  lemma LateFire(r: seq<State>, id: nat) returns (r': seq<State>)
    requires Run(r) && r[|r| - 1].phase.Top? && id in r[|r| - 1].transit
    ensures Follows(r, r') && FiresFrom(r', |r| - 1, id, false)
  {
    var s := r[|r| - 1];
    RunInv(r, |r| - 1);
    assert Placed(s, id);
    var wait := if s.store[id].trigger >= s.clock then s.store[id].trigger - s.clock + 1 else 0;
    r' := Extend(r, r, Advance(wait));
    r' := Extend(r', r, StartDrain);
    r' := DrainAll(r', r, id);
    var late := r'[|r'| - 1];
    assert late.store[id] == s.store[id] && s.store[id].trigger < late.phase.now;
    var heap := SomePush(late.store, late.heap, id);
    r' := Extend(r', r, SelectAdd(id, heap));
    assert r'[|r'| - 1].log[|late.log|].id == id;
  }

  /** Object `id` fires after moment `m`, out of the heap or not. */
  ghost predicate FiresFrom(r: seq<State>, m: nat, id: nat, fromHeap: bool)
    requires m < |r|
  {
    var s := r[|r| - 1];
    exists y :: |r[m].log| <= y < |s.log| && s.log[y].id == id && s.log[y].fromHeap == fromHeap
  }

  /** The root is due if anything in the heap is. */
  lemma RootDue(s: State, id: nat)
    requires HeapOk(s) && s.phase.Draining? && id in s.heap && s.store[id].trigger <= s.phase.now
    ensures s.heap[0] < |s.store| && s.store[s.heap[0]].trigger <= s.phase.now
  {
    var i :| 0 <= i < |s.heap| && s.heap[i] == id;
    EarlierIsOrder(s.store);
    PQ.RootLeast(Earlier(s.store), s.heap, i);
    assert s.heap[0] in s.heap;
  }

  lemma DrainOthers(s: State, heap: seq<nat>, id: nat)
    requires Enabled(s, DrainOne(heap)) && Placed(s, s.heap[0]) && id in s.heap && id != s.heap[0]
    ensures var s' := Apply(s, DrainOne(heap));
            id in heap && s'.heap == heap && s'.phase == s.phase && |s'.store| == |s.store|
            && (id < |s.store| ==> s'.store[id] == s.store[id])
  {
    assert id in multiset(s.heap) && id in multiset(heap);
  }

  /** The loop that drains the heap comes to a timer that is due and not removed, and fires it. */
  lemma {:induction false} DrainUntil(r: seq<State>, r0: seq<State>, id: nat) returns (r': seq<State>)
    requires Follows(r0, r) && r[|r| - 1].phase.Draining? && id in r[|r| - 1].heap && id < |r[|r| - 1].store|
    requires !r[|r| - 1].store[id].removed && r[|r| - 1].store[id].trigger <= r[|r| - 1].phase.now
    ensures Follows(r0, r') && FiresFrom(r', |r0| - 1, id, true)
    decreases |r[|r| - 1].heap|
  {
    var s := r[|r| - 1];
    RunInv(r, |r| - 1);
    RootDue(s, id);
    var heap := SomePop(s.store, s.heap);
    r' := Extend(r, r0, DrainOne(heap));
    if s.heap[0] == id {
      assert r'[|r'| - 1].log[|s.log|].id == id;
    } else {
      assert Placed(s, s.heap[0]);
      DrainOthers(s, heap, id);
      hide Apply;
      r' := DrainUntil(r', r0, id);
    }
  }

  /** A timer in the heap that is not marked removed can fire from there. */
  lemma HeapFire(r: seq<State>, r0: seq<State>, id: nat) returns (r': seq<State>)
    requires Follows(r0, r) && r[|r| - 1].phase.Top? && id in r[|r| - 1].heap && id < |r[|r| - 1].store|
    requires !r[|r| - 1].store[id].removed
    ensures Follows(r0, r') && FiresFrom(r', |r0| - 1, id, true)
  {
    var s := r[|r| - 1];
    var wait := if s.store[id].trigger >= s.clock then s.store[id].trigger - s.clock else 0;
    r' := Extend(r, r0, Advance(wait));
    r' := Extend(r', r0, StartDrain);
    r' := DrainUntil(r', r0, id);
  }

  // ---------- What a Stop silences ----------

  /** Some run without further resets in which one of these objects fires, unless they are quiet. */
  lemma NotQuietFires(r: seq<State>, h: nat, n: nat, id: nat) returns (r': seq<State>)
    requires Run(r) && r[|r| - 1].phase.Top? && n <= |r[|r| - 1].store| && Older(r[|r| - 1], h, n, id)
    requires var s := r[|r| - 1]; s.transit[id] > 0 || (id in s.heap && !s.store[id].removed)
    ensures Follows(r, r') && FiresLater(r', |r| - 1, h, n)
  {
    var s := r[|r| - 1];
    if s.transit[id] > 0 {
      r' := LateFire(r, id);
    } else {
      r' := HeapFire(r, r, id);
    }
    SameHandle(r', |r| - 1, |r'| - 1, id);
  }

  /** Objects keep their handles throughout a run. */
  lemma {:induction false} SameHandle(r: seq<State>, m: nat, k: nat, id: nat)
    requires Run(r) && m <= k < |r| && id < |r[m].store|
    ensures id < |r[k].store| && r[k].store[id].root == r[m].store[id].root
    ensures r[m].store[id].removed ==> r[k].store[id].removed
  {
    hide Apply;
    hide Enabled;
    if m < k {
      SameHandle(r, m, k - 1, id);
      assert Next(r[k - 1], r[k - 1 + 1]);
      var a :| Enabled(r[k - 1], a) && r[k] == Apply(r[k - 1], a);
      Grows(r[k - 1], a);
    }
  }

  /** None of a handle's objects so far ever fires again exactly if they are quiet. */
  lemma SilencedExactly(r: seq<State>, h: nat, n: nat)
    requires Run(r) && r[|r| - 1].phase.Top? && n <= |r[|r| - 1].store|
    ensures (forall r' :: Run(r') && r <= r' ==> !FiresLater(r', |r| - 1, h, n)) <==> Quiet(r[|r| - 1], h, n)
  {
    var s, m := r[|r| - 1], |r| - 1;
    if Quiet(s, h, n) {
      forall r' | Run(r') && r <= r'
        ensures !FiresLater(r', m, h, n)
      {
        assert r'[m] == s;
        QuietRun(r', m, |r'| - 1, h, n);
      }
    } else {
      var id: nat :| Older(s, h, n, id) && !(s.transit[id] == 0 && (id in s.heap ==> s.store[id].removed));
      var r' := NotQuietFires(r, h, n, id);
      assert Run(r') && r <= r' && FiresLater(r', m, h, n);
    }
  }

  /** From moment `m` on no reset of the handle is waiting to be taken up. */
  ghost predicate NoReset(r: seq<State>, m: nat, h: nat) {
    forall k, d :: m <= k < |r| ==> (h, d) !in r[k].mods
  }

  lemma NewRoot(s: State, a: Action, h: nat, id: nat)
    requires Enabled(s, a) && HandlesOk(s.store) && IsHandle(s.store, h) && (forall d :: (h, d) !in s.mods)
    requires |s.store| <= id < |Apply(s, a).store|
    ensures Apply(s, a).store[id].root != h
  {
  }

  /** Without resets a handle gets no further objects. */
  lemma {:induction false} NoNewObjects(r: seq<State>, m: nat, k: nat, h: nat, id: nat)
    requires Run(r) && m <= k < |r| && IsHandle(r[m].store, h) && NoReset(r, m, h)
    requires |r[m].store| <= id < |r[k].store|
    ensures r[k].store[id].root != h
  {
    hide Apply;
    hide Enabled;
    if m < k {
      assert Next(r[k - 1], r[k - 1 + 1]);
      var a :| Enabled(r[k - 1], a) && r[k] == Apply(r[k - 1], a);
      Grows(r[k - 1], a);
      if id < |r[k - 1].store| {
        NoNewObjects(r, m, k - 1, h, id);
      } else {
        RunInv(r, k - 1);
        SameHandle(r, m, k - 1, h);
        NewRoot(r[k - 1], a, h, id);
      }
    }
  }

  /** The callback of the handle `h` runs after moment `m`. */
  ghost predicate CallsBack(r: seq<State>, m: nat, h: nat)
    requires m < |r|
  {
    var s := r[|r| - 1];
    exists y :: |r[m].log| <= y < |s.log| && IsOf(s, h, s.log[y].id)
  }

  ghost predicate IsOf(s: State, h: nat, id: nat) {
    id < |s.store| && s.store[id].root == h
  }

  lemma CallsBackOlder(r: seq<State>, m: nat, h: nat)
    requires Run(r) && m < |r| && IsHandle(r[m].store, h) && NoReset(r, m, h)
    ensures CallsBack(r, m, h) <==> FiresLater(r, m, h, |r[m].store|)
  {
    var s, n := r[|r| - 1], |r[m].store|;
    forall id: nat | IsOf(s, h, id)
      ensures id < n
    {
      if id >= n {
        NoNewObjects(r, m, |r| - 1, h, id);
      }
    }
    assert forall id: nat :: IsOf(s, h, id) <==> Older(s, h, n, id);
  }

  /**
   A stop, taken up while no reset of its handle waits, keeps the callback from
   running ever after, resets apart, exactly if no timer of the handle was on its way
   to the heap and no un-removed copy was in the heap.
   */
  lemma StopSilences(r: seq<State>, h: nat)
    requires Run(r) && Enabled(r[|r| - 1], SelectRemove(h)) && forall d :: (h, d) !in r[|r| - 1].mods
    ensures var s := r[|r| - 1]; var r1 := r + [Apply(s, SelectRemove(h))];
            (forall r' :: Run(r') && r1 <= r' && NoReset(r', |r|, h) ==> !CallsBack(r', |r|, h))
            <==> forall id: nat :: IsOf(s, h, id) ==> s.transit[id] == 0 && (id in s.heap && IsCopy(s.store, id) ==> s.store[id].removed)
  {
    var s, s1 := r[|r| - 1], Apply(r[|r| - 1], SelectRemove(h));
    var r1, n := r + [s1], |s1.store|;
    assert Next(r[|r| - 1], r1[|r|]);
    assert Run(r1);
    StopQuiet(s, h);
    if Quiet(s1, h, n) {
      forall r' | Run(r') && r1 <= r' && NoReset(r', |r|, h)
        ensures !CallsBack(r', |r|, h)
      {
        assert r'[|r|] == s1;
        SilencedExactly(r1, h, n);
        CallsBackOlder(r', |r|, h);
      }
    } else {
      var id: nat :| Older(s1, h, n, id) && !(s1.transit[id] == 0 && (id in s1.heap ==> s1.store[id].removed));
      var r' := NotQuietFires(r1, h, n, id);
      assert r'[|r|] == s1 && NoReset(r', |r|, h);
      CallsBackOlder(r', |r|, h);
    }
  }

  lemma StopQuiet(s: State, h: nat)
    requires Enabled(s, SelectRemove(h))
    ensures var s1 := Apply(s, SelectRemove(h));
            Quiet(s1, h, |s1.store|) <==>
            forall id: nat :: IsOf(s, h, id) ==> s.transit[id] == 0 && (id in s.heap && IsCopy(s.store, id) ==> s.store[id].removed)
  {
    var s1 := Apply(s, SelectRemove(h));
    forall id: nat
      ensures Older(s1, h, |s1.store|, id) <==> IsOf(s, h, id)
      ensures IsOf(s, h, id) ==> (s1.store[id].removed <==> s.store[id].removed || !IsCopy(s.store, id))
    {
    }
  }

  // ---------- What a Reset arms ----------

  lemma MarkedStep(s: State, a: Action, c: nat)
    requires Enabled(s, a) && c < |s.store| && s.store[c].removed
    ensures forall y :: |s.log| <= y < |Apply(s, a).log| ==> !(Apply(s, a).log[y].id == c && Apply(s, a).log[y].fromHeap)
  {
    var s' := Apply(s, a);
    if a.DrainOne? {
      assert s.heap[0] == c ==> s'.log == s.log;
    } else if a.SelectAdd? || a.AddMore? {
      assert |s'.log| > |s.log| ==> !s'.log[|s.log|].fromHeap;
    } else {
      assert s'.log == s.log;
    }
  }

  /** An object marked removed never fires from the heap. */
  lemma {:induction false} MarkedNeverFromHeap(r: seq<State>, m: nat, k: nat, c: nat)
    requires Run(r) && m <= k < |r| && c < |r[m].store| && r[m].store[c].removed
    ensures r[m].log <= r[k].log
    ensures forall y :: |r[m].log| <= y < |r[k].log| ==> !(r[k].log[y].id == c && r[k].log[y].fromHeap)
  {
    hide Apply;
    hide Enabled;
    if m < k {
      MarkedNeverFromHeap(r, m, k - 1, c);
      SameHandle(r, m, k - 1, c);
      assert Next(r[k - 1], r[k - 1 + 1]);
      var a :| Enabled(r[k - 1], a) && r[k] == Apply(r[k - 1], a);
      MarkedStep(r[k - 1], a, c);
      Grows(r[k - 1], a);
    }
  }

  /** A timer in transit that is not due yet can get into the heap and fire from there. */
  lemma EnterAndFire(r: seq<State>, c: nat) returns (r': seq<State>)
    requires Run(r) && r[|r| - 1].phase.Top? && c in r[|r| - 1].transit && c < |r[|r| - 1].store|
    requires !r[|r| - 1].store[c].removed && r[|r| - 1].store[c].trigger >= r[|r| - 1].clock
    ensures Follows(r, r') && FiresFrom(r', |r| - 1, c, true)
  {
    var s := r[|r| - 1];
    r' := Extend(r, r, StartDrain);
    r' := DrainAll(r', r, c);
    var early := r'[|r'| - 1];
    assert early.store[c] == s.store[c] && s.store[c].trigger >= early.phase.now;
    var heap := SomePush(early.store, early.heap, c);
    r' := Extend(r', r, SelectAdd(c, heap));
    assert c in multiset(heap);
    r' := Extend(r', r, AddDone);
    r' := HeapFire(r', r, c);
  }

  /**
   A reset puts a new object `c` on its way. Some run fires it on its way in; some run
   fires it from the heap exactly if the handle's own object was not marked before,
   that is, neither reset nor stopped. The handle's earlier objects never fire again
   exactly if none of them is on its way and no un-removed one is in the heap.
   */
  lemma ResetArms(r: seq<State>, h: nat, d: nat)
    requires Run(r) && Enabled(r[|r| - 1], SelectReset(h, d))
    ensures var s := r[|r| - 1]; var s1 := Apply(s, SelectReset(h, d)); var r1, c := r + [s1], |s.store|;
            && (exists r' :: Run(r') && r1 <= r' && FiresFrom(r', |r|, c, false))
            && ((exists r' :: Run(r') && r1 <= r' && FiresFrom(r', |r|, c, true)) <==> Live(s.store, h))
            && ((forall r' :: Run(r') && r1 <= r' ==> !FiresLater(r', |r|, h, c)) <==> Quiet(s1, h, c))
  {
    var s, s1 := r[|r| - 1], Apply(r[|r| - 1], SelectReset(h, d));
    var r1, c := r + [s1], |s.store|;
    assert Next(r[|r| - 1], r1[|r|]);
    assert Run(r1);
    var late := LateFire(r1, c);
    assert Run(late) && r1 <= late && FiresFrom(late, |r|, c, false);
    SilencedExactly(r1, h, c);
    if Live(s.store, h) {
      var early := EnterAndFire(r1, c);
      assert Run(early) && r1 <= early && FiresFrom(early, |r|, c, true);
    } else {
      forall r' | Run(r') && r1 <= r'
        ensures !FiresFrom(r', |r|, c, true)
      {
        assert r'[|r|] == s1;
        MarkedNeverFromHeap(r', |r|, |r'| - 1, c);
      }
    }
  }
}
