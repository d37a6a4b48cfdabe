/**
 tools/workerpool/workerpool.go: a pool of workers over a bounded task channel,
 with growth under load, idle exits, reject policies, and a shutdown that may
 drain the channel.

 Every call of Submit is a process of its own, numbered by its place in `callers`;
 the number also names the task it submits. Workers, submitters and the one caller
 of ShutdownWait take one atomic action at a time, in any order: the loads of the
 state, of the worker count and of the channel length are separate actions, and a
 worker's timer may expire whenever it waits. The model starts when Start is done.
 */
module WorkerPool {
  import opened Bags

  const MIN_CHANNEL := 64

  /** The policies offered, as they nest. `Afterwards` is SubmitAfterwardsPolicy. */
  datatype Policy =
    | NewProcRuns
    | CallerRuns
    | Abort
    | Discard
    | Afterwards(retries: int, otherwise: Option<Policy>)

  datatype Config = Config(minWorker: nat, maxWorker: nat, chanSize: nat, policy: Policy) {
    predicate Valid() {
      minWorker <= maxWorker
    }

    function Cap(): (cap: nat)
      ensures cap >= MIN_CHANNEL && cap >= chanSize
    {
      if chanSize < MIN_CHANNEL then MIN_CHANNEL else chanSize
    }
  }

  datatype Status = Running | Drain | Shutdown

  /** At the head of the loop, in the select, executing, about to store the state, about to lower the count, gone. */
  datatype Worker =
    | Top
    | Selecting
    | Executing(task: nat)
    | Storing
    | Leaving
    | Exited

  /** How a call of Submit ended; `Dropped` is a nil error with the task placed nowhere. */
  datatype Outcome =
    | Queued
    | OwnGoroutine
    | ByCaller
    | Dropped
    | QueueFull
    | PoolShutdown
    | Panicked

  /** Where a call of Submit is. `tried` says that the last error of a retry loop is set. */
  datatype Caller =
    | Fresh
    | SeeQueue
    | SeeCount
    | Locking
    | Rechecking
    | Counting
    | Starting
    | Unlocking
    | Sending
    | Rejecting(policy: Policy)
    | Retrying(left: int, tried: bool, otherwise: Option<Policy>)
    | Resending(left: int, otherwise: Option<Policy>)
    | Returned(outcome: Outcome)

  /** The caller of ShutdownWait: not called, state stored, channel closed and waiting, returned. */
  datatype Closer = Open | Marked | Waiting | Done

  /** `done`, `own` and `byCaller` are histories: tasks executed by workers, by new goroutines, by their submitters. */
  datatype State = State(
    status: Status,
    queue: seq<nat>,
    closed: bool,
    workers: seq<Worker>,
    count: int,
    mux: Option<nat>,
    callers: seq<Caller>,
    closer: Closer,
    drain: bool,
    done: multiset<nat>,
    own: multiset<nat>,
    byCaller: multiset<nat>)

  datatype Action =
    | Submit(i: nat)
    | Look(w: nat)
    | Receive(w: nat)
    | SeeClosed(w: nat)
    | Expire(w: nat)
    | Finish(w: nat)
    | StoreShutdown(w: nat)
    | Leave(w: nat)
    | Mark(drain: bool)
    | Close
    | Return

  ghost predicate Init(c: Config, s: State) {
    && c.Valid() && |s.workers| == c.minWorker && (forall w :: 0 <= w < |s.workers| ==> s.workers[w] == Top)
    && (forall i :: 0 <= i < |s.callers| ==> s.callers[i] == Fresh)
    && s == State(Running, [], false, s.workers, c.minWorker, None, s.callers, Open, false,
    multiset{}, multiset{}, multiset{})
  }

  ghost predicate Enabled(c: Config, s: State, a: Action) {
    match a
    case Submit(i) =>
      i < |s.callers| && !s.callers[i].Returned? && (s.callers[i].Locking? ==> s.mux.None?)
    case Look(w) => w < |s.workers| && s.workers[w].Top?
    case Receive(w) => w < |s.workers| && s.workers[w].Selecting? && s.queue != []
    case SeeClosed(w) => w < |s.workers| && s.workers[w].Selecting? && s.queue == [] && s.closed
    case Expire(w) => w < |s.workers| && s.workers[w].Selecting?
    case Finish(w) => w < |s.workers| && s.workers[w].Executing?
    case StoreShutdown(w) => w < |s.workers| && s.workers[w].Storing?
    case Leave(w) => w < |s.workers| && s.workers[w].Leaving?
    case Mark(_) => s.closer.Open?
    case Close => s.closer.Marked?
    case Return => s.closer.Waiting? && forall w :: 0 <= w < |s.workers| ==> s.workers[w].Exited?
  }

  /** What a caller does next; only the locking, the counting, the sends and two policies touch more than the caller. */
  ghost function NextCaller(c: Config, s: State, i: nat): Caller
    requires i < |s.callers| && !s.callers[i].Returned?
  {
    match s.callers[i]
    case Fresh => if s.status.Running? then SeeQueue else Returned(PoolShutdown)
    case SeeQueue => if |s.queue| > 3 then SeeCount else Sending
    case SeeCount => if s.count < c.maxWorker then Locking else Sending
    case Locking => Rechecking
    case Rechecking => if s.count < c.maxWorker then Counting else Unlocking
    case Counting => Starting
    case Starting => Unlocking
    case Unlocking => Sending
    case Sending =>
      if s.closed then Returned(Panicked) else if |s.queue| < c.Cap() then Returned(Queued) else Rejecting(c.policy)
    case Rejecting(p) => (
      match p
      case NewProcRuns => Returned(OwnGoroutine)
      case CallerRuns => Returned(ByCaller)
      case Abort => Returned(QueueFull)
      case Discard => Returned(Dropped)
      case Afterwards(retries, otherwise) => Retrying(retries, false, otherwise))
    case Retrying(left, tried, otherwise) =>
      if left > 0 then (if s.status.Running? then Resending(left, otherwise) else Returned(PoolShutdown))
      else if otherwise.Some? then Rejecting(otherwise.value)
      else Returned(if tried then QueueFull else Dropped)
    case Resending(left, otherwise) =>
      if s.closed then Returned(Panicked)
      else if |s.queue| < c.Cap() then Returned(Queued) else Retrying(left - 1, true, otherwise)
  }

  ghost function AfterSubmit(c: Config, s: State, i: nat): State
    requires i < |s.callers| && !s.callers[i].Returned?
  {
    var pc := NextCaller(c, s, i);
    var s' := s.(callers := s.callers[i := pc]);
    match s.callers[i]
    case Locking => s'.(mux := Some(i))
    case Counting => s'.(count := s.count + 1)
    case Starting => s'.(workers := s.workers + [Top])
    case Unlocking => s'.(mux := None)
    case _ =>
      if pc == Returned(Queued) then s'.(queue := s.queue + [i])
      else if pc == Returned(OwnGoroutine) then s'.(own := s.own + multiset{i})
      else if pc == Returned(ByCaller) then s'.(byCaller := s.byCaller + multiset{i})
      else s'
  }

  ghost function Apply(c: Config, s: State, a: Action): State
    requires Enabled(c, s, a)
  {
    match a
    case Submit(i) => AfterSubmit(c, s, i)
    case Look(w) => s.(workers := s.workers[w := if s.status.Shutdown? then Leaving else Selecting])
    case Receive(w) => s.(workers := s.workers[w := Executing(s.queue[0])], queue := s.queue[1..])
    case SeeClosed(w) => s.(workers := s.workers[w := Storing])
    case Expire(w) => s.(workers := s.workers[w := if s.count > c.minWorker then Leaving else Top])
    case Finish(w) => s.(workers := s.workers[w := Top], done := s.done + multiset{s.workers[w].task})
    case StoreShutdown(w) => s.(workers := s.workers[w := Leaving], status := Shutdown)
    case Leave(w) => s.(workers := s.workers[w := Exited], count := s.count - 1)
    case Mark(drain) => s.(status := if drain then Drain else Shutdown, drain := drain, closer := Marked)
    case Close => s.(closed := true, closer := Waiting)
    case Return => s.(closer := Done)
  }

  ghost predicate Next(c: Config, s: State, s': State) {
    exists a :: Enabled(c, s, a) && s' == Apply(c, s, a)
  }

  ghost predicate Run(c: Config, r: seq<State>) {
    && |r| > 0 && Init(c, r[0])
    && forall k :: 0 <= k < |r| - 1 ==> Next(c, r[k], r[k + 1])
  }

  ghost predicate WorkerMoves(a: Action) {
    !a.Submit? && !a.Mark? && !a.Close? && !a.Return?
  }

  // ---------- Where each task is ----------

  ghost function Holds(t: nat): Worker -> nat {
    (w: Worker) => if w == Executing(t) then 1 else 0
  }

  /** In how many places of the pool task `t` is: queued, running or done. */
  ghost function InPool(s: State, t: nat): nat {
    multiset(s.queue)[t] + Weight(Holds(t), s.workers) + s.done[t]
  }

  ghost predicate Ended(s: State, t: nat, o: Outcome) {
    t < |s.callers| && s.callers[t] == Returned(o)
  }

  /** A task is where the outcome of its submission says, once, and nowhere else. */
  ghost predicate Placed(s: State, t: nat) {
    && InPool(s, t) == (if Ended(s, t, Queued) then 1 else 0)
    && s.own[t] == (if Ended(s, t, OwnGoroutine) then 1 else 0)
    && s.byCaller[t] == (if Ended(s, t, ByCaller) then 1 else 0)
  }

  lemma StartFrame(c: Config, s: State, i: nat)
    requires Enabled(c, s, Submit(i)) && s.callers[i].Starting?
    ensures var s' := AfterSubmit(c, s, i); s'.done == s.done && s'.queue == s.queue && s'.workers == s.workers + [Top]
    ensures NextCaller(c, s, i) != Returned(Queued)
  {
  }

  lemma SubmitFrame(c: Config, s: State, i: nat)
    requires Enabled(c, s, Submit(i)) && !s.callers[i].Starting?
    ensures var s' := AfterSubmit(c, s, i);
            && s'.done == s.done && s'.workers == s.workers
            && s'.queue == s.queue + if NextCaller(c, s, i) == Returned(Queued) then [i] else []
  {
  }

  lemma SubmitInPool(c: Config, s: State, i: nat, t: nat)
    requires Enabled(c, s, Submit(i))
    ensures InPool(AfterSubmit(c, s, i), t) == InPool(s, t) + if i == t && NextCaller(c, s, i) == Returned(Queued) then 1 else 0
  {
    if s.callers[i].Starting? {
      StartFrame(c, s, i);
      WeightAppend(Holds(t), s.workers, Top);
    } else {
      SubmitFrame(c, s, i);
    }
    hide AfterSubmit;
    hide NextCaller;
  }

  lemma SubmitOutside(c: Config, s: State, i: nat, t: nat)
    requires Enabled(c, s, Submit(i))
    ensures var s', pc := AfterSubmit(c, s, i), NextCaller(c, s, i);
            && s'.callers == s.callers[i := pc]
            && s'.own[t] == s.own[t] + (if i == t && pc == Returned(OwnGoroutine) then 1 else 0)
            && s'.byCaller[t] == s.byCaller[t] + (if i == t && pc == Returned(ByCaller) then 1 else 0)
  {
  }

  lemma SubmitPlaced(c: Config, s: State, i: nat, t: nat)
    requires Enabled(c, s, Submit(i)) && Placed(s, t)
    ensures Placed(AfterSubmit(c, s, i), t)
  {
    hide AfterSubmit;
    hide NextCaller;
    hide InPool;
    SubmitInPool(c, s, i, t);
    SubmitOutside(c, s, i, t);
  }

  lemma WorkerInPool(c: Config, s: State, a: Action, t: nat)
    requires WorkerMoves(a) && Enabled(c, s, a)
    ensures InPool(Apply(c, s, a), t) == InPool(s, t)
  {
    WeightUpdate(Holds(t), s.workers, a.w, Apply(c, s, a).workers[a.w]);
    if a.Receive? {
      assert s.queue == [s.queue[0]] + s.queue[1..];
    } else {
      assert Apply(c, s, a).queue == s.queue;
    }
  }

  lemma WorkerPlaced(c: Config, s: State, a: Action, t: nat)
    requires WorkerMoves(a) && Enabled(c, s, a) && Placed(s, t)
    ensures Placed(Apply(c, s, a), t)
  {
    hide InPool;
    WorkerInPool(c, s, a, t);
  }

  lemma PlacedStep(c: Config, s: State, a: Action)
    requires Enabled(c, s, a) && forall t :: Placed(s, t)
    ensures forall t :: Placed(Apply(c, s, a), t)
  {
    forall t: nat
      ensures Placed(Apply(c, s, a), t)
    {
      assert Placed(s, t);
      if WorkerMoves(a) {
        WorkerPlaced(c, s, a, t);
      } else if a.Submit? {
        SubmitPlaced(c, s, a.i, t);
      }
    }
  }

  // ---------- The worker count ----------

  ghost function Alive(): Worker -> nat {
    (w: Worker) => if w.Exited? then 0 else 1
  }

  ghost predicate InLock(p: Caller) {
    p.Rechecking? || p.Counting? || p.Starting? || p.Unlocking?
  }

  /** 1 while the holder of the lock has raised the count but not started the worker. */
  ghost function Pending(s: State): nat {
    if s.mux.Some? && s.mux.value < |s.callers| && s.callers[s.mux.value].Starting? then 1 else 0
  }

  ghost predicate LockOk(s: State) {
    && (s.mux.Some? ==> s.mux.value < |s.callers|)
    && forall i :: 0 <= i < |s.callers| ==> (InLock(s.callers[i]) <==> s.mux == Some(i))
  }

  /** The count is that of the live workers, within its bound; below it when a submitter has decided to add one. */
  ghost predicate CountOk(c: Config, s: State) {
    && s.count == Weight(Alive(), s.workers) + Pending(s)
    && s.count <= c.maxWorker
    && (s.mux.Some? && s.mux.value < |s.callers| && s.callers[s.mux.value].Counting? ==> s.count < c.maxWorker)
  }

  lemma LockMoves(c: Config, s: State, i: nat)
    requires LockOk(s) && Enabled(c, s, Submit(i))
    ensures LockOk(AfterSubmit(c, s, i))
  {
    var s' := AfterSubmit(c, s, i);
    assert s'.callers == s.callers[i := NextCaller(c, s, i)];
    assert s'.mux == if s.callers[i].Locking? then Some(i) else if s.callers[i].Unlocking? then None else s.mux;
    assert InLock(NextCaller(c, s, i)) <==> s.callers[i].Locking? || (InLock(s.callers[i]) && !s.callers[i].Unlocking?);
  }

  lemma LockStep(c: Config, s: State, a: Action)
    requires LockOk(s) && Enabled(c, s, a)
    ensures LockOk(Apply(c, s, a))
  {
    if a.Submit? {
      LockMoves(c, s, a.i);
    } else {
      assert Apply(c, s, a).callers == s.callers && Apply(c, s, a).mux == s.mux;
    }
  }

  lemma WorkerCount(c: Config, s: State, a: Action)
    requires CountOk(c, s) && WorkerMoves(a) && Enabled(c, s, a)
    ensures CountOk(c, Apply(c, s, a))
  {
    WeightUpdate(Alive(), s.workers, a.w, Apply(c, s, a).workers[a.w]);
  }

  lemma HolderCount(c: Config, s: State, i: nat)
    requires LockOk(s) && CountOk(c, s) && i < |s.callers| && InLock(s.callers[i])
    ensures CountOk(c, AfterSubmit(c, s, i))
  {
    assert s.mux == Some(i);
    if s.callers[i].Starting? {
      WeightAppend(Alive(), s.workers, Top);
    }
  }

  lemma OtherCount(c: Config, s: State, i: nat)
    requires LockOk(s) && CountOk(c, s) && Enabled(c, s, Submit(i)) && !InLock(s.callers[i])
    ensures CountOk(c, AfterSubmit(c, s, i))
  {
    var s' := AfterSubmit(c, s, i);
    assert s'.workers == s.workers && s'.count == s.count && s'.callers == s.callers[i := NextCaller(c, s, i)];
    assert s.mux != Some(i) && (s'.mux == s.mux || s'.mux == Some(i));
    assert !NextCaller(c, s, i).Starting? && !NextCaller(c, s, i).Counting?;
  }

  lemma CountStep(c: Config, s: State, a: Action)
    requires LockOk(s) && CountOk(c, s) && Enabled(c, s, a)
    ensures CountOk(c, Apply(c, s, a))
  {
    if WorkerMoves(a) {
      WorkerCount(c, s, a);
    } else if a.Submit? {
      if InLock(s.callers[a.i]) {
        HolderCount(c, s, a.i);
      } else {
        OtherCount(c, s, a.i);
      }
    }
  }

  // ---------- Policies ----------

  /** Whether a policy can end with a nil error and the task placed nowhere. */
  predicate Drops(p: Policy) {
    match p
    case Discard => true
    case Afterwards(retries, None) => retries <= 0
    case Afterwards(_, Some(q)) => Drops(q)
    case _ => false
  }

  ghost predicate PolicyOk(c: Config, p: Caller) {
    match p
    case Rejecting(q) => Drops(q) ==> Drops(c.policy)
    case Retrying(left, tried, otherwise) =>
      if otherwise.Some? then Drops(otherwise.value) ==> Drops(c.policy)
      else left <= 0 && !tried ==> Drops(c.policy)
    case Resending(left, otherwise) => otherwise.Some? && Drops(otherwise.value) ==> Drops(c.policy)
    case Returned(o) => o.Dropped? ==> Drops(c.policy)
    case _ => true
  }

  lemma PolicyStep(c: Config, s: State, a: Action)
    requires Enabled(c, s, a) && forall i :: 0 <= i < |s.callers| ==> PolicyOk(c, s.callers[i])
    ensures forall i :: 0 <= i < |Apply(c, s, a).callers| ==> PolicyOk(c, Apply(c, s, a).callers[i])
  {
    if a.Submit? {
      assert PolicyOk(c, s.callers[a.i]);
      assert PolicyOk(c, NextCaller(c, s, a.i));
    }
  }

  // ---------- Shutdown ----------

  /** What a worker's place says about the channel and the state. */
  ghost predicate WorkerOk(c: Config, s: State, w: Worker) {
    && (w.Storing? ==> s.closed && s.queue == [])
    && (w.Leaving? || w.Exited? ==> s.status.Shutdown? || c.minWorker < c.maxWorker)
    && (s.closer.Done? && c.minWorker == c.maxWorker >= 1 && s.drain ==> !w.Executing?)
  }

  ghost predicate CloserOk(c: Config, s: State) {
    && |s.workers| >= c.minWorker
    && (s.closed <==> s.closer.Waiting? || s.closer.Done?)
    && (s.closer.Open? <==> s.status.Running?)
    && (!s.closer.Open? && !s.drain ==> s.status.Shutdown?)
    && (s.drain && s.status.Shutdown? ==> s.closed && s.queue == [])
    && (s.closer.Done? && s.drain && c.minWorker == c.maxWorker >= 1 ==> s.status.Shutdown?)
  }

  ghost predicate Inv(c: Config, s: State) {
    && (forall t :: Placed(s, t)) && LockOk(s) && CountOk(c, s)
    && (forall i :: 0 <= i < |s.callers| ==> PolicyOk(c, s.callers[i]))
    && (forall w :: 0 <= w < |s.workers| ==> WorkerOk(c, s, s.workers[w]))
    && CloserOk(c, s)
  }

  lemma InitInv(c: Config, s: State)
    requires Init(c, s)
    ensures Inv(c, s)
  {
    forall t: nat
      ensures Placed(s, t)
    {
      WeightZero(Holds(t), s.workers);
    }
    AllAlive(s.workers);
  }

  lemma {:induction false} AllAlive(ws: seq<Worker>)
    requires forall w :: 0 <= w < |ws| ==> !ws[w].Exited?
    ensures Weight(Alive(), ws) == |ws|
  {
    if ws != [] {
      AllAlive(ws[1..]);
    }
  }

  /** No action takes the state back, and a closed channel only loses tasks. */
  lemma Forward(c: Config, s: State, a: Action)
    requires CloserOk(c, s) && Enabled(c, s, a)
    ensures var s' := Apply(c, s, a);
            && (s.status.Shutdown? ==> s'.status.Shutdown?)
            && (s.closed ==> s'.closed && (s.queue == [] ==> s'.queue == []))
            && |s.workers| <= |s'.workers|
  {
  }

  lemma WorkerMoved(c: Config, s: State, a: Action)
    requires CloserOk(c, s) && CountOk(c, s) && WorkerMoves(a) && Enabled(c, s, a) && WorkerOk(c, s, s.workers[a.w])
    ensures WorkerOk(c, Apply(c, s, a), Apply(c, s, a).workers[a.w])
  {
  }

  lemma WorkersStep(c: Config, s: State, a: Action)
    requires CloserOk(c, s) && CountOk(c, s) && Enabled(c, s, a)
    requires forall w :: 0 <= w < |s.workers| ==> WorkerOk(c, s, s.workers[w])
    ensures var s' := Apply(c, s, a); forall w :: 0 <= w < |s'.workers| ==> WorkerOk(c, s', s'.workers[w])
  {
    var s' := Apply(c, s, a);
    Forward(c, s, a);
    if WorkerMoves(a) {
      WorkerMoved(c, s, a);
    }
    forall w | 0 <= w < |s'.workers|
      ensures WorkerOk(c, s', s'.workers[w])
    {
      if w < |s.workers| {
        assert WorkerOk(c, s, s.workers[w]);
      }
    }
  }

  lemma CloserStep(c: Config, s: State, a: Action)
    requires CloserOk(c, s) && Enabled(c, s, a)
    requires forall w :: 0 <= w < |s.workers| ==> WorkerOk(c, s, s.workers[w])
    ensures CloserOk(c, Apply(c, s, a))
  {
    Forward(c, s, a);
    if a.StoreShutdown? {
      assert WorkerOk(c, s, s.workers[a.w]);
    } else if a.Return? && |s.workers| > 0 {
      assert WorkerOk(c, s, s.workers[0]);
    }
  }

  lemma InvStep(c: Config, s: State, a: Action)
    requires Inv(c, s) && Enabled(c, s, a)
    ensures Inv(c, Apply(c, s, a))
  {
    hide Apply;
    hide Enabled;
    PlacedStep(c, s, a);
    LockStep(c, s, a);
    CountStep(c, s, a);
    PolicyStep(c, s, a);
    WorkersStep(c, s, a);
    CloserStep(c, s, a);
  }

  lemma {:induction false} RunInv(c: Config, r: seq<State>, k: nat)
    requires Run(c, r) && k < |r|
    ensures Inv(c, r[k])
  {
    hide Apply;
    hide Enabled;
    if k == 0 {
      InitInv(c, r[0]);
    } else {
      RunInv(c, r, k - 1);
      assert Next(c, r[k - 1], r[k - 1 + 1]);
      var a :| Enabled(c, r[k - 1], a) && r[k] == Apply(c, r[k - 1], a);
      InvStep(c, r[k - 1], a);
    }
  }

  // ---------- What Submit promises ----------

  ghost function Places(s: State, t: nat): nat {
    InPool(s, t) + s.own[t] + s.byCaller[t]
  }

  ghost predicate NilError(p: Caller) {
    p.Returned? && (p.outcome.Queued? || p.outcome.OwnGoroutine? || p.outcome.ByCaller? || p.outcome.Dropped?)
  }

  /** However the policies are nested, a task goes to one place at most, and to none before Submit returns or if it fails. */
  lemma PlacedAtMostOnce(c: Config, r: seq<State>, k: nat, t: nat)
    requires Run(c, r) && k < |r|
    ensures Places(r[k], t) <= 1
    ensures Places(r[k], t) == 1 ==> t < |r[k].callers| && NilError(r[k].callers[t])
    ensures t < |r[k].callers| && NilError(r[k].callers[t]) && Places(r[k], t) == 0 ==> Drops(c.policy)
  {
    RunInv(c, r, k);
    assert Placed(r[k], t);
    assert t < |r[k].callers| ==> PolicyOk(c, r[k].callers[t]);
  }

  /** The count never exceeds its bound; it is the number of live workers, and of one being started. */
  lemma CountBounded(c: Config, r: seq<State>, k: nat)
    requires Run(c, r) && k < |r|
    ensures 0 <= r[k].count <= c.maxWorker
    ensures r[k].count == Weight(Alive(), r[k].workers) + Pending(r[k])
  {
    RunInv(c, r, k);
  }

  /** The policy that decides in the end. */
  function Innermost(p: Policy): Policy {
    if p.Afterwards? && p.otherwise.Some? then Innermost(p.otherwise.value) else p
  }

  /** A call of Submit deals with the policy given to the pool. */
  ghost predicate OnPolicy(c: Config, p: Caller) {
    match p
    case Rejecting(q) => Innermost(q) == Innermost(c.policy)
    case Retrying(left, tried, otherwise) =>
      if otherwise.Some? then Innermost(otherwise.value) == Innermost(c.policy) else Innermost(c.policy).Afterwards?
    case Resending(left, otherwise) =>
      if otherwise.Some? then Innermost(otherwise.value) == Innermost(c.policy) else Innermost(c.policy).Afterwards?
    case Returned(o) => OutcomeOk(c, o)
    case _ => true
  }

  /** Each outcome but those of the channel and of the shutdown belongs to one policy. */
  ghost predicate OutcomeOk(c: Config, o: Outcome) {
    var p := Innermost(c.policy);
    match o
    case OwnGoroutine => p == NewProcRuns
    case ByCaller => p == CallerRuns
    case QueueFull => p == Abort || p.Afterwards?
    case Dropped => p == Discard || p.Afterwards?
    case _ => true
  }

  lemma OnPolicyStep(c: Config, s: State, a: Action, i: nat)
    requires Enabled(c, s, a) && i < |s.callers| && OnPolicy(c, s.callers[i])
    ensures i < |Apply(c, s, a).callers| && OnPolicy(c, Apply(c, s, a).callers[i])
  {
    CallersMove(c, s, a);
    if a.Submit? && a.i == i {
      CallerKeepsPolicy(c, s, i);
    }
  }

  lemma CallerKeepsPolicy(c: Config, s: State, i: nat)
    requires Enabled(c, s, Submit(i)) && OnPolicy(c, s.callers[i])
    ensures OnPolicy(c, NextCaller(c, s, i))
  {
  }

  lemma {:induction false} AllOnPolicy(c: Config, r: seq<State>, k: nat, i: nat)
    requires Run(c, r) && k < |r| && i < |r[k].callers|
    ensures OnPolicy(c, r[k].callers[i])
  {
    hide Apply;
    hide Enabled;
    if k > 0 {
      assert Next(c, r[k - 1], r[k - 1 + 1]);
      var a :| Enabled(c, r[k - 1], a) && r[k] == Apply(c, r[k - 1], a);
      SameCallers(c, r[k - 1], a);
      AllOnPolicy(c, r, k - 1, i);
      OnPolicyStep(c, r[k - 1], a, i);
    }
  }

  lemma SameCallers(c: Config, s: State, a: Action)
    requires Enabled(c, s, a)
    ensures |Apply(c, s, a).callers| == |s.callers|
  {
    CallersMove(c, s, a);
  }

  lemma CallersMove(c: Config, s: State, a: Action)
    requires Enabled(c, s, a)
    ensures Apply(c, s, a).callers == if a.Submit? then s.callers[a.i := NextCaller(c, s, a.i)] else s.callers
  {
  }

  /**
   A task goes to a goroutine of its own only by NewProcRunsPolicy, and is run by its
   submitter only by CallerRunsPolicy, innermost in the pool's policy; a full queue is
   reported only by AbortPolicy or by retries with nothing to fall back on.
   */
  lemma OutcomeFitsPolicy(c: Config, r: seq<State>, k: nat, t: nat)
    requires Run(c, r) && k < |r|
    ensures r[k].own[t] > 0 ==> Innermost(c.policy) == NewProcRuns
    ensures r[k].byCaller[t] > 0 ==> Innermost(c.policy) == CallerRuns
    ensures Ended(r[k], t, QueueFull) ==> Innermost(c.policy) == Abort || Innermost(c.policy).Afterwards?
    ensures Ended(r[k], t, Dropped) ==> Innermost(c.policy) == Discard || Innermost(c.policy).Afterwards?
  {
    RunInv(c, r, k);
    assert Placed(r[k], t);
    if t < |r[k].callers| {
      AllOnPolicy(c, r, k, t);
    }
  }

  /** How a policy ends a Submit if the channel stays full and open. */
  function EndsIn(p: Policy): Outcome {
    match p
    case NewProcRuns => OwnGoroutine
    case CallerRuns => ByCaller
    case Abort => QueueFull
    case Discard => Dropped
    case Afterwards(retries, Some(q)) => EndsIn(q)
    case Afterwards(retries, None) => if retries > 0 then QueueFull else Dropped
  }

  // ---------- The channel and the growth ----------

  /** The channel holds as many tasks as asked for, but at least 64. */
  ghost predicate QueueOk(c: Config, s: State) {
    |s.queue| <= if c.chanSize < 64 then 64 else c.chanSize
  }

  lemma QueueStep(c: Config, s: State, a: Action)
    requires QueueOk(c, s) && Enabled(c, s, a)
    ensures QueueOk(c, Apply(c, s, a))
  {
  }

  lemma {:induction false} QueueBounded(c: Config, r: seq<State>, k: nat)
    requires Run(c, r) && k < |r|
    ensures QueueOk(c, r[k])
  {
    hide Apply;
    hide Enabled;
    if k > 0 {
      QueueBounded(c, r, k - 1);
      assert Next(c, r[k - 1], r[k - 1 + 1]);
      var a :| Enabled(c, r[k - 1], a) && r[k] == Apply(c, r[k - 1], a);
      QueueStep(c, r[k - 1], a);
    }
  }

  /** A send queues the task if there is room, and leaves it to the policy exactly if the open channel is full. */
  lemma SendExactly(c: Config, s: State, i: nat)
    requires Enabled(c, s, Submit(i)) && s.callers[i].Sending? && QueueOk(c, s)
    ensures var s' := Apply(c, s, Submit(i));
            && (s.closed ==> s'.callers[i] == Returned(Panicked) && s'.queue == s.queue)
            && (!s.closed && |s.queue| == (if c.chanSize < 64 then 64 else c.chanSize) ==>
                  s'.callers[i] == Rejecting(c.policy) && s'.queue == s.queue)
            && (!s.closed && |s.queue| < (if c.chanSize < 64 then 64 else c.chanSize) ==>
                  s'.callers[i] == Returned(Queued) && s'.queue == s.queue + [i])
  {
  }

  /** A call of Submit is past its look at the length of the channel, and may start a worker. */
  ghost predicate Growing(p: Caller) {
    p.SeeCount? || p.Locking? || InLock(p)
  }

  ghost predicate AtMinimum(c: Config, s: State) {
    |s.workers| == c.minWorker && forall i :: 0 <= i < |s.callers| ==> !Growing(s.callers[i])
  }

  lemma NoGrowthStep(c: Config, s: State, a: Action)
    requires AtMinimum(c, s) && |s.queue| <= 3 && Enabled(c, s, a)
    ensures AtMinimum(c, Apply(c, s, a))
  {
    CallersMove(c, s, a);
    if a.Submit? {
      assert !Growing(NextCaller(c, s, a.i));
    }
  }

  /** No worker is started while there are never more than three tasks in the channel. (With four there may be: see Grow.) */
  lemma {:induction false} NoGrowth(c: Config, r: seq<State>, k: nat)
    requires Run(c, r) && k < |r| && forall j :: 0 <= j < k ==> |r[j].queue| <= 3
    ensures AtMinimum(c, r[k])
  {
    hide Apply;
    hide Enabled;
    if k > 0 {
      NoGrowth(c, r, k - 1);
      assert Next(c, r[k - 1], r[k - 1 + 1]);
      var a :| Enabled(c, r[k - 1], a) && r[k] == Apply(c, r[k - 1], a);
      NoGrowthStep(c, r[k - 1], a);
    }
  }

  /** A worker whose timer expires leaves exactly if the count is above the minimum then; one that looks at the state, exactly in shutdown. */
  lemma LeavesExactly(c: Config, s: State, a: Action)
    requires Enabled(c, s, a) && (a.Expire? || a.Look?)
    ensures Apply(c, s, a).workers[a.w].Leaving? <==> if a.Expire? then s.count > c.minWorker else s.status.Shutdown?
    ensures a.Expire? && s.count <= c.minWorker ==> Apply(c, s, a).workers[a.w] == Top
  {
  }

  // ---------- After a shutdown has begun ----------

  /** The errors and panics of a shutdown are seen only then. */
  ghost predicate SeenOk(s: State, p: Caller) {
    && (p == Returned(PoolShutdown) ==> !s.status.Running?)
    && (p == Returned(Panicked) ==> s.closed)
  }

  lemma SeenStep(c: Config, s: State, a: Action, i: nat)
    requires CloserOk(c, s) && Enabled(c, s, a) && i < |s.callers| && SeenOk(s, s.callers[i])
    ensures i < |Apply(c, s, a).callers| && SeenOk(Apply(c, s, a), Apply(c, s, a).callers[i])
  {
    CallersMove(c, s, a);
    StaysDown(c, s, a);
    hide Apply;
  }

  lemma StaysDown(c: Config, s: State, a: Action)
    requires Enabled(c, s, a) && CloserOk(c, s)
    ensures !s.status.Running? ==> !Apply(c, s, a).status.Running?
    ensures s.closed ==> Apply(c, s, a).closed
    ensures a.Submit? ==> Apply(c, s, a).status == s.status && Apply(c, s, a).closed == s.closed
  {
  }

  /** Submit answers that the pool is shut down only if it is, and panics only on the closed channel. */
  lemma {:induction false} RefusedOnlyThen(c: Config, r: seq<State>, k: nat, i: nat)
    requires Run(c, r) && k < |r| && i < |r[k].callers|
    ensures SeenOk(r[k], r[k].callers[i])
  {
    hide Apply;
    hide Enabled;
    if k > 0 {
      assert Next(c, r[k - 1], r[k - 1 + 1]);
      var a :| Enabled(c, r[k - 1], a) && r[k] == Apply(c, r[k - 1], a);
      SameCallers(c, r[k - 1], a);
      RefusedOnlyThen(c, r, k - 1, i);
      RunInv(c, r, k - 1);
      SeenStep(c, r[k - 1], a, i);
    }
  }

  /** A Submit that has yet to look at the state, at its beginning or before a further try. */
  ghost predicate BeforeLook(p: Caller) {
    p.Fresh? || (p.Retrying? && p.left > 0)
  }

  lemma RefusedStep(c: Config, s: State, a: Action, i: nat)
    requires CloserOk(c, s) && Enabled(c, s, a) && !s.status.Running? && i < |s.callers|
    requires BeforeLook(s.callers[i]) || s.callers[i] == Returned(PoolShutdown)
    ensures var s' := Apply(c, s, a);
            && !s'.status.Running? && i < |s'.callers|
            && (s'.callers[i] == s.callers[i] || s'.callers[i] == Returned(PoolShutdown))
            && (a == Submit(i) ==> s'.callers[i] == Returned(PoolShutdown))
  {
    CallersMove(c, s, a);
    StaysDown(c, s, a);
    hide Apply;
  }

  /** A Submit that begins, or is to try again, after the shutdown has begun is refused. */
  lemma {:induction false} RefusedAfterShutdown(c: Config, r: seq<State>, m: nat, k: nat, i: nat)
    requires Run(c, r) && m <= k < |r| && !r[m].status.Running? && i < |r[m].callers| && BeforeLook(r[m].callers[i])
    ensures !r[k].status.Running? && i < |r[k].callers|
    ensures r[k].callers[i] == r[m].callers[i] || r[k].callers[i] == Returned(PoolShutdown)
    decreases k
  {
    hide Apply;
    hide Enabled;
    if m < k {
      RefusedAfterShutdown(c, r, m, k - 1, i);
      RunInv(c, r, k - 1);
      assert Next(c, r[k - 1], r[k - 1 + 1]);
      var a :| Enabled(c, r[k - 1], a) && r[k] == Apply(c, r[k - 1], a);
      RefusedStep(c, r[k - 1], a, i);
    }
  }

  lemma NoFurtherStep(c: Config, s: State, a: Action, w: nat)
    requires CloserOk(c, s) && Enabled(c, s, a) && !s.closer.Open? && !s.drain && w < |s.workers| && !s.workers[w].Selecting?
    ensures var s' := Apply(c, s, a);
            && !s'.closer.Open? && !s'.drain && w < |s'.workers| && !s'.workers[w].Selecting?
            && (s'.workers[w].Executing? ==> s'.workers[w] == s.workers[w])
  {
  }

  /**
   After Shutdown(false) a worker that is not waiting on the channel takes no task any
   more: at most it finishes the one it has.
   */
  lemma {:induction false} NoFurtherTask(c: Config, r: seq<State>, m: nat, k: nat, w: nat)
    requires Run(c, r) && m <= k < |r| && !r[m].closer.Open? && !r[m].drain
    requires w < |r[m].workers| && !r[m].workers[w].Selecting?
    ensures !r[k].closer.Open? && !r[k].drain && w < |r[k].workers| && !r[k].workers[w].Selecting?
    ensures r[k].workers[w].Executing? ==> r[k].workers[w] == r[m].workers[w]
    decreases k
  {
    hide Apply;
    hide Enabled;
    if m < k {
      NoFurtherTask(c, r, m, k - 1, w);
      RunInv(c, r, k - 1);
      assert Next(c, r[k - 1], r[k - 1 + 1]);
      var a :| Enabled(c, r[k - 1], a) && r[k] == Apply(c, r[k - 1], a);
      NoFurtherStep(c, r[k - 1], a, w);
    }
  }

  /** A shutdown begins with the state that its argument asks for. */
  lemma MarkedFor(c: Config, s: State, drain: bool)
    requires Enabled(c, s, Mark(drain))
    ensures var s' := Apply(c, s, Mark(drain)); s'.drain == drain && !s'.closer.Open?
  {
  }

  // ---------- What ShutdownWait(true) promises ----------

  /** With as many workers at least as at most, and one: every accepted task has been executed exactly once, and no other. */
  lemma Drained(c: Config, r: seq<State>, k: nat, t: nat)
    requires Run(c, r) && k < |r| && r[k].closer.Done? && r[k].drain
    requires c.minWorker == c.maxWorker >= 1
    ensures r[k].queue == []
    ensures r[k].done[t] == if Ended(r[k], t, Queued) then 1 else 0
  {
    var s := r[k];
    RunInv(c, r, k);
    assert Placed(s, t);
    forall w | 0 <= w < |s.workers|
      ensures Holds(t)(s.workers[w]) == 0
    {
      assert WorkerOk(c, s, s.workers[w]);
    }
    WeightZero(Holds(t), s.workers);
  }

  /** ShutdownWait never waits in vain: while it has not returned, some step that no timer is needed for is possible. */
  lemma ShutdownProgress(c: Config, s: State) returns (a: Action)
    requires CloserOk(c, s) && !s.closer.Open? && !s.closer.Done?
    ensures Enabled(c, s, a) && !a.Submit? && !a.Expire?
  {
    if s.closer.Marked? {
      a := Close;
    } else if w :| 0 <= w < |s.workers| && !s.workers[w].Exited? {
      a := match s.workers[w]
        case Top => Look(w)
        case Selecting => if s.queue == [] then SeeClosed(w) else Receive(w)
        case Executing(_) => Finish(w)
        case Storing => StoreShutdown(w)
        case Leaving => Leave(w)
        case Exited => Return;
    } else {
      a := Return;
    }
  }

  /** Submit never waits in vain either: a submitter can move, or the holder of the lock can. */
  lemma SubmitProgress(c: Config, s: State, i: nat) returns (a: Action)
    requires LockOk(s) && i < |s.callers| && !s.callers[i].Returned?
    ensures Enabled(c, s, a) && (a == Submit(i) || (s.mux.Some? && a == Submit(s.mux.value)))
  {
    a := Submit(if s.callers[i].Locking? && s.mux.Some? then s.mux.value else i);
    assert s.mux.Some? ==> InLock(s.callers[s.mux.value]);
  }

  ghost function Rounds(p: Policy): nat {
    match p
    case Afterwards(retries, otherwise) =>
      2 + 2 * (if retries > 0 then retries else 0) + (if otherwise.Some? then Rounds(otherwise.value) else 0)
    case _ => 1
  }

  ghost function AfterRounds(p: Option<Policy>): nat {
    if p.Some? then Rounds(p.value) else 0
  }

  /** How many of its own steps a call of Submit has left at most. */
  ghost function StepsLeft(c: Config, p: Caller): nat {
    match p
    case Fresh => 9 + Rounds(c.policy)
    case SeeQueue => 8 + Rounds(c.policy)
    case SeeCount => 7 + Rounds(c.policy)
    case Locking => 6 + Rounds(c.policy)
    case Rechecking => 5 + Rounds(c.policy)
    case Counting => 4 + Rounds(c.policy)
    case Starting => 3 + Rounds(c.policy)
    case Unlocking => 2 + Rounds(c.policy)
    case Sending => 1 + Rounds(c.policy)
    case Rejecting(q) => Rounds(q)
    case Retrying(left, _, otherwise) => 1 + 2 * (if left > 0 then left else 0) + AfterRounds(otherwise)
    case Resending(left, otherwise) => 2 * (if left > 0 then left else 1) + AfterRounds(otherwise)
    case Returned(_) => 0
  }

  lemma Shorter(c: Config, s: State, i: nat)
    requires Enabled(c, s, Submit(i))
    ensures StepsLeft(c, NextCaller(c, s, i)) < StepsLeft(c, s.callers[i])
  {
  }

  /** Submit ends, whatever the policies and whatever the others do. */
  lemma SubmitEnds(c: Config, s: State, i: nat)
    requires Enabled(c, s, Submit(i))
    ensures StepsLeft(c, AfterSubmit(c, s, i).callers[i]) < StepsLeft(c, s.callers[i])
    ensures forall j :: 0 <= j < |s.callers| && j != i ==> AfterSubmit(c, s, i).callers[j] == s.callers[j]
  {
    hide NextCaller;
    hide StepsLeft;
    Shorter(c, s, i);
    assert AfterSubmit(c, s, i).callers == s.callers[i := NextCaller(c, s, i)];
  }

  // ---------- Where the promises end ----------

  /** `a` of the `n` callers have looked at the empty queue, and `b` of these have sent since. */
  ghost function Filled(c: Config, n: nat, a: nat, b: nat): State {
    State(Running, seq(b, j => j), false, seq(c.minWorker, _ => Top), c.minWorker, None,
    seq(n, j => if j < b then Returned(Queued) else if j < a then Sending else Fresh),
    Open, false, multiset{}, multiset{}, multiset{})
  }

  lemma Extend(c: Config, r: seq<State>, a: Action) returns (r': seq<State>)
    requires Run(c, r) && Enabled(c, r[|r| - 1], a)
    ensures Run(c, r') && r'[|r'| - 1] == Apply(c, r[|r| - 1], a)
  {
    r' := r + [Apply(c, r[|r| - 1], a)];
    assert Next(c, r[|r| - 1], r'[|r|]);
  }

  /** A caller gets past its look at the queue while that is empty. */
  lemma {:induction false} LookEarly(c: Config, n: nat, a: nat) returns (r: seq<State>)
    requires c.Valid() && a <= n
    ensures Run(c, r) && r[|r| - 1] == Filled(c, n, a, 0)
  {
    if a == 0 {
      r := [Filled(c, n, 0, 0)];
    } else {
      r := LookEarly(c, n, a - 1);
      r := Extend(c, r, Submit(a - 1));
      r := Extend(c, r, Submit(a - 1));
      assert r[|r| - 1].callers == Filled(c, n, a, 0).callers;
    }
  }

  lemma {:induction false} Fill(c: Config, n: nat, a: nat, b: nat) returns (r: seq<State>)
    requires c.Valid() && b <= a <= n && b <= c.Cap()
    ensures Run(c, r) && r[|r| - 1] == Filled(c, n, a, b)
  {
    if b == 0 {
      r := LookEarly(c, n, a);
    } else {
      r := Fill(c, n, a, b - 1);
      r := Extend(c, r, Submit(b - 1));
      assert r[|r| - 1].callers == Filled(c, n, a, b).callers;
      assert r[|r| - 1].queue == Filled(c, n, a, b).queue;
    }
  }

  /** The state of a submitter `i` that found the channel full and has nothing but its policy left. */
  ghost predicate Full(c: Config, s: State, i: nat) {
    s.status.Running? && !s.closed && |s.queue| == c.Cap() && i < |s.callers|
  }

  lemma {:induction false} RetryInVain(c: Config, r: seq<State>, i: nat) returns (r': seq<State>)
    requires Run(c, r) && Full(c, r[|r| - 1], i) && r[|r| - 1].callers[i].Retrying?
    ensures Run(c, r') && Full(c, r'[|r'| - 1], i)
    ensures var p, p' := r[|r| - 1].callers[i], r'[|r'| - 1].callers[i];
            p' == Retrying(if p.left > 0 then 0 else p.left, p.tried || p.left > 0, p.otherwise)
    ensures r'[|r'| - 1] == r[|r| - 1].(callers := r'[|r'| - 1].callers)
    decreases r[|r| - 1].callers[i].left
  {
    r' := r;
    if r[|r| - 1].callers[i].left > 0 {
      r' := Extend(c, r, Submit(i));
      r' := Extend(c, r', Submit(i));
      r' := RetryInVain(c, r', i);
    }
  }

  /** While the channel stays full each policy does what it says: the task is run where it says, or nowhere. */
  lemma {:induction false} PolicyEnds(c: Config, r: seq<State>, i: nat, p: Policy) returns (r': seq<State>)
    requires Run(c, r) && Full(c, r[|r| - 1], i) && r[|r| - 1].callers[i] == Rejecting(p)
    ensures Run(c, r') && i < |r'[|r'| - 1].callers| && r'[|r'| - 1].callers[i] == Returned(EndsIn(p))
    ensures r'[|r'| - 1].own == r[|r| - 1].own + if EndsIn(p).OwnGoroutine? then multiset{i} else multiset{}
    ensures r'[|r'| - 1].byCaller == r[|r| - 1].byCaller + if EndsIn(p).ByCaller? then multiset{i} else multiset{}
    ensures r'[|r'| - 1].queue == r[|r| - 1].queue
    decreases p
  {
    if p.Afterwards? {
      r' := Extend(c, r, Submit(i));
      r' := RetryInVain(c, r', i);
      r' := GiveUp(c, r', i);
      if p.otherwise.Some? {
        r' := PolicyEnds(c, r', i, p.otherwise.value);
      }
    } else {
      r' := PolicyDecides(c, r, i, p);
    }
  }

  lemma PolicyDecides(c: Config, r: seq<State>, i: nat, p: Policy) returns (r': seq<State>)
    requires Run(c, r) && Full(c, r[|r| - 1], i) && r[|r| - 1].callers[i] == Rejecting(p) && !p.Afterwards?
    ensures Run(c, r') && i < |r'[|r'| - 1].callers| && r'[|r'| - 1].callers[i] == Returned(EndsIn(p))
    ensures r'[|r'| - 1].own == r[|r| - 1].own + if EndsIn(p).OwnGoroutine? then multiset{i} else multiset{}
    ensures r'[|r'| - 1].byCaller == r[|r| - 1].byCaller + if EndsIn(p).ByCaller? then multiset{i} else multiset{}
    ensures r'[|r'| - 1].queue == r[|r| - 1].queue
  {
    r' := Extend(c, r, Submit(i));
  }

  /** The end of a retry loop. */
  lemma GiveUp(c: Config, r: seq<State>, i: nat) returns (r': seq<State>)
    requires Run(c, r) && Full(c, r[|r| - 1], i) && r[|r| - 1].callers[i].Retrying? && r[|r| - 1].callers[i].left <= 0
    ensures Run(c, r')
    ensures var p := r[|r| - 1].callers[i];
            r'[|r'| - 1] == r[|r| - 1].(callers := r[|r| - 1].callers[i := if p.otherwise.Some? then Rejecting(p.otherwise.value)
                                                                          else Returned(if p.tried then QueueFull else Dropped)])
  {
    r' := Extend(c, r, Submit(i));
  }

  lemma {:induction false} DropsEnds(p: Policy)
    ensures Drops(p) <==> EndsIn(p) == Dropped
  {
    if p.Afterwards? && p.otherwise.Some? {
      DropsEnds(p.otherwise.value);
    }
  }

  /** Whenever the policy can drop a task, some run ends a Submit with a nil error and its task nowhere. */
  lemma DropReachable(c: Config) returns (r: seq<State>, t: nat)
    requires c.Valid() && Drops(c.policy)
    ensures Run(c, r) && t < |r[|r| - 1].callers|
    ensures NilError(r[|r| - 1].callers[t]) && Places(r[|r| - 1], t) == 0
  {
    t := c.Cap();
    r := Fill(c, t + 1, t + 1, t);
    r := Extend(c, r, Submit(t));
    r := PolicyEnds(c, r, t, c.policy);
    DropsEnds(c.policy);
    RunInv(c, r, |r| - 1);
    assert Placed(r[|r| - 1], t);
  }

  /** Some run returns from ShutdownWait(true) with an accepted task not executed. */
  ghost predicate Loses(c: Config, r: seq<State>, t: nat) {
    Run(c, r) && var s := r[|r| - 1]; s.closer.Done? && s.drain && Ended(s, t, Queued) && s.done[t] == 0
  }

  lemma ShutDown(c: Config, r: seq<State>, t: nat) returns (r': seq<State>)
    requires Run(c, r)
    requires var s := r[|r| - 1];
             && s.closer.Open? && Ended(s, t, Queued) && s.done[t] == 0
             && forall w :: 0 <= w < |s.workers| ==> s.workers[w].Exited?
    ensures Loses(c, r', t)
  {
    r' := Extend(c, r, Mark(true));
    r' := Extend(c, r', Close);
    r' := Extend(c, r', Return);
  }

  /** With four tasks queued a fifth submitter takes the lock, */
  lemma DecideToGrow(c: Config) returns (r: seq<State>)
    requires 1 <= c.minWorker < c.maxWorker
    ensures Run(c, r) && |r[|r| - 1].callers| == 5 && r[|r| - 1].callers[4] == Counting
    ensures var s := Filled(c, 5, 4, 4); r[|r| - 1] == s.(mux := Some(4), callers := s.callers[4 := Counting])
  {
    r := Fill(c, 5, 4, 4);
    r := Extend(c, r, Submit(4));
    r := Extend(c, r, Submit(4));
    r := Extend(c, r, Submit(4));
    r := Extend(c, r, Submit(4));
    r := Extend(c, r, Submit(4));
    assert r[|r| - 1].callers == Filled(c, 5, 4, 4).callers[4 := Counting];
  }

  /** and starts one worker more. */
  lemma Grow(c: Config) returns (r: seq<State>)
    requires 1 <= c.minWorker < c.maxWorker
    ensures Run(c, r) && Idling(c, r[|r| - 1], 0, 0)
  {
    r := DecideToGrow(c);
    r := Extend(c, r, Submit(4));
    r := Extend(c, r, Submit(4));
  }

  /** One worker more than the minimum; `k` have found that they may leave, and `gone` of these have left. */
  ghost predicate Idling(c: Config, s: State, k: nat, gone: nat) {
    && |s.workers| == c.minWorker + 1 && s.count == |s.workers| - gone
    && (forall w :: 0 <= w < |s.workers| ==>
          s.workers[w] == if w < gone then Exited else if w < k then Leaving else Top)
    && s.status.Running? && s.closer.Open? && Ended(s, 0, Queued) && s.done[0] == 0
  }

  lemma {:induction false} AllExpire(c: Config, k: nat) returns (r: seq<State>)
    requires 1 <= c.minWorker < c.maxWorker && k <= c.minWorker + 1
    ensures Run(c, r) && Idling(c, r[|r| - 1], k, 0)
  {
    if k == 0 {
      r := Grow(c);
    } else {
      r := AllExpire(c, k - 1);
      r := Extend(c, r, Look(k - 1));
      r := Extend(c, r, Expire(k - 1));
    }
  }

  lemma {:induction false} AllLeave(c: Config, gone: nat) returns (r: seq<State>)
    requires 1 <= c.minWorker < c.maxWorker && gone <= c.minWorker + 1
    ensures Run(c, r) && Idling(c, r[|r| - 1], c.minWorker + 1, gone)
  {
    if gone == 0 {
      r := AllExpire(c, c.minWorker + 1);
    } else {
      r := AllLeave(c, gone - 1);
      r := Extend(c, r, Leave(gone - 1));
    }
  }

  /** Draining keeps its promise exactly when the pool neither shrinks nor starts empty. */
  lemma DrainExactly(c: Config)
    requires c.Valid()
    ensures (forall r, t :: !Loses(c, r, t)) <==> c.minWorker == c.maxWorker >= 1
  {
    if c.minWorker == c.maxWorker >= 1 {
      forall r, t: nat
        ensures !Loses(c, r, t)
      {
        if Loses(c, r, t) {
          Drained(c, r, |r| - 1, t);
        }
      }
    } else if c.minWorker == 0 {
      var r := Fill(c, 1, 1, 1);
      r := ShutDown(c, r, 0);
      assert Loses(c, r, 0);
    } else {
      var r := AllLeave(c, c.minWorker + 1);
      r := ShutDown(c, r, 0);
      assert Loses(c, r, 0);
    }
  }
}
