/**
 cmd/gowlb/internal/parallel/parallel.go: `ParallelResult` runs tasks on
 `parallel` workers fed by a dispatcher, counts successes through one channel,
 collects errors through another, and gathers whatever the task function sends on
 the caller's result channel.

 Goroutines are processes that take one atomic action at a time, in any order.
 The items of the task, counter and error channels are task numbers; the real
 counter carries no data, the number only records whose success it announces.
 What the task function sends, and whether it fails, is left open.
 */
module TaskDispatch {
  import opened Bags

  const TASK_CHANNEL_CAP := 128
  const COUNTER_CAP := 64

  /** `resultCap` is the capacity of the caller's result channel; 0 is unbuffered. */
  datatype Config = Config(tasks: nat, parallel: nat, resultCap: nat)

  datatype Worker =
    | Idle
    | Running(t: int)
    | Counting(t: int)
    | Reporting(t: int)
    | Cancelling(t: int)
    | Exited

  /** The main goroutine: in its select loop, past it and about to cancel, in the final drain, in wg.Wait. */
  datatype Phase = Looping | Leaving | Draining | Waiting | Returned

  datatype Failure = NoError | OuterError | TaskError(t: int)

  /** `calls`, `failed` and `sent` are histories: tasks started, tasks that failed, values sent. */
  datatype State<V> = State(
    next: nat,
    dispatching: bool,
    taskCh: seq<int>,
    workers: seq<Worker>,
    counter: seq<int>,
    finished: seq<int>,
    errCh: seq<int>,
    resultCh: seq<V>,
    result: seq<V>,
    main: Phase,
    err: Failure,
    cancelled: bool,
    outer: bool,
    calls: multiset<int>,
    failed: multiset<int>,
    sent: multiset<V>)

  datatype Action<V> =
    | Take(w: nat)
    | WorkerStop(w: nat)
    | Emit(w: nat, v: V)
    | Handoff(w: nat, v: V)
    | Succeed(w: nat)
    | Fail(w: nat)
    | Count(w: nat)
    | Report(w: nat)
    | Cancel(w: nat)
    | Dispatch
    | DispatchEnd
    | DispatchStop
    | MainCount
    | MainErr
    | MainOuter
    | MainResult
    | MainCancel
    | DrainResult
    | DrainEnd
    | Return
    | OuterCancel

  ghost predicate Init<V>(c: Config, s: State<V>) {
    && c.tasks >= 1 && c.parallel >= 1
    && |s.workers| == c.parallel && (forall i :: 0 <= i < |s.workers| ==> s.workers[i] == Idle)
    && s == State(0, true, [], s.workers, [], [], [], [], [], Looping, NoError, false, false,
    multiset{}, multiset{}, multiset{})
  }

  ghost predicate Enabled<V>(c: Config, s: State<V>, a: Action<V>) {
    match a
    case Take(w) => w < |s.workers| && s.workers[w].Idle? && s.taskCh != []
    case WorkerStop(w) => w < |s.workers| && s.workers[w].Idle? && s.cancelled
    case Emit(w, v) => w < |s.workers| && s.workers[w].Running? && |s.resultCh| < c.resultCap
    case Handoff(w, v) =>
      w < |s.workers| && s.workers[w].Running? && c.resultCap == 0 && (s.main.Looping? || s.main.Draining?)
    case Succeed(w) => w < |s.workers| && s.workers[w].Running?
    case Fail(w) => w < |s.workers| && s.workers[w].Running?
    case Count(w) => w < |s.workers| && s.workers[w].Counting? && |s.counter| < COUNTER_CAP
    case Report(w) => w < |s.workers| && s.workers[w].Reporting?
    case Cancel(w) => w < |s.workers| && s.workers[w].Cancelling?
    case Dispatch => s.dispatching && s.next < c.tasks && |s.taskCh| < TASK_CHANNEL_CAP
    case DispatchEnd => s.dispatching && s.next >= c.tasks
    case DispatchStop => s.dispatching && s.next < c.tasks && s.cancelled
    case MainCount => s.main.Looping? && s.counter != []
    case MainErr => s.main.Looping? && s.errCh != []
    case MainOuter => s.main.Looping? && s.outer
    case MainResult => s.main.Looping? && s.resultCh != []
    case MainCancel => s.main.Leaving?
    case DrainResult => s.main.Draining? && s.resultCh != []
    case DrainEnd => s.main.Draining? && s.resultCh == []
    case Return =>
      s.main.Waiting? && !s.dispatching && forall i :: 0 <= i < |s.workers| ==> s.workers[i].Exited?
    case OuterCancel => !s.outer
  }

  ghost function Apply<V>(c: Config, s: State<V>, a: Action<V>): State<V>
    requires Enabled(c, s, a)
  {
    match a
    case Take(w) =>
      s.(taskCh := s.taskCh[1..], workers := s.workers[w := Running(s.taskCh[0])],
      calls := s.calls + multiset{s.taskCh[0]})
    case WorkerStop(w) => s.(workers := s.workers[w := Exited])
    case Emit(w, v) => s.(resultCh := s.resultCh + [v], sent := s.sent + multiset{v})
    case Handoff(w, v) => s.(result := s.result + [v], sent := s.sent + multiset{v})
    case Succeed(w) => s.(workers := s.workers[w := Counting(s.workers[w].t)])
    case Fail(w) =>
      s.(workers := s.workers[w := Reporting(s.workers[w].t)], failed := s.failed + multiset{s.workers[w].t})
    case Count(w) => s.(workers := s.workers[w := Idle], counter := s.counter + [s.workers[w].t])
    case Report(w) =>
      s.(workers := s.workers[w := Cancelling(s.workers[w].t)],
      errCh := if s.errCh == [] then [s.workers[w].t] else s.errCh)
    case Cancel(w) => s.(workers := s.workers[w := Exited], cancelled := true)
    case Dispatch => s.(next := s.next + 1, taskCh := s.taskCh + [s.next])
    case DispatchEnd => s.(dispatching := false)
    case DispatchStop => s.(dispatching := false)
    case MainCount =>
      s.(counter := s.counter[1..], finished := s.finished + [s.counter[0]],
      main := if |s.finished| + 1 == c.tasks then Leaving else Looping)
    case MainErr => s.(errCh := s.errCh[1..], err := TaskError(s.errCh[0]), main := Leaving)
    case MainOuter => s.(err := OuterError, main := Leaving)
    case MainResult => s.(resultCh := s.resultCh[1..], result := s.result + [s.resultCh[0]])
    case MainCancel => s.(cancelled := true, main := Draining)
    case DrainResult => s.(resultCh := s.resultCh[1..], result := s.result + [s.resultCh[0]])
    case DrainEnd => s.(main := Waiting)
    case Return => s.(main := Returned)
    case OuterCancel => s.(outer := true, cancelled := true)
  }

  ghost predicate Next<V(!new)>(c: Config, s: State<V>, s': State<V>) {
    exists a :: Enabled(c, s, a) && s' == Apply(c, s, a)
  }

  ghost predicate Run<V(!new)>(c: Config, r: seq<State<V>>) {
    && |r| > 0 && Init(c, r[0])
    && forall i :: 0 <= i < |r| - 1 ==> Next(c, r[i], r[i + 1])
  }

  // ---------- Conservation of tasks and of values ----------

  /** 1 for a worker that runs task `t`, or has run it and not yet announced it. */
  ghost function Holds(t: int): Worker -> nat {
    (w: Worker) => if (w.Running? || w.Counting?) && w.t == t then 1 else 0
  }

  /** In how many places task `t` is after its start. */
  ghost function Started<V>(s: State<V>, t: int): nat {
    Weight(Holds(t), s.workers) + multiset(s.counter)[t] + multiset(s.finished)[t] + s.failed[t]
  }

  ghost function Unstarted<V>(c: Config, s: State<V>, t: int): nat {
    (if s.next <= t < c.tasks then 1 else 0) + multiset(s.taskCh)[t]
  }

  ghost predicate TaskConserved<V>(c: Config, s: State<V>, t: int) {
    && Unstarted(c, s, t) + s.calls[t] == (if 0 <= t < c.tasks then 1 else 0)
    && s.calls[t] == Started(s, t)
  }

  ghost predicate ValueConserved<V>(s: State<V>, v: V) {
    s.sent[v] == multiset(s.resultCh)[v] + multiset(s.result)[v]
  }

  ghost predicate WorkerOk<V>(s: State<V>, w: Worker) {
    match w
    case Reporting(t) => t in s.failed
    case Cancelling(t) => t in s.failed
    case Exited => s.cancelled
    case _ => true
  }

  ghost predicate PhaseOk<V>(c: Config, s: State<V>) {
    && s.next <= c.tasks && |s.finished| <= c.tasks
    && (s.main.Looping? ==> |s.finished| < c.tasks && s.err == NoError)
    && (!s.main.Looping? && s.err == NoError ==> |s.finished| == c.tasks)
    && (s.main.Draining? || s.main.Waiting? || s.main.Returned? ==> s.cancelled)
    && ((s.main.Waiting? || s.main.Returned?) && s.err == NoError ==> s.resultCh == [])
    && (!s.dispatching ==> s.next == c.tasks || s.cancelled)
  }

  ghost predicate ErrorsOk<V>(s: State<V>) {
    && (forall t :: t in s.errCh ==> t in s.failed)
    && (s.err.TaskError? ==> s.err.t in s.failed)
    && (s.err == OuterError ==> s.outer)
  }

  /** While the main loop runs, a failure is on its way to it, and only that or the caller cancels. */
  ghost predicate Marked<V>(s: State<V>) {
    s.main.Looping? ==>
      && (s.failed != multiset{} ==> s.errCh != [] || exists i :: 0 <= i < |s.workers| && s.workers[i].Reporting?)
      && (s.cancelled ==> s.outer || s.errCh != [])
      && (forall i :: 0 <= i < |s.workers| && s.workers[i].Cancelling? ==> s.errCh != [])
  }

  ghost predicate Inv<V(!new)>(c: Config, s: State<V>) {
    && c.tasks >= 1 && |s.workers| == c.parallel >= 1
    && (forall t :: TaskConserved(c, s, t))
    && (forall v :: ValueConserved(s, v))
    && (forall i :: 0 <= i < |s.workers| ==> WorkerOk(s, s.workers[i]))
    && PhaseOk(c, s) && ErrorsOk(s) && Marked(s)
  }

  lemma InitInv<V(!new)>(c: Config, s: State<V>)
    requires Init(c, s)
    ensures Inv(c, s)
  {
    forall t
      ensures TaskConserved(c, s, t)
    {
      WeightZero(Holds(t), s.workers);
    }
  }

  ghost predicate WorkerMoves<V>(a: Action<V>) {
    a.Take? || a.WorkerStop? || a.Succeed? || a.Fail? || a.Count? || a.Report? || a.Cancel?
  }

  lemma TakeStarted<V(!new)>(c: Config, s: State<V>, w: nat, t: int)
    requires Enabled(c, s, Take(w))
    ensures var s' := Apply(c, s, Take(w)); s'.calls[t] + Started(s, t) == Started(s', t) + s.calls[t]
  {
    WeightUpdate(Holds(t), s.workers, w, Apply(c, s, Take(w)).workers[w]);
  }

  lemma WorkerStarted<V(!new)>(c: Config, s: State<V>, a: Action<V>, t: int)
    requires Enabled(c, s, a) && WorkerMoves(a)
    ensures Apply(c, s, a).calls[t] + Started(s, t) == Started(Apply(c, s, a), t) + s.calls[t]
  {
    if a.Take? {
      TakeStarted(c, s, a.w, t);
    } else {
      WeightUpdate(Holds(t), s.workers, a.w, Apply(c, s, a).workers[a.w]);
    }
  }

  lemma StartedStep<V(!new)>(c: Config, s: State<V>, a: Action<V>, t: int)
    requires Enabled(c, s, a)
    ensures Apply(c, s, a).calls[t] + Started(s, t) == Started(Apply(c, s, a), t) + s.calls[t]
  {
    if WorkerMoves(a) {
      WorkerStarted(c, s, a, t);
    } else if a.MainCount? {
      assert s.counter == [s.counter[0]] + s.counter[1..];
    } else {
      assert Apply(c, s, a).workers == s.workers;
    }
  }

  lemma UnstartedStep<V(!new)>(c: Config, s: State<V>, a: Action<V>, t: int)
    requires Enabled(c, s, a)
    ensures Unstarted(c, Apply(c, s, a), t) + Apply(c, s, a).calls[t] == Unstarted(c, s, t) + s.calls[t]
  {
    if a.Take? {
      assert s.taskCh == [s.taskCh[0]] + s.taskCh[1..];
    } else if !a.Dispatch? {
      assert Apply(c, s, a).taskCh == s.taskCh && Apply(c, s, a).calls == s.calls;
    }
  }

  lemma ValueMoves<V(!new)>(c: Config, s: State<V>, a: Action<V>, v: V)
    requires Enabled(c, s, a) && (a.Emit? || a.Handoff? || a.MainResult? || a.DrainResult?) && ValueConserved(s, v)
    ensures ValueConserved(Apply(c, s, a), v)
  {
    if !(a.Emit? || a.Handoff?) {
      assert s.resultCh == [s.resultCh[0]] + s.resultCh[1..];
    }
  }

  lemma ValueStep<V(!new)>(c: Config, s: State<V>, a: Action<V>, v: V)
    requires Enabled(c, s, a) && ValueConserved(s, v)
    ensures ValueConserved(Apply(c, s, a), v)
  {
    if a.Emit? || a.Handoff? || a.MainResult? || a.DrainResult? {
      ValueMoves(c, s, a, v);
    } else {
      assert Apply(c, s, a).resultCh == s.resultCh && Apply(c, s, a).result == s.result && Apply(c, s, a).sent == s.sent;
    }
  }

  /** Once as many tasks are finished as there are, no task is anywhere else. */
  lemma AllFinished<V(!new)>(c: Config, s: State<V>, t: int)
    requires (forall u :: TaskConserved(c, s, u)) && |s.finished| == c.tasks
    ensures multiset(s.finished) == Interval(0, c.tasks)
    ensures Unstarted(c, s, t) == 0 && Weight(Holds(t), s.workers) == multiset(s.counter)[t] == s.failed[t] == 0
    ensures forall i :: 0 <= i < |s.workers| ==> !(s.workers[i].Running? || s.workers[i].Counting?)
  {
    forall u
      ensures multiset(s.finished)[u] <= if 0 <= u < c.tasks then 1 else 0
    {
      assert TaskConserved(c, s, u);
    }
    WithinInterval(multiset(s.finished), c.tasks);
    IntervalCount(0, c.tasks, t);
    assert TaskConserved(c, s, t);
    forall i | 0 <= i < |s.workers|
      ensures !(s.workers[i].Running? || s.workers[i].Counting?)
    {
      if s.workers[i].Running? || s.workers[i].Counting? {
        var u := s.workers[i].t;
        assert TaskConserved(c, s, u);
        IntervalCount(0, c.tasks, u);
        WeightContains(Holds(u), s.workers, i);
      }
    }
  }

  lemma WorkerPhase<V(!new)>(c: Config, s: State<V>, a: Action<V>)
    requires PhaseOk(c, s) && Enabled(c, s, a) && WorkerMoves(a)
    ensures PhaseOk(c, Apply(c, s, a))
  {
  }

  lemma PhaseStep<V(!new)>(c: Config, s: State<V>, a: Action<V>)
    requires PhaseOk(c, s) && Enabled(c, s, a)
    requires a.Emit? ==> |s.finished| < c.tasks
    ensures PhaseOk(c, Apply(c, s, a))
  {
    if WorkerMoves(a) {
      WorkerPhase(c, s, a);
    } else {
      assert Apply(c, s, a).cancelled == (s.cancelled || a.MainCancel? || a.OuterCancel?);
    }
  }

  lemma WorkersStep<V(!new)>(c: Config, s: State<V>, a: Action<V>)
    requires Enabled(c, s, a) && forall i :: 0 <= i < |s.workers| ==> WorkerOk(s, s.workers[i])
    ensures forall i :: 0 <= i < |Apply(c, s, a).workers| ==> WorkerOk(Apply(c, s, a), Apply(c, s, a).workers[i])
  {
    var s' := Apply(c, s, a);
    forall i | 0 <= i < |s'.workers|
      ensures WorkerOk(s', s'.workers[i])
    {
      assert WorkerOk(s, s.workers[i]);
    }
  }

  lemma WorkerErrors<V(!new)>(c: Config, s: State<V>, a: Action<V>)
    requires Enabled(c, s, a) && WorkerMoves(a) && ErrorsOk(s) && WorkerOk(s, s.workers[a.w])
    ensures ErrorsOk(Apply(c, s, a))
  {
  }

  lemma ErrorsStep<V(!new)>(c: Config, s: State<V>, a: Action<V>)
    requires Enabled(c, s, a) && ErrorsOk(s) && forall i :: 0 <= i < |s.workers| ==> WorkerOk(s, s.workers[i])
    ensures ErrorsOk(Apply(c, s, a))
  {
    if WorkerMoves(a) {
      assert WorkerOk(s, s.workers[a.w]);
      WorkerErrors(c, s, a);
    } else {
      assert Apply(c, s, a).failed == s.failed;
    }
  }

  lemma WorkerMarked<V(!new)>(c: Config, s: State<V>, a: Action<V>)
    requires Enabled(c, s, a) && Marked(s) && WorkerMoves(a)
    ensures Marked(Apply(c, s, a))
  {
    var s' := Apply(c, s, a);
    if s'.main.Looping? && s'.failed != multiset{} && s'.errCh == [] {
      var i :| 0 <= i < |s.workers| && (s.workers[i].Reporting? || (a.Fail? && i == a.w));
      assert s'.workers[i].Reporting?;
    }
  }

  lemma MarkedStep<V(!new)>(c: Config, s: State<V>, a: Action<V>)
    requires Enabled(c, s, a) && Marked(s)
    ensures Marked(Apply(c, s, a))
  {
    if WorkerMoves(a) {
      WorkerMarked(c, s, a);
    } else {
      assert Apply(c, s, a).workers == s.workers && Apply(c, s, a).failed == s.failed;
    }
  }

  lemma ConservedStep<V(!new)>(c: Config, s: State<V>, a: Action<V>)
    requires Inv(c, s) && Enabled(c, s, a)
    ensures forall t :: TaskConserved(c, Apply(c, s, a), t)
    ensures forall v :: ValueConserved(Apply(c, s, a), v)
  {
    hide Apply;
    var s' := Apply(c, s, a);
    forall t
      ensures TaskConserved(c, s', t)
    {
      assert TaskConserved(c, s, t);
      StartedStep(c, s, a, t);
      UnstartedStep(c, s, a, t);
    }
    forall v
      ensures ValueConserved(s', v)
    {
      assert ValueConserved(s, v);
      ValueStep(c, s, a, v);
    }
  }

  lemma InvStep<V(!new)>(c: Config, s: State<V>, a: Action<V>)
    requires Inv(c, s) && Enabled(c, s, a)
    ensures Inv(c, Apply(c, s, a))
  {
    ConservedStep(c, s, a);
    if a.Emit? && |s.finished| == c.tasks {
      AllFinished(c, s, 0);
    }
    PhaseStep(c, s, a);
    WorkersStep(c, s, a);
    ErrorsStep(c, s, a);
    MarkedStep(c, s, a);
  }

  lemma {:induction false} RunInv<V(!new)>(c: Config, r: seq<State<V>>, i: nat)
    requires Run(c, r) && i < |r|
    ensures Inv(c, r[i])
  {
    hide Apply;
    hide Enabled;
    if i == 0 {
      InitInv(c, r[0]);
    } else {
      RunInv(c, r, i - 1);
      assert Next(c, r[i - 1], r[i - 1 + 1]);
      var a :| Enabled(c, r[i - 1], a) && r[i] == Apply(c, r[i - 1], a);
      InvStep(c, r[i - 1], a);
    }
  }

  // ---------- What is returned ----------

  /**
   A nil error means that every task ran exactly once and succeeded, and that what
   is returned is exactly what the task function sent.
   */
  lemma NilMeansAll<V(!new)>(c: Config, r: seq<State<V>>)
    requires Run(c, r) && var s := r[|r| - 1]; s.main == Returned && s.err == NoError
    ensures var s := r[|r| - 1];
            && s.calls == Interval(0, c.tasks) == multiset(s.finished)
            && s.failed == multiset{}
            && multiset(s.result) == s.sent
  {
    var s := r[|r| - 1];
    RunInv(c, r, |r| - 1);
    forall t
      ensures s.calls[t] == (if 0 <= t < c.tasks then 1 else 0) && s.failed[t] == 0
    {
      AllFinished(c, s, t);
      assert TaskConserved(c, s, t);
    }
    AllFinished(c, s, 0);
    IsInterval(s.calls, c.tasks);
    forall v
      ensures multiset(s.result)[v] == s.sent[v]
    {
      assert ValueConserved(s, v);
    }
  }

  /** No task is started twice, and a returned error is the caller's cancellation or a task's own. */
  lemma ErrorIsReal<V(!new)>(c: Config, r: seq<State<V>>, i: nat, t: int)
    requires Run(c, r) && i < |r|
    ensures r[i].calls[t] <= if 0 <= t < c.tasks then 1 else 0
    ensures r[i].err.TaskError? ==> r[i].err.t in r[i].failed && r[i].err.t in r[i].calls
    ensures r[i].err == OuterError ==> r[i].outer
  {
    RunInv(c, r, i);
    assert TaskConserved(c, r[i], t);
    if r[i].err.TaskError? {
      assert TaskConserved(c, r[i], r[i].err.t);
    }
  }

  // ---------- The same, told from the actions ----------

  /** A run with the actions that it is made of. */
  ghost predicate Trace<V(!new)>(c: Config, r: seq<State<V>>, acts: seq<Action<V>>)
    decreases |acts|
  {
    && |r| == |acts| + 1
    && if acts == [] then Init(c, r[0]) else
         var n := |acts| - 1;
         Trace(c, r[..n + 1], acts[..n]) && Enabled(c, r[n], acts[n]) && r[n + 1] == Apply(c, r[n], acts[n])
  }

  lemma {:induction false} TraceRun<V(!new)>(c: Config, r: seq<State<V>>, acts: seq<Action<V>>)
    requires Trace(c, r, acts)
    ensures Run(c, r)
    decreases |acts|
  {
    hide Apply;
    hide Enabled;
    if acts != [] {
      var n := |acts| - 1;
      TraceRun(c, r[..n + 1], acts[..n]);
      forall k | 0 <= k < |r| - 1
        ensures Next(c, r[k], r[k + 1])
      {
        if k < n {
          assert Next(c, r[..n + 1][k], r[..n + 1][k + 1]);
        }
      }
    }
  }

  /** Every run has such actions. */
  lemma {:induction false} TraceOf<V(!new)>(c: Config, r: seq<State<V>>) returns (acts: seq<Action<V>>)
    requires Run(c, r)
    ensures Trace(c, r, acts)
  {
    hide Apply;
    hide Enabled;
    if |r| == 1 {
      acts := [];
    } else {
      var n := |r| - 2;
      assert Run(c, r[..n + 1]);
      var before := TraceOf(c, r[..n + 1]);
      assert Next(c, r[n], r[n + 1]);
      var a :| Enabled(c, r[n], a) && r[n + 1] == Apply(c, r[n], a);
      acts := before + [a];
      assert acts[..n] == before;
    }
  }

  /** The values that the task function has sent. */
  ghost function SentBy<V(!new)>(acts: seq<Action<V>>): multiset<V> {
    if acts == [] then multiset{} else
      var n := |acts| - 1;
      SentBy(acts[..n]) + if acts[n].Emit? || acts[n].Handoff? then multiset{acts[n].v} else multiset{}
  }

  /** The tasks that workers have taken from the channel, to run them. */
  ghost function TakenBy<V(!new)>(r: seq<State<V>>, acts: seq<Action<V>>): multiset<int>
    requires |r| == |acts| + 1
    decreases |acts|
  {
    if acts == [] then multiset{} else
      var n := |acts| - 1;
      TakenBy(r[..n + 1], acts[..n]) + if acts[n].Take? && r[n].taskCh != [] then multiset{r[n].taskCh[0]} else multiset{}
  }

  ghost predicate SomeFailed<V>(acts: seq<Action<V>>) {
    exists k :: 0 <= k < |acts| && acts[k].Fail?
  }

  lemma HistoryStep<V(!new)>(c: Config, s: State<V>, a: Action<V>)
    requires Enabled(c, s, a)
    ensures var s' := Apply(c, s, a);
            && s'.sent == s.sent + (if a.Emit? || a.Handoff? then multiset{a.v} else multiset{})
            && s'.calls == s.calls + (if a.Take? && s.taskCh != [] then multiset{s.taskCh[0]} else multiset{})
            && (a.Fail? ==> s'.failed != multiset{}) && (s.failed != multiset{} ==> s'.failed != multiset{})
  {
    var s' := Apply(c, s, a);
    if a.Fail? {
      assert s.workers[a.w].t in s'.failed;
    } else {
      assert s'.failed == s.failed;
    }
  }

  lemma {:induction false} Histories<V(!new)>(c: Config, r: seq<State<V>>, acts: seq<Action<V>>)
    requires Trace(c, r, acts)
    ensures r[|acts|].sent == SentBy(acts) && r[|acts|].calls == TakenBy(r, acts)
    ensures SomeFailed(acts) ==> r[|acts|].failed != multiset{}
    decreases |acts|
  {
    hide Apply;
    hide Enabled;
    if acts != [] {
      var n := |acts| - 1;
      Histories(c, r[..n + 1], acts[..n]);
      HistoryStep(c, r[n], acts[n]);
      if SomeFailed(acts) && !acts[n].Fail? {
        var k :| 0 <= k < |acts| && acts[k].Fail?;
        assert acts[..n][k].Fail?;
      }
    }
  }

  /**
   A nil error means that no task function failed, that each task was taken and run
   exactly once, and that the results returned are exactly the values sent.
   */
  lemma NilMeansNoFailure<V(!new)>(c: Config, r: seq<State<V>>, acts: seq<Action<V>>)
    requires Trace(c, r, acts) && r[|acts|].main == Returned && r[|acts|].err == NoError
    ensures !SomeFailed(acts) && TakenBy(r, acts) == Interval(0, c.tasks) && multiset(r[|acts|].result) == SentBy(acts)
  {
    TraceRun(c, r, acts);
    Histories(c, r, acts);
    NilMeansAll(c, r);
  }

  // ---------- Progress ----------

  /**
   The main loop never blocks for good, and once it has ended without error every
   goroutine can exit. (The task function may also send; that is never needed.)
   */
  lemma Progress<V(!new)>(c: Config, s: State<V>) returns (a: Action<V>)
    requires Inv(c, s) && s.main != Returned && (s.main.Looping? || s.err == NoError)
    ensures Enabled(c, s, a) && !(a.OuterCancel? || a.Emit? || a.Handoff?)
  {
    if s.main.Leaving? {
      a := MainCancel;
    } else if s.main.Draining? {
      a := if s.resultCh == [] then DrainEnd else DrainResult;
    } else if s.main.Looping? {
      a := LoopProgress(c, s);
    } else {
      a := WaitProgress(c, s);
    }
  }

  lemma WaitProgress<V(!new)>(c: Config, s: State<V>) returns (a: Action<V>)
    requires Inv(c, s) && s.main.Waiting? && s.err == NoError
    ensures Enabled(c, s, a) && !(a.OuterCancel? || a.Emit? || a.Handoff?)
  {
    AllFinished(c, s, s.next);
    if i :| 0 <= i < |s.workers| && !s.workers[i].Exited? {
      a := if s.workers[i].Idle? then WorkerStop(i) else if s.workers[i].Reporting? then Report(i) else Cancel(i);
    } else {
      a := if s.dispatching then DispatchEnd else Return;
    }
  }

  lemma LoopProgress<V(!new)>(c: Config, s: State<V>) returns (a: Action<V>)
    requires Inv(c, s) && s.main.Looping?
    ensures Enabled(c, s, a) && !(a.OuterCancel? || a.Emit? || a.Handoff?)
  {
    if s.counter != [] {
      a := MainCount;
    } else if s.errCh != [] {
      a := MainErr;
    } else if s.outer {
      a := MainOuter;
    } else if i :| 0 <= i < |s.workers| && (s.workers[i].Running? || s.workers[i].Counting? || s.workers[i].Reporting?) {
      a := if s.workers[i].Running? then Succeed(i) else if s.workers[i].Counting? then Count(i) else Report(i);
    } else {
      assert forall i :: 0 <= i < |s.workers| ==> WorkerOk(s, s.workers[i]) && s.workers[i].Idle?;
      if s.taskCh != [] {
        a := Take(0);
      } else if s.next < c.tasks {
        a := Dispatch;
      } else {
        a := Dispatch;
        NothingLeft(c, s);
        assert false;
      }
    }
  }

  /** With idle workers and nothing dispatched or announced, every task is finished. */
  lemma NothingLeft<V(!new)>(c: Config, s: State<V>)
    requires Inv(c, s) && s.counter == [] && s.taskCh == [] && s.next == c.tasks && s.failed == multiset{}
    requires forall i :: 0 <= i < |s.workers| ==> s.workers[i].Idle?
    ensures |s.finished| == c.tasks
  {
    forall t
      ensures multiset(s.finished)[t] == if 0 <= t < c.tasks then 1 else 0
    {
      WeightZero(Holds(t), s.workers);
      assert TaskConserved(c, s, t);
    }
    IsInterval(multiset(s.finished), c.tasks);
  }

  ghost function WorkerWeight(): Worker -> nat {
    (w: Worker) =>
      match w
      case Idle => 1
      case Running(_) => 4
      case Counting(_) => 3
      case Reporting(_) => 3
      case Cancelling(_) => 2
      case Exited => 0
  }

  ghost function PhaseWeight(p: Phase): nat {
    match p
    case Looping => 4
    case Leaving => 3
    case Draining => 2
    case Waiting => 1
    case Returned => 0
  }

  ghost function Measure<V>(c: Config, s: State<V>): nat {
    (if s.next <= c.tasks then 5 * (c.tasks - s.next) else 0) + 4 * |s.taskCh| + Weight(WorkerWeight(), s.workers)
    + |s.counter| + |s.resultCh| + PhaseWeight(s.main) + (if s.dispatching then 1 else 0) + (if s.outer then 0 else 1)
  }

  lemma WorkerLighter<V(!new)>(c: Config, s: State<V>, a: Action<V>)
    requires Enabled(c, s, a) && WorkerMoves(a)
    ensures Measure(c, Apply(c, s, a)) < Measure(c, s)
  {
    var s' := Apply(c, s, a);
    assert s'.main == s.main && s'.resultCh == s.resultCh && s'.next == s.next;
    WeightUpdate(WorkerWeight(), s.workers, a.w, s'.workers[a.w]);
  }

  /** Every action but a send brings the end nearer; a send undoes at most one step. */
  lemma MeasureDecreases<V(!new)>(c: Config, s: State<V>, a: Action<V>)
    requires s.next <= c.tasks && Enabled(c, s, a)
    ensures Measure(c, Apply(c, s, a)) + 2 * |s.sent| < Measure(c, s) + 2 * |Apply(c, s, a).sent|
    ensures !(a.Emit? || a.Handoff?) ==> Measure(c, Apply(c, s, a)) < Measure(c, s)
  {
    if WorkerMoves(a) {
      WorkerLighter(c, s, a);
    } else {
      assert Apply(c, s, a).workers == s.workers;
    }
  }

  /** Hence a run is no longer than a bound known at its start plus two steps for each value sent. */
  lemma {:induction false} RunsEnd<V(!new)>(c: Config, r: seq<State<V>>, i: nat)
    requires Run(c, r) && i < |r|
    ensures Measure(c, r[i]) + i <= Measure(c, r[0]) + 2 * |r[i].sent|
  {
    if i > 0 {
      RunsEnd(c, r, i - 1);
      RunInv(c, r, i - 1);
      assert Next(c, r[i - 1], r[i - 1 + 1]);
      var a :| Enabled(c, r[i - 1], a) && r[i] == Apply(c, r[i - 1], a);
      MeasureDecreases(c, r[i - 1], a);
    }
  }
}
