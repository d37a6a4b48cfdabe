/**
 tools/parallel/parallel.go: a parallel loop over `pieces` numbered pieces of
 work, handed out in chunks through a closed channel.

 `Parallelize` and `ParallelizeResult` share their dispatch; the flag `collects`
 selects the second, which also runs a collector goroutine behind a bounded
 result channel. Goroutines are processes that take one atomic action at a time,
 in any order. A channel item stands for the piece it came from, so that the
 value (or error) it carries is a function of the item. Each piece is called at
 most once, hence the outcome of its call can be fixed in advance in the
 configuration without loss of generality.
 */
module ParallelFor {
  import opened Bags

  const RESULT_CHANNEL_LIMIT := 1024

  /** `fails[p]` says whether doWorkPiece(p) returns an error. */
  datatype Config = Config(fails: seq<bool>, chunkSize: int, workers: int, stopOnErr: bool, collects: bool)
  {
    function Pieces(): nat { |fails| }

    function Size(): nat { if chunkSize < 1 then 1 else chunkSize }

    function Chunks(): nat { CeilDiv(Pieces(), Size()) }

    /** The number of worker goroutines started. */
    function Spawned(): int { if Chunks() < workers then Chunks() else workers }

    function ChannelCap(): nat { if Pieces() > RESULT_CHANNEL_LIMIT then RESULT_CHANNEL_LIMIT else Pieces() }

    function Start(chunk: nat): nat { chunk * Size() }

    function End(chunk: nat): nat {
      if Start(chunk) + Size() > Pieces() then Pieces() else Start(chunk) + Size()
    }

    /** The error of piece `p` stops the run. */
    predicate Stops(p: int) { 0 <= p < |fails| && fails[p] && stopOnErr }
  }

  function CeilDiv(a: nat, b: nat): nat
    requires b > 0
  {
    (a + b - 1) / b
  }

  /**
   A worker goroutine: at the head of the range over the channel, at the check
   for cancellation before piece `p` of a chunk that ends at `end`, inside
   doWorkPiece(p), sending p's value, about to send p's error, about to cancel,
   or gone. A worker that returned inside a chunk leaves the pieces [p, end) of
   it uncalled.
   */
  datatype Worker =
    | Fetching
    | Checking(p: int, end: int)
    | Calling(p: int, end: int)
    | Sending(p: int, end: int)
    | Reporting(p: int, end: int)
    | Cancelling(p: int, end: int)
    | Exited(p: int, end: int)

  /** What the function returns. */
  datatype Verdict = Verdict(result: seq<int>, err: Option<int>)

  /**
   `calls` and `failed` are histories: the pieces called so far, and those whose
   error stopped the run. In a run without collector `result` is the history of
   completed pieces.
   */
  datatype State = State(
    queue: seq<nat>,
    workers: seq<Worker>,
    resultCh: seq<int>,
    result: seq<int>,
    collecting: bool,
    errCh: seq<int>,
    cancelled: bool,
    external: bool,
    returned: Option<Verdict>,
    calls: multiset<int>,
    failed: multiset<int>)

  datatype Action =
    | Fetch(w: nat)
    | Leave(w: nat)
    | NextChunk(w: nat)
    | Stop(w: nat)
    | Call(w: nat)
    | Finish(w: nat)
    | Deliver(w: nat)
    | Report(w: nat)
    | Cancel(w: nat)
    | Collect
    | CollectorStop
    | ExternalCancel
    | Return

  ghost predicate Init(c: Config, s: State) {
    && |s.queue| == c.Chunks() && (forall i :: 0 <= i < |s.queue| ==> s.queue[i] == i)
    && c.Pieces() > 0 && 1 <= c.Spawned() == |s.workers|
    && (forall i :: 0 <= i < |s.workers| ==> s.workers[i] == Fetching)
    && s.resultCh == [] && s.result == [] && s.collecting == c.collects
    && s.errCh == [] && !s.cancelled && !s.external && s.returned == None
    && s.calls == multiset{} && s.failed == multiset{}
  }

  predicate Enabled(c: Config, s: State, a: Action) {
    && s.returned == None
    && match a
       case Fetch(w) => w < |s.workers| && s.workers[w].Fetching? && s.queue != []
       case Leave(w) => w < |s.workers| && s.workers[w].Fetching? && s.queue == []
       case NextChunk(w) => w < |s.workers| && s.workers[w].Checking? && s.workers[w].p >= s.workers[w].end
       case Stop(w) => w < |s.workers| && s.workers[w].Checking? && s.workers[w].p < s.workers[w].end && s.cancelled
       case Call(w) => w < |s.workers| && s.workers[w].Checking? && s.workers[w].p < s.workers[w].end && !s.cancelled
       case Finish(w) => w < |s.workers| && s.workers[w].Calling?
       case Deliver(w) => w < |s.workers| && s.workers[w].Sending? && |s.resultCh| < c.ChannelCap()
       case Report(w) => w < |s.workers| && s.workers[w].Reporting?
       case Cancel(w) => w < |s.workers| && s.workers[w].Cancelling?
       case Collect => s.collecting && s.resultCh != []
       case CollectorStop => s.collecting && s.cancelled
       case ExternalCancel => !s.external
       case Return => !s.collecting && forall i :: 0 <= i < |s.workers| ==> s.workers[i].Exited?
  }

  function Apply(c: Config, s: State, a: Action): State
    requires Enabled(c, s, a)
  {
    match a
    case Fetch(w) =>
      s.(queue := s.queue[1..], workers := s.workers[w := Checking(c.Start(s.queue[0]), c.End(s.queue[0]))])
    case Leave(w) => s.(workers := s.workers[w := Exited(0, 0)])
    case NextChunk(w) => s.(workers := s.workers[w := Fetching])
    case Stop(w) => s.(workers := s.workers[w := Exited(s.workers[w].p, s.workers[w].end)])
    case Call(w) =>
      s.(workers := s.workers[w := Calling(s.workers[w].p, s.workers[w].end)], calls := s.calls + multiset{s.workers[w].p})
    case Finish(w) =>
      var p, end := s.workers[w].p, s.workers[w].end;
      if c.Stops(p) then
        s.(workers := s.workers[w := Reporting(p, end)], failed := s.failed + multiset{p})
      else if c.collects then s.(workers := s.workers[w := Sending(p, end)])
      else s.(workers := s.workers[w := Checking(p + 1, end)], result := s.result + [p])
    case Deliver(w) =>
      s.(workers := s.workers[w := Checking(s.workers[w].p + 1, s.workers[w].end)],
      resultCh := s.resultCh + [s.workers[w].p])
    case Report(w) =>
      s.(workers := s.workers[w := Cancelling(s.workers[w].p, s.workers[w].end)],
      errCh := if s.errCh == [] then [s.workers[w].p] else s.errCh)
    case Cancel(w) => s.(workers := s.workers[w := Exited(s.workers[w].p + 1, s.workers[w].end)], cancelled := true)
    case Collect =>
      var result := s.result + [s.resultCh[0]];
      s.(result := result, resultCh := s.resultCh[1..], collecting := |result| != c.Pieces())
    case CollectorStop => s.(collecting := false)
    case ExternalCancel => s.(cancelled := true, external := true)
    case Return =>
      s.(returned := Some(if s.errCh == [] then Verdict(s.result, None) else Verdict([], Some(s.errCh[0]))))
  }

  ghost predicate Next(c: Config, s: State, s': State) {
    exists a :: Enabled(c, s, a) && s' == Apply(c, s, a)
  }

  /** A run: every state follows from the one before by some process's action. */
  ghost predicate Run(c: Config, r: seq<State>) {
    && |r| > 0 && Init(c, r[0])
    && forall i :: 0 <= i < |r| - 1 ==> Next(c, r[i], r[i + 1])
  }

  // ---------- Conservation of pieces ----------

  /** 1 for a worker that has taken piece `p` and not called it. */
  ghost function Awaits(p: int): Worker -> nat {
    (w: Worker) =>
      if w.Fetching? then 0
      else if w.Checking? || w.Exited? then if w.p <= p < w.end then 1 else 0
      else if w.p < p < w.end then 1 else 0
  }

  /** 1 for a worker that has called piece `p` and not yet handed it on. */
  ghost function Holds(p: int): Worker -> nat {
    (w: Worker) => if (w.Calling? || w.Sending?) && w.p == p then 1 else 0
  }

  /** 1 for the chunk of piece `p`. */
  ghost function InChunk(c: Config, p: int): nat -> nat {
    (k: nat) => if c.Start(k) <= p < c.End(k) then 1 else 0
  }

  /** In how many places piece `p` is uncalled. */
  ghost function Uncalled(c: Config, s: State, p: int): nat {
    Weight(InChunk(c, p), s.queue) + Weight(Awaits(p), s.workers)
  }

  /** In how many places piece `p` is after its call. */
  ghost function Called(s: State, p: int): nat {
    Weight(Holds(p), s.workers) + multiset(s.resultCh)[p] + multiset(s.result)[p] + s.failed[p]
  }

  /** Every piece of the range is in exactly one place. */
  ghost predicate Conserved(c: Config, s: State) {
    forall p :: Uncalled(c, s, p) + s.calls[p] == (if 0 <= p < c.Pieces() then 1 else 0) && s.calls[p] == Called(s, p)
  }

  ghost predicate WorkerOk(c: Config, s: State, w: Worker) {
    match w
    case Fetching => true
    case Checking(p, end) => 0 <= p <= end <= c.Pieces()
    case Calling(p, end) => 0 <= p < end <= c.Pieces()
    case Sending(p, end) => 0 <= p < end <= c.Pieces() && c.collects && !c.Stops(p)
    case Reporting(p, end) => p in s.failed
    case Cancelling(p, end) => |s.errCh| == 1
    case Exited(p, end) => (s.queue == [] && p >= end) || s.cancelled
  }

  ghost predicate WorkersOk(c: Config, s: State) {
    && (forall i :: 0 <= i < |s.workers| ==> WorkerOk(c, s, s.workers[i]))
    && (forall i :: 0 <= i < |s.queue| ==> s.queue[i] < c.Chunks())
  }

  /** The error channel holds at most one error, of a piece whose error stopped the run. */
  ghost predicate ErrorsOk(c: Config, s: State) {
    && |s.errCh| <= 1 && (forall p :: p in s.errCh ==> p in s.failed)
    && (forall p :: p in s.failed ==> c.Stops(p))
    && (s.cancelled ==> s.external || |s.errCh| == 1)
  }

  /** A stopping error reaches the error channel, and then the run is cancelled. */
  ghost predicate Marked(s: State) {
    && (s.failed != multiset{} ==> s.errCh != [] || exists i :: 0 <= i < |s.workers| && s.workers[i].Reporting?)
    && (s.errCh != [] ==> s.cancelled || exists i :: 0 <= i < |s.workers| && s.workers[i].Cancelling?)
  }

  ghost predicate ResultsOk(c: Config, s: State) {
    && (forall p :: p in s.result || p in s.resultCh ==> !c.Stops(p))
    && (s.collecting ==> c.collects && |s.result| < c.Pieces())
    && (c.collects && !s.collecting ==> s.cancelled || |s.result| == c.Pieces())
    && (!c.collects ==> s.resultCh == [])
    && |s.resultCh| <= c.ChannelCap()
  }

  ghost predicate Done(s: State) {
    && (forall i :: 0 <= i < |s.workers| ==> s.workers[i].Exited?)
    && !s.collecting
  }

  ghost predicate ReturnOk(s: State) {
    s.returned.Some? ==>
      && Done(s)
      && s.returned.value == if s.errCh == [] then Verdict(s.result, None) else Verdict([], Some(s.errCh[0]))
  }

  ghost predicate Inv(c: Config, s: State) {
    && 1 <= |s.workers|
    && Conserved(c, s) && WorkersOk(c, s) && ErrorsOk(c, s) && Marked(s) && ResultsOk(c, s) && ReturnOk(s)
  }

  /** Every chunk handed out starts inside the range; the last ends at its end. */
  lemma ChunkBounds(c: Config, k: nat)
    requires k <= c.Chunks()
    ensures k < c.Chunks() ==> c.Start(k) < c.Pieces()
    ensures k == c.Chunks() ==> c.Start(k) >= c.Pieces()
    ensures c.Start(k + 1) == c.Start(k) + c.Size()
  {
    var n, b, q := c.Pieces(), c.Size(), c.Chunks();
    assert q == (n + b - 1) / b;
    assert b * q <= n + b - 1 < b * q + b;
    if k < q {
      assert k * b <= (q - 1) * b == q * b - b;
    }
  }

  /** The chunks from `k` on cover the pieces from the start of `k` on, each once. */
  lemma {:induction false} ChunksPartition(c: Config, q: seq<nat>, k: nat, p: int)
    requires k <= c.Chunks() && |q| == c.Chunks() - k
    requires forall i :: 0 <= i < |q| ==> q[i] == k + i
    ensures Weight(InChunk(c, p), q) == if c.Start(k) <= p < c.Pieces() then 1 else 0
    decreases |q|
  {
    hide CeilDiv;
    ChunkBounds(c, k);
    if q != [] {
      ChunksPartition(c, q[1..], k + 1, p);
    }
  }

  lemma InitInv(c: Config, s: State)
    requires Init(c, s)
    ensures Inv(c, s)
  {
    hide CeilDiv;
    forall p
      ensures Uncalled(c, s, p) == (if 0 <= p < c.Pieces() then 1 else 0) && Called(s, p) == 0
    {
      ChunksPartition(c, s.queue, 0, p);
      WeightZero(Awaits(p), s.workers);
      WeightZero(Holds(p), s.workers);
    }
  }

  lemma FetchUncalled(c: Config, s: State, w: nat, p: int)
    requires Enabled(c, s, Fetch(w))
    ensures var s' := Apply(c, s, Fetch(w)); Uncalled(c, s', p) + s'.calls[p] == Uncalled(c, s, p) + s.calls[p]
  {
    hide CeilDiv;
    WeightUpdate(Awaits(p), s.workers, w, Apply(c, s, Fetch(w)).workers[w]);
  }

  /** No action creates, duplicates or loses a piece. */
  lemma UncalledStep(c: Config, s: State, a: Action, p: int)
    requires Enabled(c, s, a)
    ensures Uncalled(c, Apply(c, s, a), p) + Apply(c, s, a).calls[p] == Uncalled(c, s, p) + s.calls[p]
  {
    hide CeilDiv;
    if a.Fetch? {
      FetchUncalled(c, s, a.w, p);
    } else if !(a.Collect? || a.CollectorStop? || a.ExternalCancel? || a.Return?) {
      assert Apply(c, s, a).queue == s.queue;
      WeightUpdate(Awaits(p), s.workers, a.w, Apply(c, s, a).workers[a.w]);
    }
  }

  lemma DeliverStep(c: Config, s: State, w: nat, p: int)
    requires Enabled(c, s, Deliver(w))
    ensures var s' := Apply(c, s, Deliver(w)); s'.calls[p] + Called(s, p) == Called(s', p) + s.calls[p]
  {
    hide CeilDiv;
    WeightUpdate(Holds(p), s.workers, w, Apply(c, s, Deliver(w)).workers[w]);
  }

  lemma FinishStep(c: Config, s: State, w: nat, p: int)
    requires Enabled(c, s, Finish(w))
    ensures var s' := Apply(c, s, Finish(w)); s'.calls[p] + Called(s, p) == Called(s', p) + s.calls[p]
  {
    hide CeilDiv;
    var s' := Apply(c, s, Finish(w));
    var q := s.workers[w].p;
    WeightUpdate(Holds(p), s.workers, w, s'.workers[w]);
    assert s'.workers == s.workers[w := s'.workers[w]] && s'.calls == s.calls && s'.resultCh == s.resultCh;
    assert Holds(p)(s.workers[w]) == if q == p then 1 else 0;
    if s'.workers[w].Checking? {
      assert s'.result == s.result + [q] && s'.failed == s.failed;
      assert Holds(p)(s'.workers[w]) == 0;
    } else if s'.workers[w].Reporting? {
      assert s'.result == s.result && s'.failed == s.failed + multiset{q};
    } else {
      assert s'.result == s.result && s'.failed == s.failed;
    }
    hide Apply;
  }

  lemma CalledStep(c: Config, s: State, a: Action, p: int)
    requires Enabled(c, s, a) && !a.Collect?
    ensures Apply(c, s, a).calls[p] + Called(s, p) == Called(Apply(c, s, a), p) + s.calls[p]
  {
    hide CeilDiv;
    if a.Finish? {
      FinishStep(c, s, a.w, p);
    } else if a.Deliver? {
      DeliverStep(c, s, a.w, p);
    } else if !(a.CollectorStop? || a.ExternalCancel? || a.Return?) {
      WeightUpdate(Holds(p), s.workers, a.w, Apply(c, s, a).workers[a.w]);
    }
  }

  lemma ConservedStep(c: Config, s: State, a: Action)
    requires Enabled(c, s, a) && Conserved(c, s)
    ensures Conserved(c, Apply(c, s, a))
  {
    hide CeilDiv;
    var s' := Apply(c, s, a);
    forall p
      ensures Uncalled(c, s', p) + s'.calls[p] == (if 0 <= p < c.Pieces() then 1 else 0) && s'.calls[p] == Called(s', p)
    {
      UncalledStep(c, s, a, p);
      if a.Collect? {
        assert s.resultCh == [s.resultCh[0]] + s'.resultCh;
      } else {
        CalledStep(c, s, a, p);
      }
      assert s.calls[p] == Called(s, p);
    }
  }

  /** What is known of a worker survives the actions of the others. */
  lemma OtherWorker(c: Config, s: State, a: Action, x: Worker)
    requires Enabled(c, s, a) && WorkerOk(c, s, x) && |s.errCh| <= 1
    ensures WorkerOk(c, Apply(c, s, a), x)
  {
    hide CeilDiv;
  }

  lemma MovedWorker(c: Config, s: State, a: Action)
    requires Enabled(c, s, a) && WorkersOk(c, s) && |s.errCh| <= 1
    requires !(a.Collect? || a.CollectorStop? || a.ExternalCancel? || a.Return?)
    ensures WorkerOk(c, Apply(c, s, a), Apply(c, s, a).workers[a.w])
  {
    hide CeilDiv;
    assert WorkerOk(c, s, s.workers[a.w]);
    if a.Fetch? {
      ChunkBounds(c, s.queue[0]);
    }
  }

  lemma WorkersStep(c: Config, s: State, a: Action)
    requires Enabled(c, s, a) && WorkersOk(c, s) && |s.errCh| <= 1
    ensures WorkersOk(c, Apply(c, s, a))
  {
    hide CeilDiv;
    var s' := Apply(c, s, a);
    forall i | 0 <= i < |s'.workers|
      ensures WorkerOk(c, s', s'.workers[i])
    {
      if s'.workers[i] == s.workers[i] {
        OtherWorker(c, s, a, s.workers[i]);
      } else {
        MovedWorker(c, s, a);
      }
    }
  }

  lemma ErrorsStep(c: Config, s: State, a: Action)
    requires Enabled(c, s, a) && WorkersOk(c, s) && ErrorsOk(c, s)
    ensures ErrorsOk(c, Apply(c, s, a))
  {
    hide CeilDiv;
    assert a.Report? || a.Cancel? ==> WorkerOk(c, s, s.workers[a.w]);
  }

  lemma MarkedStep(c: Config, s: State, a: Action)
    requires Enabled(c, s, a) && Marked(s)
    ensures Marked(Apply(c, s, a))
  {
    hide CeilDiv;
    var s' := Apply(c, s, a);
    if s'.errCh == [] && s'.failed != multiset{} {
      if s.failed == multiset{} {
        assert s'.workers[a.w].Reporting?;
      } else {
        var i :| 0 <= i < |s.workers| && s.workers[i].Reporting?;
        assert s'.workers[i].Reporting?;
      }
    }
    if s'.errCh != [] && !s'.cancelled {
      if s.errCh == [] {
        assert s'.workers[a.w].Cancelling?;
      } else {
        var i :| 0 <= i < |s.workers| && s.workers[i].Cancelling?;
        assert s'.workers[i].Cancelling?;
      }
    }
  }

  lemma ResultsStep(c: Config, s: State, a: Action)
    requires Enabled(c, s, a) && WorkersOk(c, s) && ResultsOk(c, s)
    ensures ResultsOk(c, Apply(c, s, a))
  {
    hide CeilDiv;
    assert a.Deliver? ==> WorkerOk(c, s, s.workers[a.w]);
  }

  lemma InvStep(c: Config, s: State, a: Action)
    requires Inv(c, s) && Enabled(c, s, a)
    ensures Inv(c, Apply(c, s, a))
  {
    hide CeilDiv;
    hide Conserved;
    hide WorkersOk;
    hide Marked;
    ConservedStep(c, s, a);
    WorkersStep(c, s, a);
    ErrorsStep(c, s, a);
    MarkedStep(c, s, a);
    ResultsStep(c, s, a);
  }

  /** The invariant holds in every state of every run. */
  lemma {:induction false} RunInv(c: Config, r: seq<State>, i: nat)
    requires Run(c, r) && i < |r|
    ensures Inv(c, r[i])
  {
    hide CeilDiv;
    if i == 0 {
      InitInv(c, r[0]);
    } else {
      RunInv(c, r, i - 1);
      assert Next(c, r[i - 1], r[i - 1 + 1]);
      var a :| Enabled(c, r[i - 1], a) && r[i] == Apply(c, r[i - 1], a);
      InvStep(c, r[i - 1], a);
    }
  }

  // ---------- What a run returns ----------

  /** Each piece is called at most once, and no other piece is. */
  lemma CalledAtMostOnce(c: Config, r: seq<State>, i: nat, p: int)
    requires Run(c, r) && i < |r|
    ensures r[i].calls[p] <= if 0 <= p < c.Pieces() then 1 else 0
  {
    RunInv(c, r, i);
    assert Uncalled(c, r[i], p) >= 0;
  }

  /** Once the workers of an uncancelled run are gone, every piece has been called and delivered. */
  lemma Complete(c: Config, s: State, p: int)
    requires Inv(c, s) && !s.cancelled
    requires forall i :: 0 <= i < |s.workers| ==> s.workers[i].Exited?
    ensures s.failed == multiset{}
    ensures s.calls[p] == if 0 <= p < c.Pieces() then 1 else 0
    ensures multiset(s.resultCh)[p] + multiset(s.result)[p] == if 0 <= p < c.Pieces() then 1 else 0
  {
    hide CeilDiv;
    assert WorkerOk(c, s, s.workers[0]);
    forall i | 0 <= i < |s.workers|
      ensures Awaits(p)(s.workers[i]) == 0 && Holds(p)(s.workers[i]) == 0
    {
      assert WorkerOk(c, s, s.workers[i]);
    }
    WeightZero(Awaits(p), s.workers);
    WeightZero(Holds(p), s.workers);
    assert Uncalled(c, s, p) == 0;
    assert s.calls[p] == Called(s, p);
  }

  /** The pieces already in `b` are distinct and in range. */
  lemma DeliveredWithin(c: Config, s: State, p: int)
    requires Conserved(c, s)
    ensures Weight(Holds(p), s.workers) + multiset(s.resultCh)[p] + multiset(s.result)[p] <= if 0 <= p < c.Pieces() then 1 else 0
  {
    assert s.calls[p] == Called(s, p) && Uncalled(c, s, p) >= 0;
  }

  /**
   Without outer cancellation, a nil error means that every piece was called
   exactly once, that none stopped the run, and that the values of all of them,
   whatever `value` a piece computes, are what is returned.
   */
  lemma NilMeansAll<R>(c: Config, r: seq<State>, value: int -> R)
    requires Run(c, r) && var s := r[|r| - 1]; s.returned.Some? && s.returned.value.err == None && !s.external
    ensures var s := r[|r| - 1];
            s.calls == Interval(0, c.Pieces()) && forall p :: 0 <= p < |c.fails| ==> !(c.fails[p] && c.stopOnErr)
    ensures |r[|r| - 1].returned.value.result| == c.Pieces()
    ensures multiset(Image(value, r[|r| - 1].returned.value.result)) == multiset(Image(value, seq(c.Pieces(), i => i)))
  {
    hide CeilDiv;
    var s, n := r[|r| - 1], c.Pieces();
    RunInv(c, r, |r| - 1);
    AllCalled(c, s);
    ResultIsInterval(c, s);
    hide Inv;
    hide Run;
    IdentityBag(n);
    ImageBag(value, s.result, seq(n, i => i));
  }

  /** When an uncancelled run is done, every piece was called once, and none was to stop it. */
  lemma AllCalled(c: Config, s: State)
    requires Inv(c, s) && Done(s) && !s.cancelled
    ensures s.calls == Interval(0, c.Pieces())
    ensures forall p :: 0 <= p < |c.fails| ==> !(c.fails[p] && c.stopOnErr)
  {
    hide CeilDiv;
    var n := c.Pieces();
    forall p
      ensures s.calls[p] == if 0 <= p < n then 1 else 0
    {
      Complete(c, s, p);
    }
    IsInterval(s.calls, n);
    forall p | 0 <= p < |c.fails|
      ensures !(c.fails[p] && c.stopOnErr)
    {
      Complete(c, s, p);
      assert p in multiset(s.resultCh) || p in multiset(s.result);
      assert !c.Stops(p);
    }
  }

  lemma ResultIsInterval(c: Config, s: State)
    requires Inv(c, s) && Done(s) && !s.cancelled
    ensures multiset(s.result) == Interval(0, c.Pieces()) && |s.result| == c.Pieces()
  {
    hide CeilDiv;
    if c.collects {
      forall p
        ensures multiset(s.result)[p] <= if 0 <= p < c.Pieces() then 1 else 0
      {
        DeliveredWithin(c, s, p);
      }
      WithinInterval(multiset(s.result), c.Pieces());
    } else {
      forall p
        ensures multiset(s.result)[p] == if 0 <= p < c.Pieces() then 1 else 0
      {
        Complete(c, s, p);
      }
      IsInterval(multiset(s.result), c.Pieces());
    }
  }

  lemma {:induction false} IdentityBag(n: nat)
    ensures multiset(seq(n, i => i)) == Interval(0, n)
  {
    if n > 0 {
      IdentityBag(n - 1);
      assert seq(n, i => i) == seq(n - 1, i => i) + [n - 1];
      IntervalSplit(0, n - 1, n);
    }
  }

  /**
   Without outer cancellation, the error is nil if and only if every piece was
   called, and none returned an error unless the option to stop on errors is off;
   otherwise the option is on and the error is one that a called piece returned.
   */
  lemma ErrorSemantics(c: Config, r: seq<State>)
    requires Run(c, r) && var s := r[|r| - 1]; s.returned.Some? && !s.external
    ensures var s := r[|r| - 1];
            && (s.returned.value.err == None <==> forall p :: 0 <= p < |c.fails| ==> p in s.calls && !(c.fails[p] && c.stopOnErr))
            && (s.returned.value.err.Some? ==>
                  var p := s.returned.value.err.value; 0 <= p < |c.fails| && p in s.calls && c.fails[p] && c.stopOnErr)
  {
    hide CeilDiv;
    var s := r[|r| - 1];
    RunInv(c, r, |r| - 1);
    if s.returned.value.err == None {
      NilMeansAll(c, r, (i: int) => i);
      forall p | 0 <= p < c.Pieces()
        ensures p in s.calls
      {
        IntervalCount(0, c.Pieces(), p);
      }
    } else {
      var p := s.errCh[0];
      assert p in s.failed && s.calls[p] == Called(s, p);
    }
  }

  lemma CancelledStep(c: Config, s: State, a: Action)
    requires Enabled(c, s, a) && s.cancelled
    ensures Apply(c, s, a).cancelled && Apply(c, s, a).calls == s.calls
  {
    hide CeilDiv;
  }

  /** Once the run is cancelled, by an error or by the caller, no further piece is called. */
  lemma {:induction false} NoCallAfterCancel(c: Config, r: seq<State>, m: nat, k: nat)
    requires Run(c, r) && m <= k < |r| && r[m].cancelled
    ensures r[k].cancelled && r[k].calls == r[m].calls
    decreases k
  {
    hide CeilDiv;
    hide Apply;
    hide Enabled;
    if m < k {
      NoCallAfterCancel(c, r, m, k - 1);
      assert Next(c, r[k - 1], r[k - 1 + 1]);
      var a :| Enabled(c, r[k - 1], a) && r[k] == Apply(c, r[k - 1], a);
      CancelledStep(c, r[k - 1], a);
    }
  }

  /** With the option off errors change nothing: the run returns nil, with every piece called exactly once and all the values. */
  lemma ErrorsIgnored<R>(c: Config, r: seq<State>, value: int -> R)
    requires Run(c, r) && !c.stopOnErr && var s := r[|r| - 1]; s.returned.Some? && !s.external
    ensures var s := r[|r| - 1];
            && s.returned.value.err == None && s.calls == Interval(0, |c.fails|)
            && |s.returned.value.result| == |c.fails|
            && multiset(Image(value, s.returned.value.result)) == multiset(Image(value, seq(|c.fails|, i => i)))
  {
    hide CeilDiv;
    ErrorSemantics(c, r);
    NilMeansAll(c, r, value);
  }

  /** Chunks are runs of `chunkSize` consecutive pieces, one piece if that is not positive; the last may be shorter. */
  lemma ChunkShape(c: Config, k: nat, p: nat)
    requires k < c.Chunks()
    ensures c.Start(k) <= p < c.End(k) <==> p < |c.fails| && p / (if c.chunkSize < 1 then 1 else c.chunkSize) == k
  {
    hide CeilDiv;
    var b := c.Size();
    DivIs(p, b, k);
    assert c.Start(k) == k * b;
  }

  lemma DivIs(p: nat, b: nat, k: nat)
    requires b > 0
    ensures k * b <= p < k * b + b <==> p / b == k
  {
    var q := p / b;
    assert q * b <= p < q * b + b;
    if q < k {
      MulMonotone(q + 1, k, b);
    } else if k < q {
      MulMonotone(k + 1, q, b);
    }
  }

  lemma MulMonotone(x: int, y: int, z: nat)
    requires x <= y
    ensures x * z <= y * z
  {
  }

  /** There are as many workers as asked for, or as there are chunks if these are fewer. */
  lemma {:induction false} WorkersStarted(c: Config, r: seq<State>, i: nat)
    requires Run(c, r) && i < |r|
    ensures |r[i].workers| == if c.Chunks() < c.workers then c.Chunks() else c.workers
  {
    hide CeilDiv;
    hide Apply;
    hide Enabled;
    if i > 0 {
      WorkersStarted(c, r, i - 1);
      assert Next(c, r[i - 1], r[i - 1 + 1]);
      var a :| Enabled(c, r[i - 1], a) && r[i] == Apply(c, r[i - 1], a);
      SameWorkers(c, r[i - 1], a);
    }
  }

  lemma SameWorkers(c: Config, s: State, a: Action)
    requires Enabled(c, s, a)
    ensures |Apply(c, s, a).workers| == |s.workers|
  {
    hide CeilDiv;
  }

  // ---------- Progress ----------

  /**
   The one way to be stuck: the collector is gone, the result channel is full, and
   a worker blocks on it.
   */
  ghost predicate Stuck(c: Config, s: State) {
    && c.collects && !s.collecting && |s.resultCh| == c.ChannelCap()
    && (forall i :: 0 <= i < |s.workers| ==> s.workers[i].Exited? || s.workers[i].Sending?)
    && (exists i :: 0 <= i < |s.workers| && s.workers[i].Sending?)
  }

  function WorkerAction(c: Config, s: State, w: nat): Action
    requires w < |s.workers|
  {
    match s.workers[w]
    case Fetching => if s.queue == [] then Leave(w) else Fetch(w)
    case Checking(p, end) => if p >= end then NextChunk(w) else if s.cancelled then Stop(w) else Call(w)
    case Calling(_, _) => Finish(w)
    case Sending(_, _) => Deliver(w)
    case Reporting(_, _) => Report(w)
    case Cancelling(_, _) => Cancel(w)
    case Exited(_, _) => Return
  }

  /** A run that has not returned can move, unless it is stuck. */
  lemma Progress(c: Config, s: State) returns (a: Action)
    requires Inv(c, s) && s.returned == None && !Stuck(c, s)
    ensures Enabled(c, s, a) && a != ExternalCancel
  {
    hide CeilDiv;
    hide Conserved;
    hide Marked;
    hide ErrorsOk;
    hide ReturnOk;
    if i :| 0 <= i < |s.workers| && !s.workers[i].Exited? && !s.workers[i].Sending? {
      a := WorkerAction(c, s, i);
    } else if i :| 0 <= i < |s.workers| && s.workers[i].Sending? {
      assert WorkerOk(c, s, s.workers[i]);
      a := if |s.resultCh| < c.ChannelCap() then Deliver(i) else Collect;
    } else if !s.collecting {
      a := Return;
    } else if s.cancelled {
      a := CollectorStop;
    } else {
      a := Collect;
      SomethingToCollect(c, s);
    }
  }

  /** While the collector of an uncancelled run goes on, the workers leave something for it. */
  lemma SomethingToCollect(c: Config, s: State)
    requires Inv(c, s) && !s.cancelled && s.collecting && forall i :: 0 <= i < |s.workers| ==> s.workers[i].Exited?
    ensures s.resultCh != []
  {
    hide CeilDiv;
    if s.resultCh == [] {
      forall p
        ensures multiset(s.result)[p] == if 0 <= p < c.Pieces() then 1 else 0
      {
        Complete(c, s, p);
      }
      IsInterval(multiset(s.result), c.Pieces());
    }
  }

  /** A stuck state has no move but outer cancellation, which does not help it. */
  lemma StuckForever(c: Config, s: State, a: Action)
    requires Inv(c, s) && Stuck(c, s) && Enabled(c, s, a)
    ensures a == ExternalCancel && Stuck(c, Apply(c, s, a))
  {
    hide CeilDiv;
    var i :| 0 <= i < |s.workers| && s.workers[i].Sending?;
    assert Apply(c, s, a).workers[i].Sending?;
  }

  /** No run is stuck that was not cancelled or has at most 1024 pieces. */
  lemma NeverStuck(c: Config, s: State)
    requires Inv(c, s) && (!s.cancelled || |c.fails| <= 1024)
    ensures !Stuck(c, s)
  {
    hide CeilDiv;
    if Stuck(c, s) {
      var i :| 0 <= i < |s.workers| && s.workers[i].Sending?;
      var p := s.workers[i].p;
      var full := if s.cancelled then s.resultCh else s.result;
      forall q
        ensures multiset(full)[q] <= if 0 <= q < c.Pieces() then 1 else 0
      {
        DeliveredWithin(c, s, q);
      }
      WithinInterval(multiset(full), c.Pieces());
      assert WorkerOk(c, s, s.workers[i]);
      IntervalCount(0, c.Pieces(), p);
      WeightContains(Holds(p), s.workers, i);
      DeliveredWithin(c, s, p);
      assert false;
    }
  }

  /** More pieces with results than the channel holds, at least one worker, and no error that stops the run. */
  ghost predicate CanStick(c: Config) {
    c.collects && c.workers >= 1 && c.Pieces() > RESULT_CHANNEL_LIMIT
    && forall p :: 0 <= p < |c.fails| ==> !(c.fails[p] && c.stopOnErr)
  }

  lemma Extend(c: Config, r: seq<State>, a: Action) returns (r': seq<State>)
    requires Run(c, r) && Enabled(c, r[|r| - 1], a)
    ensures Run(c, r') && |r'| > 0 && r'[|r'| - 1] == Apply(c, r[|r| - 1], a)
  {
    hide CeilDiv;
    r' := r + [Apply(c, r[|r| - 1], a)];
    assert Next(c, r[|r| - 1], r'[|r|]);
  }

  /** The first worker has taken `m` chunks and sent the results of the first `k` pieces, which nobody has collected. */
  ghost predicate Filled(c: Config, s: State, k: nat, m: nat) {
    && 1 <= m <= c.Chunks() && c.Start(m - 1) <= k <= c.End(m - 1)
    && |s.workers| >= 1 && s.workers[0] == Checking(k, c.End(m - 1))
    && (forall i :: 1 <= i < |s.workers| ==> s.workers[i] == Fetching)
    && |s.queue| == c.Chunks() - m && (forall i :: 0 <= i < |s.queue| ==> s.queue[i] == m + i)
    && |s.resultCh| == k && s.result == [] && s.collecting && !s.cancelled && !s.external && s.returned == None
  }

  lemma FillNone(c: Config) returns (r: seq<State>)
    requires CanStick(c)
    ensures Run(c, r) && Filled(c, r[|r| - 1], 0, 1)
  {
    hide CeilDiv;
    ChunkBounds(c, 0);
    var s := State(seq(c.Chunks(), i => i), seq(c.Spawned(), i => Fetching), [], [], true, [], false, false, None,
                   multiset{}, multiset{});
    assert Init(c, s);
    r := Extend(c, [s], Fetch(0));
  }

  /** At the end of a chunk the worker takes the next. */
  lemma NextPiece(c: Config, r: seq<State>, k: nat, m: nat) returns (r': seq<State>, m': nat)
    requires CanStick(c) && Run(c, r) && Filled(c, r[|r| - 1], k, m) && k < c.Pieces()
    ensures Run(c, r') && Filled(c, r'[|r'| - 1], k, m') && m' >= 1 && k < c.End(m' - 1)
  {
    hide CeilDiv;
    r', m' := r, m;
    if k == c.End(m - 1) {
      ChunkBounds(c, m - 1);
      ChunkBounds(c, m);
      r' := Extend(c, r', NextChunk(0));
      r' := Extend(c, r', Fetch(0));
      m' := m + 1;
    }
  }

  lemma {:induction false} Fill(c: Config, k: nat) returns (r: seq<State>, m: nat)
    requires CanStick(c) && k <= RESULT_CHANNEL_LIMIT
    ensures Run(c, r) && Filled(c, r[|r| - 1], k, m)
  {
    hide CeilDiv;
    if k == 0 {
      r := FillNone(c);
      m := 1;
    } else {
      r, m := Fill(c, k - 1);
      r, m := NextPiece(c, r, k - 1, m);
      r := Extend(c, r, Call(0));
      r := Extend(c, r, Finish(0));
      r := Extend(c, r, Deliver(0));
    }
  }

  /** After the cancellation the first worker blocks, and the others up to `i` have left. */
  ghost predicate Winding(c: Config, s: State, i: nat) {
    && i <= |s.workers| && |s.workers| >= 1 && s.workers[0].Sending?
    && (forall j :: 1 <= j < i ==> s.workers[j].Exited?) && (forall j :: i <= j < |s.workers| && 0 < j ==> s.workers[j] == Fetching)
    && (forall j :: 0 <= j < |s.queue| ==> s.queue[j] < c.Chunks())
    && |s.resultCh| == c.ChannelCap() && !s.collecting && s.cancelled && s.returned == None
  }

  lemma {:induction false} WindUp(c: Config, r: seq<State>, i: nat) returns (r': seq<State>)
    requires c.collects && Run(c, r) && Winding(c, r[|r| - 1], i) && i >= 1
    ensures Run(c, r') && Stuck(c, r'[|r'| - 1])
    decreases |r[|r| - 1].workers| - i
  {
    hide CeilDiv;
    var s := r[|r| - 1];
    r' := r;
    if i < |s.workers| {
      if s.queue == [] {
        r' := Extend(c, r', Leave(i));
      } else {
        ChunkBounds(c, s.queue[0]);
        r' := Extend(c, r', Fetch(i));
        r' := Extend(c, r', Stop(i));
      }
      r' := WindUp(c, r', i + 1);
    }
  }

  /** A cancellation while the first worker computes a result that has no room. */
  lemma CancelNow(c: Config, r: seq<State>, m: nat) returns (r': seq<State>)
    requires CanStick(c) && Run(c, r) && Filled(c, r[|r| - 1], RESULT_CHANNEL_LIMIT, m) && m >= 1 && RESULT_CHANNEL_LIMIT < c.End(m - 1)
    ensures Run(c, r') && Winding(c, r'[|r'| - 1], 1)
  {
    hide CeilDiv;
    r' := Extend(c, r, Call(0));
    r' := Extend(c, r', ExternalCancel);
    r' := Extend(c, r', CollectorStop);
    r' := Extend(c, r', Finish(0));
  }

  /** With more pieces, however many workers and whatever the chunks, a cancellation at the wrong moment leaves a run stuck. */
  lemma StuckReachable(c: Config) returns (r: seq<State>)
    requires CanStick(c)
    ensures Run(c, r) && Stuck(c, r[|r| - 1])
  {
    hide CeilDiv;
    hide Filled;
    hide Winding;
    var m;
    r, m := Fill(c, RESULT_CHANNEL_LIMIT);
    r, m := NextPiece(c, r, RESULT_CHANNEL_LIMIT, m);
    r := CancelNow(c, r, m);
    r := WindUp(c, r, 1);
  }

  /** Without errors that stop the run, some run gets stuck exactly if there are results, and more than the channel holds. */
  lemma StuckExactly(c: Config)
    requires c.workers >= 1 && forall p :: 0 <= p < |c.fails| ==> !(c.fails[p] && c.stopOnErr)
    ensures (exists r :: Run(c, r) && Stuck(c, r[|r| - 1])) <==> c.collects && |c.fails| > 1024
  {
    hide CeilDiv;
    if c.collects && c.Pieces() > RESULT_CHANNEL_LIMIT {
      var r := StuckReachable(c);
      assert Run(c, r) && Stuck(c, r[|r| - 1]);
    } else {
      forall r | Run(c, r)
        ensures !Stuck(c, r[|r| - 1])
      {
        RunInv(c, r, |r| - 1);
        if c.collects {
          NeverStuck(c, r[|r| - 1]);
        }
      }
    }
  }

  ghost function WorkerWeight(): Worker -> nat {
    (w: Worker) =>
      match w
      case Fetching => 1
      case Checking(p, end) => if p <= end then 2 + 4 * (end - p) else 2
      case Calling(p, end) => if p < end then 1 + 4 * (end - p) else 1
      case Sending(p, end) => if p < end then 4 * (end - p) else 0
      case Reporting(_, _) => 2
      case Cancelling(_, _) => 1
      case Exited(_, _) => 0
  }

  ghost function ChunkWeight(c: Config): nat -> nat {
    (k: nat) => if c.Start(k) <= c.End(k) then 2 + 4 * (c.End(k) - c.Start(k)) else 2
  }

  /** Uncalled pieces, pending sends, uncollected results and live goroutines, weighted. */
  ghost function Measure(c: Config, s: State): nat {
    Weight(ChunkWeight(c), s.queue) + Weight(WorkerWeight(), s.workers) + |s.resultCh|
    + (if s.collecting then 1 else 0) + (if s.external then 0 else 1) + (if s.returned == None then 1 else 0)
  }

  ghost predicate WorkerMoves(a: Action) {
    !(a.Collect? || a.CollectorStop? || a.ExternalCancel? || a.Return?)
  }

  lemma FetchLighter(c: Config, s: State, w: nat)
    requires Enabled(c, s, Fetch(w))
    ensures var s' := Apply(c, s, Fetch(w));
            WorkerWeight()(s'.workers[w]) + Weight(ChunkWeight(c), s'.queue)
            < WorkerWeight()(s.workers[w]) + Weight(ChunkWeight(c), s.queue)
  {
    hide CeilDiv;
  }

  lemma WorkerLighter(c: Config, s: State, a: Action)
    requires Enabled(c, s, a) && WorkerMoves(a) && WorkerOk(c, s, s.workers[a.w])
    ensures var s' := Apply(c, s, a);
            WorkerWeight()(s'.workers[a.w]) + |s'.resultCh| + Weight(ChunkWeight(c), s'.queue)
            < WorkerWeight()(s.workers[a.w]) + |s.resultCh| + Weight(ChunkWeight(c), s.queue)
  {
    hide CeilDiv;
    if a.Fetch? {
      FetchLighter(c, s, a.w);
    } else {
      assert Apply(c, s, a).queue == s.queue;
    }
  }

  /** Every action, of whichever process, brings the end nearer. */
  lemma MeasureDecreases(c: Config, s: State, a: Action)
    requires WorkersOk(c, s) && Enabled(c, s, a)
    ensures Measure(c, Apply(c, s, a)) < Measure(c, s)
  {
    hide CeilDiv;
    if WorkerMoves(a) {
      assert WorkerOk(c, s, s.workers[a.w]);
      WorkerLighter(c, s, a);
      WeightUpdate(WorkerWeight(), s.workers, a.w, Apply(c, s, a).workers[a.w]);
    }
  }

  /** Hence every run is finite, with a bound known at its start. */
  lemma {:induction false} RunsEnd(c: Config, r: seq<State>, i: nat)
    requires Run(c, r) && i < |r|
    ensures Measure(c, r[i]) + i <= Measure(c, r[0])
  {
    hide CeilDiv;
    if i > 0 {
      RunsEnd(c, r, i - 1);
      RunInv(c, r, i - 1);
      assert Next(c, r[i - 1], r[i - 1 + 1]);
      var a :| Enabled(c, r[i - 1], a) && r[i] == Apply(c, r[i - 1], a);
      MeasureDecreases(c, r[i - 1], a);
    }
  }
}
