/**
 tools/collection/map.go: maps behind read-write locks, and `Merge`, which holds
 the locks of two maps at once and takes them in ascending address order.

 A map is named by its rank among the addresses. A lock behaves like
 sync.RWMutex: a writer first announces itself, which needs that no other writer
 holds the lock or has announced itself, and from then on no new reader is let in;
 it owns the lock once the readers are gone. Any number of operations run, each in
 its own goroutine, one atomic action at a time, in any order.
 */
module MapMerge {
  import opened Bags

  /**
   `Write` stands for the operations under one write lock: Set adds one entry,
   Delete removes one key, MergeMap adds many. `Read` stands for those under one
   read lock.
   */
  datatype Op<K, V> =
    | Merge(dst: nat, src: nat)
    | Write(a: nat, add: map<K, V>, remove: set<K>)
    | Read(a: nat)

  datatype Req = Req(a: nat, write: bool)

  /** The locks an operation takes, in the order in which it takes them. */
  function Requests<K, V>(op: Op<K, V>): seq<Req> {
    match op
    case Merge(dst, src) =>
      if dst == src then []
      else if dst < src then [Req(dst, true), Req(src, false)]
      else [Req(src, false), Req(dst, true)]
    case Write(a, _, _) => [Req(a, true)]
    case Read(a) => [Req(a, false)]
  }

  /** The map an operation works on. */
  function Target<K, V>(op: Op<K, V>): nat {
    if op.Merge? then op.dst else op.a
  }

  datatype Config<K, V> = Config(maps: nat, ops: seq<Op<K, V>>)
  {
    ghost predicate Valid() {
      forall i :: 0 <= i < |ops| ==> Target(ops[i]) < maps && (ops[i].Merge? ==> ops[i].src < maps)
    }
  }

  datatype Lock = Lock(writer: Option<nat>, pending: Option<nat>, readers: set<nat>)

  /**
   An operation that holds its first `k` locks and is after the next (for which it
   may have announced itself), that has them all and works, that has `k` locks
   left to release, or that has returned. `base` and `source` are the contents of
   the target and the source when the work began.
   */
  datatype Thread<K, V> =
    | Acquiring(k: nat, announced: bool)
    | Working(copied: set<K>, base: map<K, V>, source: map<K, V>)
    | Releasing(k: nat)
    | Returned

  datatype State<K, V> = State(locks: seq<Lock>, contents: seq<map<K, V>>, threads: seq<Thread<K, V>>)

  datatype Action<K> =
    | Skip(i: nat)
    | Announce(i: nat)
    | TakeWrite(i: nat)
    | TakeRead(i: nat)
    | Begin(i: nat)
    | Copy(i: nat, key: K)
    | Finish(i: nat)
    | Release(i: nat)

  ghost predicate Init<K, V>(c: Config<K, V>, s: State<K, V>) {
    && c.Valid() && |s.locks| == c.maps == |s.contents| && |s.threads| == |c.ops|
    && (forall a :: 0 <= a < c.maps ==> s.locks[a] == Lock(None, None, {}))
    && (forall i :: 0 <= i < |c.ops| ==> s.threads[i] == Acquiring(0, false))
  }

  /** The operation is still after a lock ... */
  ghost predicate Wants<K, V>(c: Config<K, V>, s: State<K, V>, i: nat) {
    && i < |s.threads| == |c.ops| && s.threads[i].Acquiring?
    && s.threads[i].k < |Requests(c.ops[i])| && Requests(c.ops[i])[s.threads[i].k].a < |s.locks|
  }

  /** ... namely this one. */
  ghost function Wanted<K, V>(c: Config<K, V>, s: State<K, V>, i: nat): Req
    requires Wants(c, s, i)
  {
    Requests(c.ops[i])[s.threads[i].k]
  }

  ghost predicate Enabled<K, V>(c: Config<K, V>, s: State<K, V>, a: Action<K>) {
    && a.i < |s.threads| == |c.ops|
    && var t, op := s.threads[a.i], c.ops[a.i];
    && Target(op) < |s.contents| && (op.Merge? ==> op.src < |s.contents|)
    && match a
       case Skip(i) => t == Acquiring(0, false) && Requests(op) == []
       case Announce(i) =>
         && Wants(c, s, i) && var q := Wanted(c, s, i);
         && q.write && !t.announced && s.locks[q.a].writer == s.locks[q.a].pending == None
       case TakeWrite(i) =>
         && Wants(c, s, i) && var q := Wanted(c, s, i);
         && q.write && t.announced && s.locks[q.a].readers == {}
       case TakeRead(i) =>
         && Wants(c, s, i) && var q := Wanted(c, s, i);
         && !q.write && s.locks[q.a].writer == s.locks[q.a].pending == None
       case Begin(i) => Requests(op) != [] && t == Acquiring(|Requests(op)|, false)
       case Copy(i, key) => t.Working? && op.Merge? && key in s.contents[op.src] && key !in t.copied
       case Finish(i) => t.Working? && (op.Merge? ==> s.contents[op.src].Keys <= t.copied)
       case Release(i) =>
         && t.Releasing? && t.k <= |Requests(op)|
         && (t.k > 0 ==> Requests(op)[t.k - 1].a < |s.locks|)
  }

  ghost function Apply<K, V>(c: Config<K, V>, s: State<K, V>, a: Action<K>): State<K, V>
    requires Enabled(c, s, a)
  {
    var i, t, op := a.i, s.threads[a.i], c.ops[a.i];
    match a
    case Skip(_) => s.(threads := s.threads[i := Returned])
    case Announce(_) =>
      var q := Requests(op)[t.k];
      s.(locks := s.locks[q.a := s.locks[q.a].(pending := Some(i))], threads := s.threads[i := t.(announced := true)])
    case TakeWrite(_) =>
      var q := Requests(op)[t.k];
      s.(locks := s.locks[q.a := Lock(Some(i), None, {})], threads := s.threads[i := Acquiring(t.k + 1, false)])
    case TakeRead(_) =>
      var q := Requests(op)[t.k];
      s.(locks := s.locks[q.a := s.locks[q.a].(readers := s.locks[q.a].readers + {i})],
      threads := s.threads[i := Acquiring(t.k + 1, false)])
    case Begin(_) =>
      var source := if op.Merge? then s.contents[op.src] else map[];
      s.(threads := s.threads[i := Working({}, s.contents[Target(op)], source)])
    case Copy(_, key) =>
      s.(contents := s.contents[op.dst := s.contents[op.dst][key := s.contents[op.src][key]]],
      threads := s.threads[i := t.(copied := t.copied + {key})])
    case Finish(_) =>
      var s1 := s.(threads := s.threads[i := Releasing(|Requests(op)|)]);
      if op.Write? then s1.(contents := s.contents[op.a := s.contents[op.a] - op.remove + op.add]) else s1
    case Release(_) =>
      if t.k == 0 then s.(threads := s.threads[i := Returned])
      else
        var q := Requests(op)[t.k - 1];
        var l := s.locks[q.a];
        s.(locks := s.locks[q.a := if q.write then l.(writer := None) else l.(readers := l.readers - {i})],
        threads := s.threads[i := Releasing(t.k - 1)])
  }

  ghost predicate Next<K(!new), V>(c: Config<K, V>, s: State<K, V>, s': State<K, V>) {
    exists a :: Enabled(c, s, a) && s' == Apply(c, s, a)
  }

  ghost predicate Run<K(!new), V>(c: Config<K, V>, r: seq<State<K, V>>) {
    && |r| > 0 && Init(c, r[0])
    && forall i :: 0 <= i < |r| - 1 ==> Next(c, r[i], r[i + 1])
  }

  // ---------- Who holds what ----------

  /** How many of its locks an operation holds. */
  ghost function Held<K, V>(op: Op<K, V>, t: Thread<K, V>): nat {
    match t
    case Acquiring(k, _) => k
    case Working(_, _, _) => |Requests(op)|
    case Releasing(k) => k
    case Returned => 0
  }

  ghost predicate Holds<K, V>(op: Op<K, V>, t: Thread<K, V>, q: Req) {
    exists j :: 0 <= j < |Requests(op)| && j < Held(op, t) && Requests(op)[j] == q
  }

  /** The lock of map `a` records operation `i` exactly as that operation sees itself. */
  ghost predicate LockOk<K, V>(c: Config<K, V>, s: State<K, V>, a: nat, i: nat)
    requires a < |s.locks| && i < |s.threads| == |c.ops|
  {
    var l, op, t := s.locks[a], c.ops[i], s.threads[i];
    && (l.writer == Some(i) <==> Holds(op, t, Req(a, true)))
    && (i in l.readers <==> Holds(op, t, Req(a, false)))
    && (l.pending == Some(i) <==> t.Acquiring? && t.announced && Wants(c, s, i) && Wanted(c, s, i) == Req(a, true))
  }

  ghost predicate Exclusive(l: Lock, n: nat) {
    && (l.writer.Some? ==> l.readers == {} && l.pending == None && l.writer.value < n)
    && (l.pending.Some? ==> l.pending.value < n)
    && (forall i :: i in l.readers ==> i < n)
  }

  ghost predicate ThreadOk<K, V>(op: Op<K, V>, t: Thread<K, V>) {
    && Held(op, t) <= |Requests(op)|
    && (t.Acquiring? && t.announced ==> t.k < |Requests(op)| && Requests(op)[t.k].write)
    && (t.Working? ==> Requests(op) != [])
  }

  /** A working operation finds its maps as it left them. */
  ghost predicate WorkOk<K, V>(op: Op<K, V>, t: Thread<K, V>, contents: seq<map<K, V>>) {
    t.Working? ==>
      && Target(op) < |contents|
      && (op.Merge? ==>
            && op.src < |contents| && contents[op.src] == t.source && t.copied <= t.source.Keys
            && contents[op.dst] == t.base + map key | key in t.copied :: t.source[key])
      && (!op.Merge? ==> contents[Target(op)] == t.base)
  }

  ghost predicate Inv<K, V>(c: Config<K, V>, s: State<K, V>) {
    && c.Valid() && |s.locks| == c.maps == |s.contents| && |s.threads| == |c.ops|
    && (forall a, i :: 0 <= a < |s.locks| && 0 <= i < |s.threads| ==> LockOk(c, s, a, i))
    && (forall a :: 0 <= a < |s.locks| ==> Exclusive(s.locks[a], |c.ops|))
    && (forall i :: 0 <= i < |s.threads| ==> ThreadOk(c.ops[i], s.threads[i]))
    && (forall i :: 0 <= i < |s.threads| ==> WorkOk(c.ops[i], s.threads[i], s.contents))
  }

  lemma InitInv<K, V>(c: Config<K, V>, s: State<K, V>)
    requires Init(c, s)
    ensures Inv(c, s)
  {
  }

  /** Every operation takes its locks in strictly ascending address order. */
  lemma Ascending<K, V>(op: Op<K, V>, j: nat, k: nat)
    requires j < k < |Requests(op)|
    ensures Requests(op)[j].a < Requests(op)[k].a
  {
  }

  lemma LockTaken<K, V>(c: Config<K, V>, s: State<K, V>, act: Action<K>, a: nat, i: nat)
    requires |s.threads| == |c.ops| && Enabled(c, s, act) && a < |s.locks| && i < |s.threads|
    requires act.Announce? || act.TakeWrite? || act.TakeRead?
    requires LockOk(c, s, a, i) && LockOk(c, s, a, act.i) && Exclusive(s.locks[a], |c.ops|)
    ensures LockOk(c, Apply(c, s, act), a, i)
  {
  }

  lemma LockReleased<K, V>(c: Config<K, V>, s: State<K, V>, act: Action<K>, a: nat, i: nat)
    requires |s.threads| == |c.ops| && Enabled(c, s, act) && a < |s.locks| && i < |s.threads|
    requires act.Release?
    requires LockOk(c, s, a, i) && LockOk(c, s, a, act.i) && Exclusive(s.locks[a], |c.ops|)
    ensures LockOk(c, Apply(c, s, act), a, i)
  {
  }

  lemma LockStep<K, V>(c: Config<K, V>, s: State<K, V>, act: Action<K>, a: nat, i: nat)
    requires Inv(c, s) && Enabled(c, s, act) && a < |s.locks| && i < |s.threads|
    ensures LockOk(c, Apply(c, s, act), a, i)
  {
    assert LockOk(c, s, a, i) && LockOk(c, s, a, act.i);
    if act.Announce? || act.TakeWrite? || act.TakeRead? {
      LockTaken(c, s, act, a, i);
    } else if act.Release? {
      LockReleased(c, s, act, a, i);
    } else {
      assert Apply(c, s, act).locks == s.locks;
    }
  }

  lemma ExclusiveStep<K, V>(c: Config<K, V>, s: State<K, V>, act: Action<K>, a: nat)
    requires |s.threads| == |c.ops| && Enabled(c, s, act) && a < |s.locks|
    requires Exclusive(s.locks[a], |c.ops|) && LockOk(c, s, a, act.i)
    ensures a < |Apply(c, s, act).locks| && Exclusive(Apply(c, s, act).locks[a], |c.ops|)
  {
  }

  lemma ThreadStep<K, V>(c: Config<K, V>, s: State<K, V>, act: Action<K>, i: nat)
    requires Enabled(c, s, act) && i < |s.threads| == |c.ops| && ThreadOk(c.ops[i], s.threads[i])
    ensures |Apply(c, s, act).threads| == |s.threads| && ThreadOk(c.ops[i], Apply(c, s, act).threads[i])
  {
  }

  /** Only the holder of its write lock changes a map. */
  lemma OnlyWriterChanges<K, V>(c: Config<K, V>, s: State<K, V>, act: Action<K>, a: nat)
    requires Inv(c, s) && Enabled(c, s, act) && a < |s.contents|
    ensures |Apply(c, s, act).contents| == |s.contents|
    ensures Apply(c, s, act).contents[a] != s.contents[a] ==> s.locks[a].writer == Some(act.i)
  {
    var op, t := c.ops[act.i], s.threads[act.i];
    assert LockOk(c, s, a, act.i);
    if (act.Copy? || act.Finish?) && a == Target(op) && !op.Read? {
      var j := if op.Write? || op.dst < op.src then 0 else 1;
      assert ThreadOk(op, t);
      assert Requests(op)[j] == Req(a, true);
      assert Holds(op, t, Req(a, true));
    }
  }

  /** While an operation works, nobody else changes its target or its source. */
  lemma Undisturbed<K, V>(c: Config<K, V>, s: State<K, V>, act: Action<K>, i: nat)
    requires Inv(c, s) && Enabled(c, s, act) && i < |s.threads| && i != act.i && s.threads[i].Working?
    ensures |Apply(c, s, act).contents| == |s.contents|
    ensures Apply(c, s, act).contents[Target(c.ops[i])] == s.contents[Target(c.ops[i])]
    ensures c.ops[i].Merge? ==> Apply(c, s, act).contents[c.ops[i].src] == s.contents[c.ops[i].src]
  {
    var op, t := c.ops[i], s.threads[i];
    assert ThreadOk(op, t);
    forall j | 0 <= j < |Requests(op)|
      ensures var a := Requests(op)[j].a; Apply(c, s, act).contents[a] == s.contents[a]
    {
      var q := Requests(op)[j];
      assert Holds(op, t, q);
      assert LockOk(c, s, q.a, i);
      OnlyWriterChanges(c, s, act, q.a);
    }
    if op.Merge? {
      assert Requests(op)[0].a != Requests(op)[1].a;
    } else {
      assert Requests(op)[0].a == op.a;
    }
  }

  lemma WorkStep<K, V>(c: Config<K, V>, s: State<K, V>, act: Action<K>, i: nat)
    requires Inv(c, s) && Enabled(c, s, act) && i < |s.threads|
    ensures |Apply(c, s, act).threads| == |s.threads| && WorkOk(c.ops[i], Apply(c, s, act).threads[i], Apply(c, s, act).contents)
  {
    assert WorkOk(c.ops[i], s.threads[i], s.contents);
    if i != act.i {
      if s.threads[i].Working? {
        Undisturbed(c, s, act, i);
      }
    } else if act.Copy? {
      assert ThreadOk(c.ops[i], s.threads[i]);
      var t, t' := s.threads[i], Apply(c, s, act).threads[i];
      assert (map key | key in t'.copied :: t.source[key]) == (map key | key in t.copied :: t.source[key])[act.key := t.source[act.key]];
    }
  }

  lemma InvStep<K, V>(c: Config<K, V>, s: State<K, V>, act: Action<K>)
    requires Inv(c, s) && Enabled(c, s, act)
    ensures Inv(c, Apply(c, s, act))
  {
    var s' := Apply(c, s, act);
    assert |s'.locks| == |s.locks| && |s'.threads| == |s.threads| && |s'.contents| == |s.contents|;
    hide Apply;
    forall a, i | 0 <= a < |s'.locks| && 0 <= i < |s'.threads|
      ensures LockOk(c, s', a, i)
    {
      LockStep(c, s, act, a, i);
    }
    forall a | 0 <= a < |s'.locks|
      ensures Exclusive(s'.locks[a], |c.ops|)
    {
      assert LockOk(c, s, a, act.i);
      ExclusiveStep(c, s, act, a);
    }
    forall i | 0 <= i < |s'.threads|
      ensures ThreadOk(c.ops[i], s'.threads[i]) && WorkOk(c.ops[i], s'.threads[i], s'.contents)
    {
      assert ThreadOk(c.ops[i], s.threads[i]);
      ThreadStep(c, s, act, i);
      WorkStep(c, s, act, i);
    }
  }

  lemma {:induction false} RunInv<K(!new), V>(c: Config<K, V>, r: seq<State<K, V>>, i: nat)
    requires Run(c, r) && i < |r|
    ensures Inv(c, r[i])
  {
    if i == 0 {
      InitInv(c, r[0]);
    } else {
      hide Apply;
      RunInv(c, r, i - 1);
      assert Next(c, r[i - 1], r[i - 1 + 1]);
      var a :| Enabled(c, r[i - 1], a) && r[i] == Apply(c, r[i - 1], a);
      InvStep(c, r[i - 1], a);
    }
  }

  // ---------- Deadlock freedom ----------

  /** Whoever holds the lock of `q` can move, or waits for a lock further up, whose holder can. */
  lemma HolderMoves<K, V>(c: Config<K, V>, s: State<K, V>, u: nat, q: Req) returns (act: Action<K>)
    requires Inv(c, s) && u < |s.threads| && q.a < c.maps && Holds(c.ops[u], s.threads[u], q)
    ensures Enabled(c, s, act)
    decreases c.maps - q.a, 0
  {
    assert ThreadOk(c.ops[u], s.threads[u]);
    if Wants(c, s, u) {
      var j :| 0 <= j < |Requests(c.ops[u])| && j < s.threads[u].k && Requests(c.ops[u])[j] == q;
      Ascending(c.ops[u], j, s.threads[u].k);
      act := WaiterMoves(c, s, u);
    } else {
      act := NonWaiterMoves(c, s, u);
    }
  }

  /** An announced writer can take its lock, or some reader holds it. */
  lemma AnnouncedMoves<K, V>(c: Config<K, V>, s: State<K, V>, u: nat, a: nat) returns (act: Action<K>)
    requires Inv(c, s) && a < c.maps && s.locks[a].pending == Some(u)
    ensures Enabled(c, s, act)
    decreases c.maps - a, 1
  {
    assert Exclusive(s.locks[a], |c.ops|);
    assert LockOk(c, s, a, u);
    if s.locks[a].readers == {} {
      act := TakeWrite(u);
    } else {
      var v :| v in s.locks[a].readers;
      assert LockOk(c, s, a, v);
      act := HolderMoves(c, s, v, Req(a, false));
    }
  }

  lemma WaiterMoves<K, V>(c: Config<K, V>, s: State<K, V>, i: nat) returns (act: Action<K>)
    requires Inv(c, s) && Wants(c, s, i)
    ensures Enabled(c, s, act)
    decreases c.maps - Wanted(c, s, i).a, 2
  {
    var q := Wanted(c, s, i);
    var l := s.locks[q.a];
    assert LockOk(c, s, q.a, i) && ThreadOk(c.ops[i], s.threads[i]) && Exclusive(l, |c.ops|);
    if l.writer.Some? {
      assert LockOk(c, s, q.a, l.writer.value);
      act := HolderMoves(c, s, l.writer.value, Req(q.a, true));
    } else if l.pending.Some? {
      act := AnnouncedMoves(c, s, l.pending.value, q.a);
    } else {
      act := if q.write then Announce(i) else TakeRead(i);
    }
  }

  lemma NonWaiterMoves<K, V>(c: Config<K, V>, s: State<K, V>, i: nat) returns (act: Action<K>)
    requires Inv(c, s) && i < |s.threads| && !Wants(c, s, i) && !s.threads[i].Returned?
    ensures Enabled(c, s, act)
  {
    var op, t := c.ops[i], s.threads[i];
    assert ThreadOk(op, t) && WorkOk(op, t, s.contents);
    match t {
      case Acquiring(k, _) => act := if Requests(op) == [] then Skip(i) else Begin(i);
      case Working(copied, _, _) =>
        if key :| op.Merge? && key in s.contents[op.src] && key !in copied {
          act := Copy(i, key);
        } else {
          act := Finish(i);
        }
      case Releasing(_) => act := Release(i);
    }
  }

  /** As long as some operation has not returned, some operation can take a step. */
  lemma DeadlockFree<K(!new), V>(c: Config<K, V>, r: seq<State<K, V>>, n: nat, i: nat) returns (act: Action<K>)
    requires Run(c, r) && n < |r| && i < |r[n].threads| && !r[n].threads[i].Returned?
    ensures Enabled(c, r[n], act)
  {
    hide Apply;
    RunInv(c, r, n);
    if Wants(c, r[n], i) {
      act := WaiterMoves(c, r[n], i);
    } else {
      act := NonWaiterMoves(c, r[n], i);
    }
  }

  ghost function Distance<K, V>(): Thread<K, V> -> nat {
    (t: Thread<K, V>) =>
      match t
      case Acquiring(k, announced) => if k <= 2 then 10 - 2 * k - (if announced then 1 else 0) else 0
      case Working(_, _, _) => 5
      case Releasing(k) => k + 1
      case Returned => 0
  }

  ghost function Uncopied<K, V>(): Thread<K, V> -> nat {
    (t: Thread<K, V>) => if t.Working? then |t.source.Keys - t.copied| else 0
  }

  lemma PhaseDecreases<K, V>(c: Config<K, V>, s: State<K, V>, act: Action<K>)
    requires act.i < |s.threads| == |c.ops| && ThreadOk(c.ops[act.i], s.threads[act.i]) && Enabled(c, s, act) && !act.Copy?
    ensures act.i < |Apply(c, s, act).threads|
    ensures Distance<K, V>()(Apply(c, s, act).threads[act.i]) < Distance<K, V>()(s.threads[act.i])
  {
  }

  lemma CopyDecreases<K, V>(c: Config<K, V>, s: State<K, V>, act: Action<K>)
    requires Inv(c, s) && Enabled(c, s, act) && act.Copy?
    ensures act.i < |Apply(c, s, act).threads|
    ensures Uncopied<K, V>()(Apply(c, s, act).threads[act.i]) < Uncopied<K, V>()(s.threads[act.i])
  {
    var t := s.threads[act.i];
    assert WorkOk(c.ops[act.i], t, s.contents);
    assert t.source.Keys - (t.copied + {act.key}) == (t.source.Keys - t.copied) - {act.key};
  }

  /** Every step decreases a lexicographic measure, so that every run ends. */
  lemma StepDecreases<K, V>(c: Config<K, V>, s: State<K, V>, act: Action<K>)
    requires Inv(c, s) && Enabled(c, s, act)
    ensures var s' := Apply(c, s, act);
            Weight(Distance(), s'.threads) < Weight(Distance(), s.threads)
            || (Weight(Distance(), s'.threads) == Weight(Distance(), s.threads)
                && Weight(Uncopied(), s'.threads) < Weight(Uncopied(), s.threads))
  {
    var i, t' := act.i, Apply(c, s, act).threads[act.i];
    assert Apply(c, s, act).threads == s.threads[i := t'];
    if act.Copy? {
      CopyDecreases(c, s, act);
      WeightUpdate(Uncopied(), s.threads, i, t');
    } else {
      assert ThreadOk(c.ops[i], s.threads[i]);
      PhaseDecreases(c, s, act);
    }
    WeightUpdate(Distance(), s.threads, i, t');
  }

  // ---------- What a merge does ----------

  lemma SnapshotStep<K, V>(c: Config<K, V>, s: State<K, V>, act: Action<K>, i: nat)
    requires Enabled(c, s, act) && i < |s.threads| && s.threads[i].Working?
    requires i < |Apply(c, s, act).threads| && Apply(c, s, act).threads[i].Working?
    ensures Apply(c, s, act).threads[i].base == s.threads[i].base && Apply(c, s, act).threads[i].source == s.threads[i].source
  {
  }

  lemma {:induction false} SnapshotKept<K(!new), V>(c: Config<K, V>, r: seq<State<K, V>>, b: nat, f: nat, i: nat)
    requires Run(c, r) && b <= f < |r| && forall j :: b <= j <= f ==> i < |r[j].threads| && r[j].threads[i].Working?
    ensures r[f].threads[i].base == r[b].threads[i].base && r[f].threads[i].source == r[b].threads[i].source
  {
    hide Apply;
    hide Enabled;
    if b < f {
      SnapshotKept(c, r, b, f - 1, i);
      assert Next(c, r[f - 1], r[f - 1 + 1]);
      var act :| Enabled(c, r[f - 1], act) && r[f] == Apply(c, r[f - 1], act);
      SnapshotStep(c, r[f - 1], act, i);
    }
  }

  /**
   From the moment `b` at which a merge has both locks to the moment `f` at which
   it is done, whatever else runs, the effect is to override the target, as it was
   at `b`, by the source, as it was at `b` and still is.
   */
  lemma MergeIsAtomic<K(!new), V>(c: Config<K, V>, r: seq<State<K, V>>, b: nat, f: nat, i: nat)
    requires Run(c, r) && b <= f < |r| && i < |c.ops| && c.ops[i].Merge?
    requires forall j :: b <= j <= f ==> i < |r[j].threads| && r[j].threads[i].Working?
    requires r[b].threads[i].copied == {} && Enabled(c, r[f], Finish(i))
    ensures var dst, src := c.ops[i].dst, c.ops[i].src;
            && dst < |r[b].contents| && src < |r[b].contents| && |r[f].contents| == |r[b].contents|
            && r[f].contents[dst] == r[b].contents[dst] + r[b].contents[src]
            && r[f].contents[src] == r[b].contents[src]
  {
    RunInv(c, r, b);
    RunInv(c, r, f);
    SnapshotKept(c, r, b, f, i);
    assert WorkOk(c.ops[i], r[b].threads[i], r[b].contents);
    assert WorkOk(c.ops[i], r[f].threads[i], r[f].contents);
    var t := r[f].threads[i];
    assert (map key | key in t.copied :: t.source[key]) == t.source;
  }

  // ---------- All operations together ----------

  /** What an operation does to the maps, run by itself. */
  ghost function Effect<K, V>(op: Op<K, V>, contents: seq<map<K, V>>): (r: seq<map<K, V>>)
    requires Target(op) < |contents| && (op.Merge? ==> op.src < |contents|)
    ensures |r| == |contents|
  {
    match op
    case Merge(dst, src) => contents[dst := contents[dst] + contents[src]]
    case Write(a, add, remove) => contents[a := contents[a] - remove + add]
    case Read(_) => contents
  }

  /** Key by key: a merge gives the target the source's entries; a write adds its entries, removes its keys otherwise; all else stays. */
  lemma EffectByKey<K, V>(op: Op<K, V>, contents: seq<map<K, V>>, a: nat, key: K)
    requires Target(op) < |contents| && (op.Merge? ==> op.src < |contents|) && a < |contents|
    ensures var before, after := contents[a], Effect(op, contents)[a];
            match op
            case Merge(dst, src) =>
              if a == dst && key in contents[src] then key in after && after[key] == contents[src][key] else SameAt(before, after, key)
            case Write(at, add, remove) =>
              if a != at then SameAt(before, after, key)
              else if key in add then key in after && after[key] == add[key]
              else if key in remove then key !in after
              else SameAt(before, after, key)
            case Read(_) => SameAt(before, after, key)
  {
  }

  ghost predicate SameAt<K, V>(m: map<K, V>, m': map<K, V>, key: K) {
    (key in m <==> key in m') && (key in m ==> m[key] == m'[key])
  }

  /** A finished write has left its entries, taken out its keys, and touched nothing else. */
  lemma FinishedWrite<K, V>(c: Config<K, V>, s: State<K, V>, i: nat, key: K)
    requires Enabled(c, s, Finish(i)) && c.ops[i].Write?
    ensures var op, s' := c.ops[i], Apply(c, s, Finish(i));
            && |s'.contents| == |s.contents| && op.a < |s.contents|
            && (key in op.add ==> key in s'.contents[op.a] && s'.contents[op.a][key] == op.add[key])
            && (key !in op.add && key in op.remove ==> key !in s'.contents[op.a])
            && (key !in op.add && key !in op.remove ==> SameAt(s.contents[op.a], s'.contents[op.a], key))
            && forall a :: 0 <= a < |s.contents| && a != op.a ==> s'.contents[a] == s.contents[a]
  {
  }

  ghost predicate Names<K, V>(c: Config<K, V>, order: seq<nat>) {
    forall k :: 0 <= k < |order| ==> order[k] < |c.ops|
  }

  /** What the operations in `order` do, run one after the other. */
  ghost function Replay<K, V>(c: Config<K, V>, order: seq<nat>, contents: seq<map<K, V>>): (r: seq<map<K, V>>)
    requires c.Valid() && |contents| == c.maps && Names(c, order)
    ensures |r| == c.maps
  {
    if order == [] then contents else
      Effect(c.ops[order[|order| - 1]], Replay(c, order[..|order| - 1], contents))
  }

  ghost predicate Merging<K, V>(c: Config<K, V>, s: State<K, V>, i: int, a: int) {
    0 <= i < |s.threads| == |c.ops| && s.threads[i].Working? && c.ops[i].Merge? && c.ops[i].dst == a
  }

  /** The contents with the merges in progress not begun. */
  ghost predicate Settled<K, V>(c: Config<K, V>, s: State<K, V>, contents: seq<map<K, V>>) {
    && |contents| == |s.contents|
    && (forall a, i :: 0 <= a < |contents| && Merging(c, s, i, a) ==> contents[a] == s.threads[i].base)
    && (forall a :: 0 <= a < |contents| && (forall i :: !Merging(c, s, i, a)) ==> contents[a] == s.contents[a])
  }

  lemma WorkerHolds<K, V>(c: Config<K, V>, s: State<K, V>, i: nat, q: Req)
    requires Inv(c, s) && i < |s.threads| && s.threads[i].Working? && q in Requests(c.ops[i]) && q.a < |s.locks|
    ensures if q.write then s.locks[q.a].writer == Some(i) else s.locks[q.a].writer == None
  {
    var x :| 0 <= x < |Requests(c.ops[i])| && Requests(c.ops[i])[x] == q;
    assert Holds(c.ops[i], s.threads[i], q);
    assert LockOk(c, s, q.a, i) && Exclusive(s.locks[q.a], |c.ops|);
  }

  lemma MergeRequests<K, V>(op: Op<K, V>)
    requires op.Merge? && Requests(op) != []
    ensures Req(op.dst, true) in Requests(op) && Req(op.src, false) in Requests(op) && op.dst != op.src
  {
  }

  /** An operation at work excludes every merge by another into a map that it has locked. */
  lemma NobodyMerges<K, V>(c: Config<K, V>, s: State<K, V>, i: nat, j: int, q: Req)
    requires Inv(c, s) && i < |s.threads| && i != j && s.threads[i].Working? && q in Requests(c.ops[i]) && q.a < |s.locks|
    ensures !Merging(c, s, j, q.a)
  {
    WorkerHolds(c, s, i, q);
    if Merging(c, s, j, q.a) {
      assert ThreadOk(c.ops[j], s.threads[j]);
      MergeRequests(c.ops[j]);
      WorkerHolds(c, s, j, Req(q.a, true));
    }
  }

  /** Other actions than Begin, Copy and Finish concern no contents. */
  lemma SettledElse<K, V>(c: Config<K, V>, s: State<K, V>, act: Action<K>, contents: seq<map<K, V>>)
    requires Inv(c, s) && Enabled(c, s, act) && Settled(c, s, contents)
    requires !act.Begin? && !act.Copy? && !act.Finish?
    ensures Settled(c, Apply(c, s, act), contents)
  {
    var s' := Apply(c, s, act);
    assert s'.contents == s.contents && s'.threads == s.threads[act.i := s'.threads[act.i]];
    assert !s'.threads[act.i].Working? && !s.threads[act.i].Working?;
    hide Apply;
    hide Inv;
    assert forall j, a :: Merging(c, s', j, a) <==> Merging(c, s, j, a);
  }

  lemma SettledBegin<K, V>(c: Config<K, V>, s: State<K, V>, i: nat, contents: seq<map<K, V>>)
    requires Inv(c, s) && Enabled(c, s, Begin(i)) && Settled(c, s, contents)
    requires Inv(c, Apply(c, s, Begin(i)))
    ensures Settled(c, Apply(c, s, Begin(i)), contents)
  {
    var s', op := Apply(c, s, Begin(i)), c.ops[i];
    assert s'.contents == s.contents && s'.threads == s.threads[i := s'.threads[i]];
    assert forall j, a :: j != i ==> (Merging(c, s', j, a) <==> Merging(c, s, j, a));
    assert forall a :: !Merging(c, s, i, a);
    if op.Merge? {
      MergeRequests(op);
      forall j
        ensures !Merging(c, s, j, op.dst)
      {
        if j != i {
          NobodyMerges(c, s', i, j, Req(op.dst, true));
        }
      }
      assert contents[op.dst] == s.contents[op.dst] == s'.threads[i].base;
    }
  }

  lemma SettledCopy<K, V>(c: Config<K, V>, s: State<K, V>, i: nat, key: K, contents: seq<map<K, V>>)
    requires Inv(c, s) && Enabled(c, s, Copy(i, key)) && Settled(c, s, contents)
    ensures Settled(c, Apply(c, s, Copy(i, key)), contents)
  {
    var s', op := Apply(c, s, Copy(i, key)), c.ops[i];
    assert s'.threads == s.threads[i := s'.threads[i]] && s'.threads[i].base == s.threads[i].base;
    assert s'.contents == s.contents[op.dst := s'.contents[op.dst]];
    assert forall j, a :: Merging(c, s', j, a) <==> Merging(c, s, j, a);
    assert Merging(c, s', i, op.dst);
  }

  /** A merge that is done has had its effect on the settled contents, too. */
  lemma SettledFinish<K, V>(c: Config<K, V>, s: State<K, V>, i: nat, contents: seq<map<K, V>>)
    requires Inv(c, s) && Enabled(c, s, Finish(i)) && Settled(c, s, contents)
    ensures Settled(c, Apply(c, s, Finish(i)), Effect(c.ops[i], contents))
  {
    var s', op, t := Apply(c, s, Finish(i)), c.ops[i], s.threads[i];
    assert ThreadOk(op, t) && WorkOk(op, t, s.contents);
    assert s'.threads == s.threads[i := s'.threads[i]] && !s'.threads[i].Working?;
    assert forall j, a :: j != i ==> (Merging(c, s', j, a) <==> Merging(c, s, j, a));
    assert forall a :: !Merging(c, s', i, a);
    if op.Merge? {
      FinishedMerge(c, s, i, contents);
    } else if op.Write? {
      assert Requests(op) == [Req(op.a, true)];
      forall j
        ensures !Merging(c, s, j, op.a)
      {
        if j != i {
          NobodyMerges(c, s, i, j, Req(op.a, true));
        }
      }
    }
  }

  lemma FinishedMerge<K, V>(c: Config<K, V>, s: State<K, V>, i: nat, contents: seq<map<K, V>>)
    requires Inv(c, s) && Enabled(c, s, Finish(i)) && Settled(c, s, contents) && c.ops[i].Merge?
    ensures var dst := c.ops[i].dst;
            && s.contents[dst] == contents[dst] + contents[c.ops[i].src]
            && forall j :: j != i ==> !Merging(c, s, j, dst)
  {
    var op, t := c.ops[i], s.threads[i];
    assert ThreadOk(op, t) && WorkOk(op, t, s.contents);
    MergeRequests(op);
    forall j | j != i
      ensures !Merging(c, s, j, op.dst) && !Merging(c, s, j, op.src)
    {
      NobodyMerges(c, s, i, j, Req(op.dst, true));
      NobodyMerges(c, s, i, j, Req(op.src, false));
    }
    assert Merging(c, s, i, op.dst) && !Merging(c, s, i, op.src);
    assert (map key | key in t.copied :: t.source[key]) == t.source;
  }

  /** `order` lists the operations that have done their work, each once. */
  ghost predicate Lists<K, V>(c: Config<K, V>, s: State<K, V>, order: seq<nat>) {
    && |s.threads| == |c.ops| && Names(c, order)
    && (forall i :: 0 <= i < |s.threads| ==> (i in order <==> s.threads[i].Releasing? || s.threads[i].Returned?))
    && (forall j, k :: 0 <= j < k < |order| ==> order[j] != order[k])
  }

  /** Such an order explains the settled contents. */
  ghost predicate Explains<K, V>(c: Config<K, V>, s: State<K, V>, order: seq<nat>, contents: seq<map<K, V>>) {
    c.Valid() && |contents| == c.maps && Lists(c, s, order) && Settled(c, s, Replay(c, order, contents))
  }

  lemma ListsStep<K, V>(c: Config<K, V>, s: State<K, V>, act: Action<K>, order: seq<nat>)
    requires Enabled(c, s, act) && Lists(c, s, order)
    ensures Lists(c, Apply(c, s, act), if act.Finish? || act.Skip? then order + [act.i] else order)
  {
    var s' := Apply(c, s, act);
    assert s'.threads == s.threads[act.i := s'.threads[act.i]];
    if act.Finish? || act.Skip? {
      assert act.i !in order && (s'.threads[act.i].Releasing? || s'.threads[act.i].Returned?);
      assert forall i :: i in order + [act.i] <==> i in order || i == act.i;
    }
  }

  lemma ReplayNext<K, V>(c: Config<K, V>, order: seq<nat>, i: nat, contents: seq<map<K, V>>)
    requires c.Valid() && |contents| == c.maps && Names(c, order) && i < |c.ops|
    ensures Replay(c, order + [i], contents) == Effect(c.ops[i], Replay(c, order, contents))
  {
    assert (order + [i])[..|order|] == order;
  }

  lemma ExplainsStep<K, V>(c: Config<K, V>, s: State<K, V>, act: Action<K>, order: seq<nat>, contents: seq<map<K, V>>)
    returns (order': seq<nat>)
    requires Inv(c, s) && Enabled(c, s, act) && Explains(c, s, order, contents)
    ensures Explains(c, Apply(c, s, act), order', contents) && order <= order'
  {
    InvStep(c, s, act);
    ListsStep(c, s, act, order);
    hide Apply;
    hide Enabled;
    hide Inv;
    hide Lists;
    hide Settled;
    var replayed := Replay(c, order, contents);
    order' := if act.Finish? || act.Skip? then order + [act.i] else order;
    if act.Finish? {
      SettledFinish(c, s, act.i, replayed);
      ListedNames(c, s, order);
      ReplayNext(c, order, act.i, contents);
    } else if act.Skip? {
      SettledElse(c, s, act, replayed);
      SkipNothing(c, s, act.i, replayed);
      ListedNames(c, s, order);
      ReplayNext(c, order, act.i, contents);
    } else if act.Begin? {
      SettledBegin(c, s, act.i, replayed);
    } else if act.Copy? {
      SettledCopy(c, s, act.i, act.key, replayed);
    } else {
      SettledElse(c, s, act, replayed);
    }
  }

  lemma ListedNames<K, V>(c: Config<K, V>, s: State<K, V>, order: seq<nat>)
    requires Lists(c, s, order)
    ensures Names(c, order)
  {
  }

  /** A merge of a map with itself does nothing. */
  lemma SkipNothing<K, V>(c: Config<K, V>, s: State<K, V>, i: nat, contents: seq<map<K, V>>)
    requires c.Valid() && Enabled(c, s, Skip(i)) && |contents| == c.maps
    ensures i < |c.ops| && Effect(c.ops[i], contents) == contents
  {
    var op := c.ops[i];
    assert contents[op.dst] + contents[op.src] == contents[op.dst];
  }

  lemma {:induction false} Explained<K(!new), V>(c: Config<K, V>, r: seq<State<K, V>>, n: nat) returns (order: seq<nat>)
    requires Run(c, r) && n < |r|
    ensures Explains(c, r[n], order, r[0].contents)
  {
    hide Apply;
    if n == 0 {
      order := [];
    } else {
      order := Explained(c, r, n - 1);
      RunInv(c, r, n - 1);
      assert Next(c, r[n - 1], r[n - 1 + 1]);
      var act :| Enabled(c, r[n - 1], act) && r[n] == Apply(c, r[n - 1], act);
      order := ExplainsStep(c, r[n - 1], act, order, r[0].contents);
    }
  }

  ghost predicate AllReturned<K, V>(s: State<K, V>) {
    forall i :: 0 <= i < |s.threads| ==> s.threads[i].Returned?
  }

  /**
   However the operations interleave, once all have returned the maps are as if they
   had been run one after the other, in some order that has each of them once.
   */
  lemma Serializable<K(!new), V>(c: Config<K, V>, r: seq<State<K, V>>) returns (order: seq<nat>)
    requires Run(c, r) && AllReturned(r[|r| - 1])
    ensures |r[0].contents| == c.maps && c.Valid() && Names(c, order) && forall i: nat :: i < |c.ops| ==> i in order
    ensures forall j, k :: 0 <= j < k < |order| ==> order[j] != order[k]
    ensures r[|r| - 1].contents == Replay(c, order, r[0].contents)
  {
    var s := r[|r| - 1];
    order := Explained(c, r, |r| - 1);
    var replayed := Replay(c, order, r[0].contents);
    assert forall i, a {:trigger Merging(c, s, i, a)} :: !Merging(c, s, i, a);
    assert s.contents == replayed;
  }
}
