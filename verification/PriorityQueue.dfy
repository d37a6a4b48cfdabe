/**
 tools/collection/priorityqueue.go: a priority queue over Go's container/heap. The
 array is a slice that is swapped in place, appended to and truncated; `Up` and
 `Down` are the sift loops of container/heap as its documentation describes them.
 */
module PriorityQueue {

  ghost predicate StrictWeakOrder<T(!new)>(less: (T, T) -> bool) {
    && (forall x :: !less(x, x))
    && (forall x, y, z :: less(x, y) && less(y, z) ==> less(x, z))
    && (forall x, y, z :: !less(x, y) && !less(y, z) ==> !less(x, z))
  }

  function Parent(j: nat): nat {
    if j == 0 then 0 else (j - 1) / 2
  }

  /** No element is less than its parent. */
  ghost predicate IsHeap<T>(less: (T, T) -> bool, arr: seq<T>) {
    forall j :: 0 < j < |arr| ==> !less(arr[j], arr[Parent(j)])
  }

  /** What Push promises. */
  ghost predicate Pushed<T>(less: (T, T) -> bool, arr: seq<T>, e: T, arr': seq<T>) {
    && multiset(arr') == multiset(arr) + multiset{e}
    && IsHeap(less, arr')
  }

  ghost predicate IsLeast<T>(less: (T, T) -> bool, e: T, arr: seq<T>) {
    e in arr && forall i :: 0 <= i < |arr| ==> !less(arr[i], e)
  }

  /** What Pop promises of a non-empty queue. */
  ghost predicate Popped<T>(less: (T, T) -> bool, arr: seq<T>, e: T, arr': seq<T>) {
    && arr != [] && e == arr[0] && IsLeast(less, e, arr)
    && multiset(arr) == multiset(arr') + multiset{e}
    && IsHeap(less, arr')
  }

  /** The root of a heap is a least element. */
  lemma {:induction false} RootLeast<T(!new)>(less: (T, T) -> bool, arr: seq<T>, j: nat)
    requires StrictWeakOrder(less) && IsHeap(less, arr) && j < |arr|
    ensures !less(arr[j], arr[0])
  {
    if j > 0 {
      RootLeast(less, arr, Parent(j));
      assert !less(arr[j], arr[Parent(j)]);
    }
  }

  function Swapped<T>(arr: seq<T>, i: nat, j: nat): seq<T>
    requires i < |arr| && j < |arr|
  {
    arr[i := arr[j]][j := arr[i]]
  }

  lemma SwappedBag<T>(arr: seq<T>, i: nat, j: nat)
    requires i < |arr| && j < |arr|
    ensures multiset(Swapped(arr, i, j)) == multiset(arr)
  {
  }

  /** A heap but for element `j`, which may be less than its parent; its children are not less than that parent. */
  ghost predicate HeapButUp<T>(less: (T, T) -> bool, arr: seq<T>, j: nat) {
    && (forall k :: 0 < k < |arr| && k != j ==> !less(arr[k], arr[Parent(k)]))
    && (forall k :: 0 < k < |arr| && Parent(k) == j && 0 < j < |arr| ==> !less(arr[k], arr[Parent(j)]))
  }

  /** The first `n` form a heap but for element `i`, whose children may be less than it but not than its parent. */
  ghost predicate HeapButDown<T>(less: (T, T) -> bool, arr: seq<T>, i: nat, n: nat)
    requires n <= |arr|
  {
    && (forall k :: 0 < k < n && Parent(k) != i ==> !less(arr[k], arr[Parent(k)]))
    && (forall k :: 0 < k < n && Parent(k) == i && 0 < i ==> !less(arr[k], arr[Parent(i)]))
  }

  lemma UpStep<T(!new)>(less: (T, T) -> bool, arr: seq<T>, j: nat)
    requires StrictWeakOrder(less) && 0 < j < |arr| && HeapButUp(less, arr, j) && less(arr[j], arr[Parent(j)])
    ensures HeapButUp(less, Swapped(arr, Parent(j), j), Parent(j))
  {
  }

  lemma DownStep<T(!new)>(less: (T, T) -> bool, arr: seq<T>, i: nat, j: nat, n: nat)
    requires StrictWeakOrder(less) && i < j < n <= |arr| && Parent(j) == i && HeapButDown(less, arr, i, n)
    requires less(arr[j], arr[i])
    requires forall k :: 0 < k < n && Parent(k) == i ==> !less(arr[k], arr[j])
    ensures HeapButDown(less, Swapped(arr, i, j), j, n)
  {
    var arr' := Swapped(arr, i, j);
    forall k | 0 < k < n && Parent(k) != j
      ensures !less(arr'[k], arr'[Parent(k)])
    {
      assert Parent(k) != i ==> !less(arr[k], arr[Parent(k)]);
    }
  }

  lemma DownDone<T>(less: (T, T) -> bool, arr: seq<T>, i: nat, n: nat)
    requires n <= |arr| && HeapButDown(less, arr, i, n)
    requires forall k :: 0 < k < n && Parent(k) == i ==> !less(arr[k], arr[i])
    ensures IsHeap(less, arr[..n])
  {
  }

  /** The child of `i` that the sift-down compares with it: the second if it exists and is less than the first. */
  ghost predicate Chosen<T>(less: (T, T) -> bool, arr: seq<T>, i: nat, j: nat, n: nat)
    requires 2 * i + 1 < n <= |arr|
  {
    j == if 2 * i + 2 < n && less(arr[2 * i + 2], arr[2 * i + 1]) then 2 * i + 2 else 2 * i + 1
  }

  lemma ChosenIsLeast<T(!new)>(less: (T, T) -> bool, arr: seq<T>, i: nat, j: nat, n: nat)
    requires StrictWeakOrder(less) && 2 * i + 1 < n <= |arr| && Chosen(less, arr, i, j, n)
    ensures i < j < n && Parent(j) == i
    ensures forall k :: 0 < k < n && Parent(k) == i ==> !less(arr[k], arr[j])
  {
    forall k | 0 < k < n && Parent(k) == i
      ensures !less(arr[k], arr[j])
    {
      assert k == 2 * i + 1 || k == 2 * i + 2;
    }
  }

  lemma NoLessChild<T(!new)>(less: (T, T) -> bool, arr: seq<T>, i: nat, j: nat, n: nat)
    requires StrictWeakOrder(less) && 2 * i + 1 < n <= |arr| && Chosen(less, arr, i, j, n) && !less(arr[j], arr[i])
    requires HeapButDown(less, arr, i, n)
    ensures IsHeap(less, arr[..n])
  {
    ChosenIsLeast(less, arr, i, j, n);
    DownDone(less, arr, i, n);
  }

  lemma NoChild<T>(less: (T, T) -> bool, arr: seq<T>, i: nat, n: nat)
    requires 2 * i + 1 >= n && n <= |arr| && HeapButDown(less, arr, i, n)
    ensures IsHeap(less, arr[..n])
  {
    DownDone(less, arr, i, n);
  }

  lemma SiftDownStep<T(!new)>(less: (T, T) -> bool, arr: seq<T>, i: nat, j: nat, n: nat)
    requires StrictWeakOrder(less) && 2 * i + 1 < n <= |arr| && Chosen(less, arr, i, j, n) && less(arr[j], arr[i])
    requires HeapButDown(less, arr, i, n)
    ensures i < j < n && HeapButDown(less, Swapped(arr, i, j), j, n)
    ensures multiset(Swapped(arr, i, j)) == multiset(arr) && Swapped(arr, i, j)[n..] == arr[n..]
  {
    ChosenIsLeast(less, arr, i, j, n);
    DownStep(less, arr, i, j, n);
    SwappedBag(arr, i, j);
  }

  class PriorityQueue<T(!new)> {
    var arr: seq<T>
    const less: (T, T) -> bool
    const zero: T

    ghost predicate Valid()
      reads this
    {
      StrictWeakOrder(less) && IsHeap(less, arr)
    }

    constructor (less: (T, T) -> bool, zero: T)
      requires StrictWeakOrder(less)
      ensures Valid() && arr == [] && this.less == less && this.zero == zero
    {
      this.less := less;
      this.zero := zero;
      arr := [];
    }

    method Push(e: T)
      requires Valid()
      modifies this
      ensures Valid() && Pushed(less, old(arr), e, arr)
    {
      arr := arr + [e];
      Up(|arr| - 1);
    }

    method Up(j0: nat)
      requires StrictWeakOrder(less) && j0 < |arr| && HeapButUp(less, arr, j0)
      modifies this
      ensures IsHeap(less, arr) && multiset(arr) == multiset(old(arr))
    {
      var j: nat := j0;
      while true
        invariant j < |arr| && HeapButUp(less, arr, j) && multiset(arr) == multiset(old(arr))
        decreases j
      {
        var i := if j == 0 then 0 else (j - 1) / 2;
        if i == j || !less(arr[j], arr[i]) {
          break;
        }
        UpStep(less, arr, j);
        SwappedBag(arr, i, j);
        arr := Swapped(arr, i, j);
        j := i;
      }
    }

    /** The empty queue answers with the zero value. */
    method Pop() returns (e: T)
      requires Valid()
      modifies this
      ensures Valid()
      ensures old(arr) == [] ==> e == zero && arr == []
      ensures old(arr) != [] ==> Popped(less, old(arr), e, arr)
    {
      if |arr| == 0 {
        return zero;
      }
      forall k | 0 <= k < |arr|
        ensures !less(arr[k], arr[0])
      {
        RootLeast(less, arr, k);
      }
      var n := |arr| - 1;
      SwappedBag(arr, 0, n);
      arr := Swapped(arr, 0, n);
      Down(n);
      e := arr[n];
      assert arr == arr[..n] + [e];
      arr := arr[..n];
    }

    /** container/heap.down from the root, within the first `n` elements. */
    method Down(n: nat)
      requires StrictWeakOrder(less) && n <= |arr| && HeapButDown(less, arr, 0, n)
      modifies this
      ensures |arr| == |old(arr)| && IsHeap(less, arr[..n]) && arr[n..] == old(arr[n..])
      ensures multiset(arr) == multiset(old(arr))
    {
      var i: nat := 0;
      while true
        invariant |arr| == |old(arr)| && HeapButDown(less, arr, i, n)
        invariant arr[n..] == old(arr[n..]) && multiset(arr) == multiset(old(arr))
        decreases n - i
      {
        var j1 := 2 * i + 1;
        if j1 >= n {
          NoChild(less, arr, i, n);
          return;
        }
        var j := j1;
        var j2 := j1 + 1;
        if j2 < n && less(arr[j2], arr[j1]) {
          j := j2;
        }
        if !less(arr[j], arr[i]) {
          NoLessChild(less, arr, i, j, n);
          return;
        }
        SiftDownStep(less, arr, i, j, n);
        arr := Swapped(arr, i, j);
        i := j;
      }
    }

    method Peek() returns (e: T)
      requires Valid()
      ensures arr == [] ==> e == zero
      ensures arr != [] ==> IsLeast(less, e, arr)
    {
      if |arr| == 0 {
        return zero;
      }
      forall k | 0 <= k < |arr|
        ensures !less(arr[k], arr[0])
      {
        RootLeast(less, arr, k);
      }
      e := arr[0];
    }
  }

  /** No element is less than one before it. */
  ghost predicate Ordered<T>(less: (T, T) -> bool, s: seq<T>) {
    forall i, j :: 0 <= i < j < |s| ==> !less(s[j], s[i])
  }

  /** Popping until empty yields everything that was in the queue, in order. */
  method PopAll<T(!new)>(q: PriorityQueue<T>) returns (out: seq<T>)
    requires q.Valid()
    modifies q
    ensures Ordered(q.less, out) && multiset(out) == multiset(old(q.arr)) && q.arr == [] && q.Valid()
  {
    out := [];
    while q.arr != []
      invariant q.Valid() && Ordered(q.less, out)
      invariant multiset(out) + multiset(q.arr) == multiset(old(q.arr))
      invariant forall i, x :: 0 <= i < |out| && x in multiset(q.arr) ==> !q.less(x, out[i])
      decreases |q.arr|
    {
      ghost var arr := q.arr;
      var e := q.Pop();
      assert |multiset(arr)| == |multiset(q.arr)| + 1;
      assert forall x :: x in multiset(q.arr) ==> x in multiset(arr);
      assert e in multiset(arr);
      forall x | x in multiset(q.arr)
        ensures !q.less(x, e)
      {
        assert x in arr;
      }
      out := out + [e];
    }
  }
}
