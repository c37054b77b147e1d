/**
  `PatchPriority` driven by Go's container/heap. The slice's `Less` is
  inverted (`h[i].priority > h[j].priority`), so the heap container/heap
  maintains is a max-heap on priority: `heap.Pop` hands out a
  highest-priority item first. The sift-up and sift-down loops of
  container/heap are modelled as the recursive functions `Up` and `Down`.
 */
module PatchHeap {

  /** `PrioritizedPatchParams`: a payload with the priority it is ordered by. */
  datatype Prioritized<T> = Prioritized(priority: int, item: T)

  type Heap<T> = seq<Prioritized<T>>

  /** `PatchPriority.Less`: the inverted comparison, higher priority sorts first. */
  predicate Less<T>(h: Heap<T>, i: nat, j: nat)
    requires i < |h| && j < |h|
  {
    h[i].priority > h[j].priority
  }

  /** `PatchPriority.Swap`. */
  function Swap<T>(h: Heap<T>, i: nat, j: nat): (r: Heap<T>)
    requires i < |h| && j < |h|
    ensures |r| == |h| && r[i] == h[j] && r[j] == h[i]
    ensures forall k :: 0 <= k < |h| && k != i && k != j ==> r[k] == h[k]
    ensures multiset(r) == multiset(h)
  {
    h[i := h[j]][j := h[i]]
  }

  /**
    container/heap's parent index `(j - 1) / 2`. Go's division truncates
    toward zero, so the root's "parent" is the root itself; that is how the
    sift-up loop stops at index 0.
   */
  function Parent(j: nat): (p: nat)
    ensures j > 0 ==> p < j && (p * 2 + 1 == j || p * 2 + 2 == j)
    ensures j == 0 ==> p == 0
  {
    if j == 0 then 0 else (j - 1) / 2
  }

  /** The heap order on the first `n` slots: no item outranks its parent. */
  ghost predicate HeapUpTo<T>(h: Heap<T>, n: nat)
    requires n <= |h|
  {
    forall k :: 0 < k < n ==> h[Parent(k)].priority >= h[k].priority
  }

  ghost predicate IsHeap<T>(h: Heap<T>)
  {
    HeapUpTo(h, |h|)
  }

  /** The order holds everywhere except possibly between `j` and its parent. */
  ghost predicate UpInvariant<T>(h: Heap<T>, j: nat)
    requires j < |h|
  {
    && (forall k :: 0 < k < |h| && k != j ==> h[Parent(k)].priority >= h[k].priority)
    && (j > 0 ==> forall k :: 0 < k < |h| && Parent(k) == j ==> h[Parent(j)].priority >= h[k].priority)
  }

  /** The order holds on the first `n` slots except possibly between `i` and its children. */
  ghost predicate DownInvariant<T>(h: Heap<T>, i: nat, n: nat)
    requires n <= |h|
  {
    && (forall k :: 0 < k < n && Parent(k) != i ==> h[Parent(k)].priority >= h[k].priority)
    && (i > 0 ==> forall k :: 0 < k < n && Parent(k) == i ==> h[Parent(i)].priority >= h[k].priority)
  }

  /** container/heap's `up`: swap item `j` towards the root while it outranks its parent. */
  function Up<T>(h: Heap<T>, j: nat): (r: Heap<T>)
    requires j < |h| && UpInvariant(h, j)
    ensures |r| == |h| && multiset(r) == multiset(h)
    ensures IsHeap(r)
    decreases j
  {
    var i := Parent(j);
    if i == j || !Less(h, j, i) then
      h
    else
      UpStep(h, j);
      Up(Swap(h, i, j), i)
  }

  lemma UpStep<T>(h: Heap<T>, j: nat)
    requires j < |h| && UpInvariant(h, j)
    requires j > 0 && Less(h, j, Parent(j))
    ensures UpInvariant(Swap(h, Parent(j), j), Parent(j))
  {
    var i := Parent(j);
    var h2 := Swap(h, i, j);
    forall k | 0 < k < |h| && k != i
      ensures h2[Parent(k)].priority >= h2[k].priority
    {
      if k == j {
      } else if Parent(k) == j {
      } else if Parent(k) == i {
        assert h[i].priority >= h[k].priority;
      } else {
        assert h2[Parent(k)] == h[Parent(k)];
      }
    }
    if i > 0 {
      forall k | 0 < k < |h| && Parent(k) == i
        ensures h2[Parent(i)].priority >= h2[k].priority
      {
        assert h[Parent(i)].priority >= h[i].priority;
        if k != j {
          assert h[i].priority >= h[k].priority;
        }
      }
    }
  }

  /**
    container/heap's `down` on the first `n` slots: swap item `i` with its
    higher-priority child while that child outranks it. Slots from `n` on
    are left alone.
   */
  function Down<T>(h: Heap<T>, i: nat, n: nat): (r: Heap<T>)
    requires i <= n <= |h| && DownInvariant(h, i, n)
    ensures |r| == |h| && multiset(r) == multiset(h)
    ensures HeapUpTo(r, n)
    ensures r[n..] == h[n..]
    decreases n - i
  {
    var j1 := 2 * i + 1;
    if j1 >= n then
      NoChild(i, n);
      DownDone(h, i, n);
      h
    else
      var j := if j1 + 1 < n && Less(h, j1 + 1, j1) then j1 + 1 else j1;
      BestChild(h, i, n, j);
      if !Less(h, j, i) then
        DownDone(h, i, n);
        h
      else
        DownStep(h, i, j, n);
        SwapKeepsTail(h, i, j, n);
        Down(Swap(h, i, j), j, n)
  }

  /** Slot `i` has no child among the first `n` slots. */
  lemma NoChild(i: nat, n: nat)
    requires 2 * i + 1 >= n
    ensures forall k :: 0 < k < n ==> Parent(k) != i
  {
  }

  /** The child `down` picks is the higher-priority one. */
  lemma BestChild<T>(h: Heap<T>, i: nat, n: nat, j: nat)
    requires 2 * i + 1 < n <= |h|
    requires j == if 2 * i + 2 < n && Less(h, 2 * i + 2, 2 * i + 1) then 2 * i + 2 else 2 * i + 1
    ensures Parent(j) == i && i < j < n
    ensures forall k :: 0 < k < n && Parent(k) == i ==> h[j].priority >= h[k].priority
  {
  }

  lemma SwapKeepsTail<T>(h: Heap<T>, i: nat, j: nat, n: nat)
    requires i < n && j < n && n <= |h|
    ensures Swap(h, i, j)[n..] == h[n..]
  {
  }

  lemma DownDone<T>(h: Heap<T>, i: nat, n: nat)
    requires i <= n <= |h| && DownInvariant(h, i, n)
    requires forall k :: 0 < k < n && Parent(k) == i ==> h[i].priority >= h[k].priority
    ensures HeapUpTo(h, n)
  {
  }

  lemma DownStep<T>(h: Heap<T>, i: nat, j: nat, n: nat)
    requires i < n <= |h| && DownInvariant(h, i, n)
    requires j < n && Parent(j) == i && i < j
    requires forall k :: 0 < k < n && Parent(k) == i ==> h[j].priority >= h[k].priority
    requires Less(h, j, i)
    ensures DownInvariant(Swap(h, i, j), j, n)
  {
    var h2 := Swap(h, i, j);
    forall k | 0 < k < n && Parent(k) != j
      ensures h2[Parent(k)].priority >= h2[k].priority
    {
      if k == j {
      } else if Parent(k) == i {
      } else if k == i {
        assert h[Parent(i)].priority >= h[j].priority;
      } else {
        assert h2[Parent(k)] == h[Parent(k)];
      }
    }
    forall k | 0 < k < n && Parent(k) == j
      ensures h2[Parent(j)].priority >= h2[k].priority
    {
      assert h[j].priority >= h[k].priority;
    }
  }

  /** The root of a heap outranks or ties every item in it. */
  lemma {:induction false} RootIsMax<T>(h: Heap<T>, k: nat)
    requires IsHeap(h) && k < |h|
    ensures h[0].priority >= h[k].priority
    decreases k
  {
    if k > 0 {
      RootIsMax(h, Parent(k));
    }
  }

  /** `heap.Push`: append, then sift the new item up. */
  function Push<T>(h: Heap<T>, x: Prioritized<T>): (r: Heap<T>)
    requires IsHeap(h)
    ensures IsHeap(r)
    ensures multiset(r) == multiset(h) + multiset{x}
  {
    var h1 := h + [x];
    assert multiset(h1) == multiset(h) + multiset{x};
    Up(h1, |h|)
  }

  /**
    `heap.Pop`: swap the root to the end, sift the new root down over the
    remaining slots, then take the last item off (`PatchPriority.Pop`).
    The item handed out has the highest priority in the heap.
   */
  function Pop<T>(h: Heap<T>): (r: (Heap<T>, Prioritized<T>))
    requires IsHeap(h) && |h| > 0
    ensures IsHeap(r.0)
    ensures multiset(r.0) + multiset{r.1} == multiset(h)
    ensures forall k :: 0 <= k < |h| ==> r.1.priority >= h[k].priority
  {
    var n := |h| - 1;
    var h1 := Swap(h, 0, n);
    var h2 := Down(h1, 0, n);
    assert h2[n] == h1[n] == h[0] by {
      assert h2[n..][0] == h1[n..][0];
    }
    assert h2 == h2[..n] + [h2[n]];
    PopTopIsMax(h);
    (h2[..n], h2[n])
  }

  lemma PopTopIsMax<T>(h: Heap<T>)
    requires IsHeap(h) && |h| > 0
    ensures forall k :: 0 <= k < |h| ==> h[0].priority >= h[k].priority
  {
    forall k | 0 <= k < |h|
      ensures h[0].priority >= h[k].priority
    {
      RootIsMax(h, k);
    }
  }

  /** Successive priorities never increase. */
  ghost predicate NonIncreasing<T>(s: seq<Prioritized<T>>)
  {
    forall i, j :: 0 <= i < j < |s| ==> s[i].priority >= s[j].priority
  }

  /**
    The order in which the drain loop `for priorityQueue.Len() > 0 { heap.Pop }`
    receives the queued items: all of them, highest priority first.
   */
  function PopAll<T>(h: Heap<T>): (r: seq<Prioritized<T>>)
    requires IsHeap(h)
    ensures multiset(r) == multiset(h)
    ensures NonIncreasing(r)
    decreases |h|
  {
    if |h| == 0 then
      []
    else
      var (rest, top) := Pop(h);
      assert |multiset(rest)| + 1 == |multiset(h)|;
      var tail := PopAll(rest);
      PopAllStep(h, rest, top, tail);
      [top] + tail
  }

  lemma PopAllStep<T>(h: Heap<T>, rest: Heap<T>, top: Prioritized<T>, tail: seq<Prioritized<T>>)
    requires forall k :: 0 <= k < |h| ==> top.priority >= h[k].priority
    requires multiset(rest) + multiset{top} == multiset(h)
    requires multiset(tail) == multiset(rest)
    requires NonIncreasing(tail)
    ensures NonIncreasing([top] + tail)
    ensures multiset([top] + tail) == multiset(h)
  {
    var s := [top] + tail;
    forall i, j | 0 <= i < j < |s|
      ensures s[i].priority >= s[j].priority
    {
      if i == 0 {
        assert s[j] == tail[j - 1];
        assert tail[j - 1] in multiset(tail);
        assert s[j] in multiset(h);
        var k :| 0 <= k < |h| && h[k] == s[j];
      }
    }
  }
}
