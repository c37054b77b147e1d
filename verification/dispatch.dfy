/**
  The drain loop of `handleTrackedMembers`: items arrive in heap-pop order
  and each one is handed to a worker goroutine. Before a priority-0 item is
  dispatched after any positive-priority item, the loop waits on the
  WaitGroup, and after the last item it waits again. The concurrency is
  modelled by what it guarantees: the dispatched items are split into
  cohorts, and every item of one cohort has completed before any item of the
  next one starts.
 */
module Dispatch {
  import opened PatchHeap

  /** Cohorts closed or open so far, and the loop's `waitForHigherPriority` flag. */
  datatype DrainState<T> = DrainState(cohorts: seq<seq<Prioritized<T>>>, waiting: bool)

  /** Dispatch `p` into the currently open cohort (opening one if there is none). */
  function AddToOpen<T>(cs: seq<seq<Prioritized<T>>>, p: Prioritized<T>): (r: seq<seq<Prioritized<T>>>)
    ensures |cs| > 0 ==> |r| == |cs| && r[..|cs| - 1] == cs[..|cs| - 1] && r[|cs| - 1] == cs[|cs| - 1] + [p]
    ensures |cs| == 0 ==> r == [[p]]
  {
    if |cs| == 0 then [[p]] else cs[..|cs| - 1] + [cs[|cs| - 1] + [p]]
  }

  /** One iteration of the drain loop. */
  function DrainStep<T>(st: DrainState<T>, p: Prioritized<T>): DrainState<T>
  {
    if p.priority > 0 then
      DrainState(AddToOpen(st.cohorts, p), true)
    else if st.waiting then
      // wg.Wait(): the open cohort is joined; `p` starts the next one
      DrainState(st.cohorts + [[p]], false)
    else
      DrainState(AddToOpen(st.cohorts, p), false)
  }

  /** The drain loop over the pop order `s`, as a left fold. */
  function Drain<T>(s: seq<Prioritized<T>>): DrainState<T>
  {
    if |s| == 0 then DrainState([], false)
    else DrainStep(Drain(s[..|s| - 1]), s[|s| - 1])
  }

  /** The cohorts the drain loop dispatches, in order. */
  function Cohorts<T>(s: seq<Prioritized<T>>): seq<seq<Prioritized<T>>>
  {
    Drain(s).cohorts
  }

  function Flatten<T>(cs: seq<seq<T>>): (r: seq<T>)
  {
    if |cs| == 0 then [] else Flatten(cs[..|cs| - 1]) + cs[|cs| - 1]
  }

  lemma FlattenAppend<T>(cs: seq<seq<T>>, c: seq<T>)
    ensures Flatten(cs + [c]) == Flatten(cs) + c
  {
    assert (cs + [c])[..|cs|] == cs;
  }

  lemma FlattenAddToOpen<T>(cs: seq<seq<Prioritized<T>>>, p: Prioritized<T>)
    ensures Flatten(AddToOpen(cs, p)) == Flatten(cs) + [p]
  {
    if |cs| > 0 {
      var front := cs[..|cs| - 1];
      var last := cs[|cs| - 1];
      assert cs == front + [last];
      FlattenAppend(front, last);
      FlattenAppend(front, last + [p]);
    } else {
      FlattenAppend([], [p]);
    }
  }

  /**
    Every item is dispatched exactly once and in pop order: reading the
    cohorts one after the other gives back `s`.
   */
  lemma {:induction false} DrainKeepsOrder<T>(s: seq<Prioritized<T>>)
    ensures Flatten(Cohorts(s)) == s
  {
    if |s| > 0 {
      var s' := s[..|s| - 1];
      var p := s[|s| - 1];
      DrainKeepsOrder(s');
      DrainStepFlatten(Drain(s'), p);
      assert s == s' + [p];
    }
  }

  lemma DrainStepFlatten<T>(st: DrainState<T>, p: Prioritized<T>)
    ensures Flatten(DrainStep(st, p).cohorts) == Flatten(st.cohorts) + [p]
  {
    if p.priority <= 0 && st.waiting {
      FlattenAppend(st.cohorts, [p]);
    } else {
      FlattenAddToOpen(st.cohorts, p);
    }
  }

  /** No cohort is empty: a barrier is only placed in front of an item. */
  lemma {:induction false} CohortsNonEmpty<T>(s: seq<Prioritized<T>>)
    ensures forall c :: 0 <= c < |Cohorts(s)| ==> |Cohorts(s)[c]| > 0
  {
    if |s| > 0 {
      var s' := s[..|s| - 1];
      CohortsNonEmpty(s');
      assert Cohorts(s') == Drain(s').cohorts;
      DrainStepNonEmpty(Drain(s'), s[|s| - 1]);
    }
  }

  lemma DrainStepNonEmpty<T>(st: DrainState<T>, p: Prioritized<T>)
    requires forall c :: 0 <= c < |st.cohorts| ==> |st.cohorts[c]| > 0
    ensures forall c :: 0 <= c < |DrainStep(st, p).cohorts| ==> |DrainStep(st, p).cohorts[c]| > 0
  {
  }

  /** A non-empty run of items forms one cohort; an empty one forms none. */
  function Tier<T>(s: seq<Prioritized<T>>): seq<seq<Prioritized<T>>>
  {
    if |s| == 0 then [] else [s]
  }

  /**
    When the first `k` popped items have positive priority and the rest
    have priority 0, the drain dispatches at most two cohorts: the
    positive-priority items, joined, then the priority-0 items.
   */
  lemma {:induction false} DrainTwoTiers<T>(s: seq<Prioritized<T>>, k: nat)
    requires k <= |s|
    requires forall i :: 0 <= i < k ==> s[i].priority > 0
    requires forall i :: k <= i < |s| ==> s[i].priority == 0
    ensures Drain(s) == DrainState(Tier(s[..k]) + Tier(s[k..]), |s| > 0 && k == |s|)
    decreases |s|, 1
  {
    if |s| > 0 {
      if k == |s| {
        TwoTiersLastPositive(s, k);
      } else {
        TwoTiersLastZero(s, k);
      }
    }
  }

  lemma {:induction false} TwoTiersLastPositive<T>(s: seq<Prioritized<T>>, k: nat)
    requires 0 < k == |s|
    requires forall i :: 0 <= i < k ==> s[i].priority > 0
    ensures Drain(s) == DrainState(Tier(s[..k]) + Tier(s[k..]), true)
    decreases |s|, 0
  {
    var s' := s[..|s| - 1];
    var p := s[|s| - 1];
    assert s == s' + [p];
    assert Drain(s) == DrainStep(Drain(s'), p);
    DrainTwoTiers(s', k - 1);
    assert s'[..k - 1] == s' && s'[k - 1..] == [];
    StepPositive(Drain(s'), s', p);
    assert s[..k] == s && s[k..] == [];
  }

  lemma {:induction false} TwoTiersLastZero<T>(s: seq<Prioritized<T>>, k: nat)
    requires k < |s|
    requires forall i :: 0 <= i < k ==> s[i].priority > 0
    requires forall i :: k <= i < |s| ==> s[i].priority == 0
    ensures Drain(s) == DrainState(Tier(s[..k]) + Tier(s[k..]), false)
    decreases |s|, 0
  {
    var s' := s[..|s| - 1];
    var p := s[|s| - 1];
    assert s == s' + [p];
    DrainTwoTiers(s', k);
    assert s'[..k] == s[..k];
    if |s'| == k {
      assert s'[k..] == [] && s[k..] == [p];
      StepFirstZero(Drain(s'), s', p);
    } else {
      assert s[k..] == s'[k..] + [p];
      StepLaterZero(Drain(s'), Tier(s'[..k]), s'[k..], p);
    }
  }

  lemma StepPositive<T>(st: DrainState<T>, x: seq<Prioritized<T>>, p: Prioritized<T>)
    requires st == DrainState(Tier(x) + Tier([]), |x| > 0) && p.priority > 0
    ensures DrainStep(st, p) == DrainState(Tier(x + [p]) + Tier([]), true)
  {
    assert Tier(x) + Tier([]) == Tier(x);
    AddToOpenTier(x, p);
  }

  lemma StepFirstZero<T>(st: DrainState<T>, x: seq<Prioritized<T>>, p: Prioritized<T>)
    requires st == DrainState(Tier(x) + Tier([]), |x| > 0) && p.priority == 0
    ensures DrainStep(st, p) == DrainState(Tier(x) + Tier([p]), false)
  {
    assert Tier(x) + Tier([]) == Tier(x);
  }

  lemma StepLaterZero<T>(st: DrainState<T>, front: seq<seq<Prioritized<T>>>, z: seq<Prioritized<T>>, p: Prioritized<T>)
    requires |z| > 0
    requires st == DrainState(front + Tier(z), false) && p.priority == 0
    ensures DrainStep(st, p) == DrainState(front + Tier(z + [p]), false)
  {
    AddToOpenLast(front, z, p);
  }

  lemma AddToOpenTier<T>(x: seq<Prioritized<T>>, p: Prioritized<T>)
    ensures AddToOpen(Tier(x), p) == Tier(x + [p])
  {
    if |x| > 0 {
      assert [x][..0] == [];
    } else {
      assert x + [p] == [p];
    }
  }

  lemma AddToOpenLast<T>(front: seq<seq<Prioritized<T>>>, last: seq<Prioritized<T>>, p: Prioritized<T>)
    ensures AddToOpen(front + [last], p) == front + [last + [p]]
  {
    assert (front + [last])[..|front|] == front;
  }

  /**
    For a pop order with non-increasing priorities that are all 0 or 1
    (what `handleTrackedMembers` assigns), every positive-priority item is
    in an earlier cohort than every priority-0 item, and there are at most
    two cohorts.
   */
  lemma PositiveCohortFirst<T>(s: seq<Prioritized<T>>)
    requires NonIncreasing(s)
    requires forall i :: 0 <= i < |s| ==> s[i].priority == 0 || s[i].priority == 1
    ensures |Cohorts(s)| <= 2
    ensures forall a, b, x: Prioritized<T>, y: Prioritized<T> ::
      (0 <= a < |Cohorts(s)| && 0 <= b < |Cohorts(s)| && x in Cohorts(s)[a] && y in Cohorts(s)[b]
       && x.priority > 0 && y.priority == 0) ==> a < b
  {
    SplitCohortsOrdered(s, CountLeading(s));
  }

  lemma SplitCohortsOrdered<T>(s: seq<Prioritized<T>>, k: nat)
    requires k <= |s|
    requires forall i :: 0 <= i < k ==> s[i].priority > 0
    requires forall i :: k <= i < |s| ==> s[i].priority == 0
    ensures |Cohorts(s)| <= 2
    ensures forall a, b, x: Prioritized<T>, y: Prioritized<T> ::
      (0 <= a < |Cohorts(s)| && 0 <= b < |Cohorts(s)| && x in Cohorts(s)[a] && y in Cohorts(s)[b]
       && x.priority > 0 && y.priority == 0) ==> a < b
  {
    var pos, zero := s[..k], s[k..];
    assert forall i :: 0 <= i < |pos| ==> pos[i].priority > 0;
    assert forall i :: 0 <= i < |zero| ==> zero[i].priority == 0;
    DrainTwoTiers(s, k);
    assert Cohorts(s) == Tier(pos) + Tier(zero);
    TiersOrdered(pos, zero);
  }

  lemma TiersOrdered<T>(pos: seq<Prioritized<T>>, zero: seq<Prioritized<T>>)
    requires forall i :: 0 <= i < |pos| ==> pos[i].priority > 0
    requires forall i :: 0 <= i < |zero| ==> zero[i].priority == 0
    ensures |Tier(pos) + Tier(zero)| <= 2
    ensures forall a, b, x: Prioritized<T>, y: Prioritized<T> ::
      (0 <= a < |Tier(pos) + Tier(zero)| && 0 <= b < |Tier(pos) + Tier(zero)|
       && x in (Tier(pos) + Tier(zero))[a] && y in (Tier(pos) + Tier(zero))[b]
       && x.priority > 0 && y.priority == 0) ==> a < b
  {
    var cs := Tier(pos) + Tier(zero);
    assert |pos| > 0 ==> cs[0] == pos;
    assert |zero| > 0 ==> cs[|cs| - 1] == zero;
    assert forall x :: x in pos ==> x.priority > 0;
    assert forall y :: y in zero ==> y.priority == 0;
  }

  /** The number of leading positive-priority items of `s`. */
  function CountLeading<T>(s: seq<Prioritized<T>>): (k: nat)
    requires NonIncreasing(s)
    requires forall i :: 0 <= i < |s| ==> s[i].priority == 0 || s[i].priority == 1
    ensures k <= |s|
    ensures forall i :: 0 <= i < k ==> s[i].priority > 0
    ensures forall i :: k <= i < |s| ==> s[i].priority == 0
  {
    if |s| == 0 || s[0].priority == 0 then 0
    else 1 + CountLeading(s[1..])
  }
}
