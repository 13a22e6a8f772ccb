/** The memoised check that predecessors do not form a loop. */
module LoopCheck {

  type Preds = map<nat, nat>

  /** k steps up the predecessors; 0 and numbers without an entry stay where they are. */
  function Walk(prev: Preds, s: nat, k: nat): nat
    decreases k
  {
    if k == 0 || s !in prev then s else Walk(prev, prev[s], k - 1)
  }

  ghost predicate ReachesZero(prev: Preds, s: nat) {
    exists k: nat :: Walk(prev, s, k) == 0
  }

  /** Every mark is true: the number's chain ends at 0. */
  ghost predicate MarksSound(prev: Preds, marks: seq<bool>) {
    forall s :: 0 <= s < |marks| && marks[s] ==> ReachesZero(prev, s)
  }

  datatype Verdict = LoopFree | Loop | Missing

  lemma {:induction false} WalkMore(prev: Preds, s: nat, j: nat, k: nat)
    ensures Walk(prev, s, j + k) == Walk(prev, Walk(prev, s, j), k)
    decreases j
  {
    if j > 0 && s in prev {
      WalkMore(prev, prev[s], j - 1, k);
    } else if s !in prev {
      WalkStuck(prev, s, j + k);
      WalkStuck(prev, s, j);
      WalkStuck(prev, s, k);
    }
  }

  lemma WalkStuck(prev: Preds, s: nat, k: nat)
    requires s !in prev
    ensures Walk(prev, s, k) == s
  {
  }

  lemma WalkNext(prev: Preds, s: nat, k: nat)
    requires Walk(prev, s, k) in prev
    ensures Walk(prev, s, k + 1) == prev[Walk(prev, s, k)]
  {
    WalkMore(prev, s, k, 1);
    assert Walk(prev, prev[Walk(prev, s, k)], 0) == prev[Walk(prev, s, k)];
  }

  /** A walk that comes back to where it was never ends. */
  lemma {:induction false} CycleNeverEnds(prev: Preds, s: nat, j: nat, k: nat, m: nat)
    requires j < k && Walk(prev, s, j) == Walk(prev, s, k)
    requires forall i :: 0 <= i < k ==> Walk(prev, s, i) != 0
    ensures Walk(prev, s, m) != 0
    decreases m
  {
    if m >= k {
      WalkMore(prev, s, k, m - k);
      WalkMore(prev, s, j, m - k);
      CycleNeverEnds(prev, s, j, k, j + (m - k));
    }
  }

  lemma ReachesBefore(prev: Preds, s: nat, k: nat)
    requires ReachesZero(prev, Walk(prev, s, k))
    ensures ReachesZero(prev, s)
  {
    var m: nat :| Walk(prev, Walk(prev, s, k), m) == 0;
    WalkMore(prev, s, k, m);
  }

  predicate InRange(prev: Preds, high: nat) {
    forall s :: s in prev ==> 0 < s <= high && prev[s] <= high
  }

  ghost predicate AllFalse(a: seq<bool>) {
    forall i :: 0 <= i < |a| ==> !a[i]
  }

  /** The first k steps of the walk have passed i. */
  ghost predicate WasAt(prev: Preds, start: nat, k: nat, i: nat) {
    exists j: nat :: j < k && Walk(prev, start, j) == i
  }

  ghost predicate Passed(prev: Preds, start: nat, k: nat, seen: seq<bool>) {
    && (forall i :: 0 <= i < |seen| && seen[i] ==> WasAt(prev, start, k, i))
    && (k > 0 && start < |seen| ==> seen[start])
  }

  lemma PassedNext(prev: Preds, start: nat, k: nat, seen: seq<bool>)
    requires Passed(prev, start, k, seen) && Walk(prev, start, k) < |seen|
    ensures Passed(prev, start, k + 1, seen[Walk(prev, start, k) := true])
  {
    var seen' := seen[Walk(prev, start, k) := true];
    assert Walk(prev, start, 0) == start;
    forall i | 0 <= i < |seen'| && seen'[i]
      ensures WasAt(prev, start, k + 1, i)
    {
      if seen[i] {
        assert WasAt(prev, start, k, i);
      }
    }
  }

  /** Walks up until 0, a number known to be fine, or a number seen before on this walk. */
  method Explore(prev: Preds, start: nat, loopfree: array<bool>, seen: array<bool>)
    returns (v: Verdict, lowest: nat)
    requires seen.Length == loopfree.Length > start && seen != loopfree && InRange(prev, seen.Length - 1)
    requires AllFalse(seen[..]) && MarksSound(prev, loopfree[..])
    modifies seen
    ensures v.LoopFree? <==> ReachesZero(prev, start)
    ensures v.Missing? ==> exists m: nat :: Walk(prev, start, m) !in prev && Walk(prev, start, m) != 0
    ensures lowest < seen.Length && forall i :: 0 <= i < lowest ==> !seen[i]
    ensures v.LoopFree? && start != 0 ==> seen[start] || loopfree[start]
  {
    lowest := seen.Length - 1;
    var s: nat := start;
    ghost var k: nat := 0;
    ghost var unseen := set i: nat | i < seen.Length && !seen[i];
    while s != 0
      invariant s == Walk(prev, start, k) && s < seen.Length
      invariant lowest < seen.Length && forall i :: 0 <= i < lowest ==> !seen[i]
      invariant unseen == set i: nat | i < seen.Length && !seen[i]
      invariant Passed(prev, start, k, seen[..])
      invariant forall j :: 0 <= j < k ==> Walk(prev, start, j) != 0
      decreases unseen
    {
      if s < lowest {
        lowest := s;
      }
      if loopfree[s] {
        ReachesBefore(prev, start, k);
        return LoopFree, lowest;
      }
      if seen[s] {
        assert WasAt(prev, start, k, s);
        ghost var j: nat :| j < k && Walk(prev, start, j) == s;
        forall m: nat
          ensures Walk(prev, start, m) != 0
        {
          CycleNeverEnds(prev, start, j, k, m);
        }
        return Loop, lowest;
      }
      PassedNext(prev, start, k, seen[..]);
      assert s in unseen;
      seen[s] := true;
      unseen := unseen - {s};
      k := k + 1;
      if s !in prev {
        NeverPastMissing(prev, start, k - 1);
        return Missing, lowest;
      }
      WalkNext(prev, start, k - 1);
      s := prev[s];
    }
    return LoopFree, lowest;
  }

  lemma NeverPastMissing(prev: Preds, start: nat, k: nat)
    requires Walk(prev, start, k) !in prev
    requires forall j :: 0 <= j <= k ==> Walk(prev, start, j) != 0
    ensures !ReachesZero(prev, start)
  {
    forall m: nat
      ensures Walk(prev, start, m) != 0
    {
      if m > k {
        WalkMore(prev, start, k, m - k);
        WalkStuck(prev, Walk(prev, start, k), m - k);
      }
    }
  }

  /** Marks the newly explored part of the chain. */
  method Mark(prev: Preds, start: nat, loopfree: array<bool>, seen: array<bool>)
    requires seen.Length == loopfree.Length > start && seen != loopfree && InRange(prev, seen.Length - 1)
    requires ReachesZero(prev, start) && MarksSound(prev, loopfree[..])
    modifies loopfree
    ensures MarksSound(prev, loopfree[..])
    ensures forall i :: 0 <= i < loopfree.Length && old(loopfree[i]) ==> loopfree[i]
    ensures start != 0 && seen[start] ==> loopfree[start]
  {
    ghost var m: nat :| Walk(prev, start, m) == 0;
    var s: nat := start;
    while s != 0
      invariant s < loopfree.Length && Walk(prev, s, m) == 0
      invariant MarksSound(prev, loopfree[..])
      invariant forall i :: 0 <= i < loopfree.Length && old(loopfree[i]) ==> loopfree[i]
      invariant s == start || (start != 0 && seen[start] ==> loopfree[start])
      decreases m
    {
      if loopfree[s] {
        break;
      } else if seen[s] {
        loopfree[s] := true;
      }
      assert s in prev && m > 0;
      s, m := prev[s], m - 1;
    }
  }

  /** True exactly when the chain reaches 0.  Marks stay true whatever is checked, in any order, and
      `seen` is wiped clean. */
  method CheckLoopFree(prev: Preds, start: nat, loopfree: array<bool>, seen: array<bool>) returns (v: Verdict)
    requires seen.Length == loopfree.Length > start && seen != loopfree && InRange(prev, seen.Length - 1)
    requires AllFalse(seen[..]) && MarksSound(prev, loopfree[..])
    modifies loopfree, seen
    ensures v.LoopFree? <==> ReachesZero(prev, start)
    ensures v.Missing? ==> exists m: nat :: Walk(prev, start, m) !in prev && Walk(prev, start, m) != 0
    ensures MarksSound(prev, loopfree[..])
    ensures v.LoopFree? && start != 0 ==> loopfree[start]
    ensures !v.Missing? ==> AllFalse(seen[..])
  {
    var lowest;
    v, lowest := Explore(prev, start, loopfree, seen);
    if v.Missing? {
      return;
    }
    if v.LoopFree? {
      Mark(prev, start, loopfree, seen);
    }
    for i := lowest to seen.Length
      invariant forall j :: 0 <= j < i ==> !seen[j]
      invariant MarksSound(prev, loopfree[..])
      invariant v.LoopFree? && start != 0 ==> loopfree[start]
    {
      seen[i] := false;
    }
  }
}
