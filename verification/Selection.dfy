/** Choosing the deltas of a version: the ancestor chain, then stored include, exclude and ignore lists. */
module Selection {
  import opened Weave
  import opened Deltas
  import opened SequenceState
  import opened History
  import LoopCheck

  /** The table by sequence number. */
  type Index = map<nat, Delta>

  function Prevs(t: Index): map<nat, nat> {
    map y | y in t :: t[y].prevSeq
  }

  /** The selection that retrieves a delta is what a walk up its predecessors meets. */
  lemma {:induction false} ChainIsWalk(prev: map<nat, nat>, d: nat, k: nat)
    requires forall x :: x in prev ==> prev[x] < x
    ensures k in Chain(prev, d) <==> k in prev && Meets(prev, d, k)
    decreases d
  {
    if d !in prev {
      if Meets(prev, d, k) {
        var m: nat :| LoopCheck.Walk(prev, d, m) == k;
        LoopCheck.WalkStuck(prev, d, m);
      }
    } else {
      ChainIsWalk(prev, prev[d], k);
      assert LoopCheck.Walk(prev, d, 0) == d;
      if k != d {
        WalkFromNext(prev, d, k);
      }
    }
  }

  /** Some number of steps up the predecessors of d leads to k. */
  ghost predicate Meets(prev: map<nat, nat>, d: nat, k: nat) {
    exists m: nat :: LoopCheck.Walk(prev, d, m) == k
  }

  lemma WalkFromNext(prev: map<nat, nat>, d: nat, k: nat)
    requires d in prev && k != d
    ensures Meets(prev, d, k) <==> Meets(prev, prev[d], k)
  {
    if Meets(prev, d, k) {
      var m: nat :| LoopCheck.Walk(prev, d, m) == k;
      var before: nat := m - 1;
      assert LoopCheck.Walk(prev, prev[d], before) == k;
    }
    if Meets(prev, prev[d], k) {
      var m: nat :| LoopCheck.Walk(prev, prev[d], m) == k;
      var after: nat := m + 1;
      assert LoopCheck.Walk(prev, d, after) == LoopCheck.Walk(prev, prev[d], after - 1);
    }
  }

  /** The numbers tagged by the walk up the predecessors, which ends at 0. */
  function Ancestors(t: Index, s: nat): set<nat> {
    Chain(Prevs(t), s) + {0}
  }

  ghost predicate ClosedUnderIncludes(t: Index, x: set<nat>) {
    forall y, s :: y in x && y > 0 && y in t && s in t[y].included && s != y ==> s in x
  }

  /** The least set that contains the base and is closed under include lists. */
  ghost predicate IsLeastClosed(t: Index, base: set<nat>, x: set<nat>) {
    && base <= x
    && ClosedUnderIncludes(t, x)
    && forall z: set<nat> :: base <= z && ClosedUnderIncludes(t, z) ==> x <= z
  }

  /** Exactly the union of the exclude lists of x. */
  ghost predicate IsExcludedBy(t: Index, x: set<nat>, e: set<nat>) {
    forall s :: s in e <==> exists y :: y in x && y > 0 && y in t && s in t[y].excluded && s != y
  }

  /** Exactly the union of the ignore lists of those members of k that are not ignored themselves. */
  ghost predicate IsIgnoredBy(t: Index, k: set<nat>, g: set<nat>) {
    forall s :: s in g <==> exists y :: y in k && y > 0 && y !in g && y in t && s in t[y].ignored && s != y
  }

  /** Predecessors exist and are older. */
  ghost predicate Sound(t: Index) {
    forall y :: y in t ==> t[y].prevSeq < y && (t[y].prevSeq == 0 || t[y].prevSeq in t)
  }

  datatype Tag = Include | Exclude | Ignore

  /** Giving one tag takes the other two away. */
  function Tagged(m: Meaning, tag: Tag, x: set<nat>): Meaning {
    match tag
    case Include => Meaning(m.included + x, m.excluded - x, m.ignored - x, m.open)
    case Exclude => Meaning(m.included - x, m.excluded + x, m.ignored - x, m.open)
    case Ignore => Meaning(m.included - x, m.excluded - x, m.ignored + x, m.open)
  }

  /** The walk up the predecessors; false when one is missing or not older. */
  method TagAncestors(t: Index, st: SeqState, seqNo: nat) returns (ok: bool)
    requires st.Valid() && 0 < seqNo < st.states.Length
    requires st.Sense().included == st.Sense().excluded == st.Sense().ignored == {}
    modifies st.states
    ensures st.Valid()
    ensures ok ==> st.Sense() == old(st.Sense()).(included := Ancestors(t, seqNo))
    ensures Sound(t) && seqNo in t ==> ok
  {
    ghost var m := st.Sense();
    ghost var seen: set<nat> := {};
    var y: nat := seqNo;
    while y > 0
      invariant y <= seqNo
      invariant st.Valid() && st.Sense() == m.(included := st.Sense().included)
      invariant Chain(Prevs(t), seqNo) == seen + Chain(Prevs(t), y)
      invariant st.Sense().included + {seqNo} == seen + {seqNo} + if y < seqNo then {y} else {}
      invariant y < seqNo ==> seqNo in seen
      invariant Sound(t) && seqNo in t ==> y == 0 || y in t
    {
      if y !in t || t[y].prevSeq >= y {
        return false;
      }
      seen := seen + {y};
      st.SetIncluded(t[y].prevSeq, false);
      y := t[y].prevSeq;
    }
    st.SetIncluded(seqNo, false);
    assert st.Sense().included == Ancestors(t, seqNo);
    return true;
  }

  method GiveTag(s: nat, st: SeqState, tag: Tag)
    requires st.Valid() && s < st.states.Length
    modifies st.states
    ensures st.Valid() && st.Sense() == Tagged(old(st.Sense()), tag, {s})
  {
    match tag {
      case Include => st.SetIncluded(s, true);
      case Exclude => st.SetExcluded(s);
      case Ignore => st.SetIgnored(s);
    }
  }

  lemma TaggedTwice(m: Meaning, tag: Tag, x: set<nat>, s: nat)
    ensures Tagged(Tagged(m, tag, x), tag, {s}) == Tagged(m, tag, x + {s})
  {
  }

  /** The members of a list other than y. */
  function Others(list: seq<nat>, y: nat): set<nat> {
    set s | s in list && s != y
  }

  /** Tags every member of a list except y itself; false when one is later than y. */
  method TagList(list: seq<nat>, y: nat, st: SeqState, tag: Tag) returns (ok: bool)
    requires st.Valid() && y < st.states.Length
    modifies st.states
    ensures st.Valid()
    ensures ok <==> forall s :: s in list ==> s <= y
    ensures ok ==> st.Sense() == Tagged(old(st.Sense()), tag, Others(list, y))
  {
    ghost var m := st.Sense();
    assert Tagged(m, tag, {}) == m;
    for i := 0 to |list|
      invariant forall s :: s in list[..i] ==> s <= y
      invariant st.Valid() && st.Sense() == Tagged(m, tag, Others(list[..i], y))
    {
      var s := list[i];
      assert list[..i + 1] == list[..i] + [s];
      if s == y {
        assert Others(list[..i + 1], y) == Others(list[..i], y);
        continue;
      }
      if s > y {
        assert s in list;
        return false;
      }
      GiveTag(s, st, tag);
      TaggedTwice(m, tag, Others(list[..i], y), s);
      assert Others(list[..i + 1], y) == Others(list[..i], y) + {s};
    }
    assert list[..|list|] == list;
    return true;
  }

  /** Stored lists name earlier deltas of the table (or 0). */
  ghost predicate ListsSound(t: Index) {
    forall y :: y in t ==> Earlier(t, t[y].included, y) && Earlier(t, t[y].excluded, y) && Earlier(t, t[y].ignored, y)
  }

  ghost predicate Earlier(t: Index, list: seq<nat>, y: nat) {
    forall s :: s in list ==> s <= y && (s == 0 || s in t)
  }

  ghost predicate Within(x: set<nat>, t: Index, seqNo: nat) {
    forall y :: y in x ==> y <= seqNo && (y == 0 || y in t)
  }

  /** The include pass has dealt with every number above y. */
  ghost predicate IncludedDownTo(t: Index, base: set<nat>, x: set<nat>, y: nat, seqNo: nat) {
    && base <= x
    && (forall s :: s in x ==> s <= seqNo && (s > y ==> s in t))
    && (ListsSound(t) ==> Within(x, t, seqNo))
    && (forall k, s :: k in x && k > y && k in t && s in t[k].included && s != k ==> s in x)
    && (forall z: set<nat> :: base <= z && ClosedUnderIncludes(t, z) ==> x <= z)
  }

  lemma IncludeStep(t: Index, base: set<nat>, x: set<nat>, y: nat, seqNo: nat)
    requires 0 < y <= seqNo && IncludedDownTo(t, base, x, y, seqNo)
    requires y in x ==> y in t && forall s :: s in t[y].included ==> s <= y
    ensures IncludedDownTo(t, base, if y in x then x + Others(t[y].included, y) else x, y - 1, seqNo)
  {
  }

  /** One descending pass reaches the least set closed under include lists. */
  method IncludePass(t: Index, st: SeqState, seqNo: nat) returns (ok: bool)
    requires st.Valid() && seqNo < st.states.Length
    requires Within(st.Sense().included, t, seqNo) && st.Sense().excluded == st.Sense().ignored == {}
    modifies st.states
    ensures st.Valid()
    ensures ok ==> IsLeastClosed(t, old(st.Sense()).included, st.Sense().included)
    ensures ok ==> st.Sense() == old(st.Sense()).(included := st.Sense().included)
    ensures ok ==> Within(st.Sense().included, t, seqNo)
    ensures ListsSound(t) ==> ok
  {
    ghost var m := st.Sense();
    var y: nat := seqNo;
    while y > 0
      invariant y <= seqNo
      invariant st.Valid() && st.Sense() == m.(included := st.Sense().included)
      invariant IncludedDownTo(t, m.included, st.Sense().included, y, seqNo)
    {
      ghost var x := st.Sense().included;
      if st.states[y].included {
        assert y in x;
        if y !in t {
          return false;
        }
        ok := TagList(t[y].included, y, st, Include);
        if !ok {
          return;
        }
      }
      IncludeStep(t, m.included, x, y, seqNo);
      y := y - 1;
    }
    return true;
  }

  /** The exclude pass has dealt with every number below y. */
  ghost predicate ExcludedUpTo(t: Index, x: set<nat>, e: set<nat>, y: nat) {
    forall s :: s in e <==> exists k :: k in x && 0 < k < y && k in t && s in t[k].excluded && s != k
  }

  lemma ExcludeStep(t: Index, x: set<nat>, e: set<nat>, y: nat)
    requires 0 < y && ExcludedUpTo(t, x, e, y)
    ensures ExcludedUpTo(t, x, if y in x && y in t then e + Others(t[y].excluded, y) else e, y + 1)
  {
    forall s | exists k :: k in x && 0 < k < y + 1 && k in t && s in t[k].excluded && s != k
      ensures s in e || (y in x && y in t && s in Others(t[y].excluded, y))
    {
      var k :| k in x && 0 < k < y + 1 && k in t && s in t[k].excluded && s != k;
    }
  }

  /** One ascending pass excludes exactly the union of the exclude lists of the included deltas. */
  method ExcludePass(t: Index, st: SeqState, seqNo: nat) returns (ok: bool)
    requires st.Valid() && seqNo < st.states.Length
    requires Within(st.Sense().included, t, seqNo) && st.Sense().excluded == st.Sense().ignored == {}
    modifies st.states
    ensures st.Valid()
    ensures ok ==> IsExcludedBy(t, old(st.Sense()).included, st.Sense().excluded)
    ensures ok ==> st.Sense() == old(st.Sense()).(included := old(st.Sense()).included - st.Sense().excluded, excluded := st.Sense().excluded)
    ensures ListsSound(t) ==> ok
  {
    ghost var m := st.Sense();
    var y: nat := 1;
    while y <= seqNo
      invariant 1 <= y <= seqNo + 1
      invariant st.Valid() && st.Sense() == m.(included := m.included - st.Sense().excluded, excluded := st.Sense().excluded)
      invariant ExcludedUpTo(t, m.included, st.Sense().excluded, y)
      invariant forall s :: s in st.Sense().excluded ==> s < y
    {
      ghost var e := st.Sense().excluded;
      ExcludeStep(t, m.included, e, y);
      assert st.states[y].included <==> y in st.Sense().included;
      if st.states[y].included {
        ok := TagList(t[y].excluded, y, st, Exclude);
        if !ok {
          return;
        }
        assert m.included - e - Others(t[y].excluded, y) == m.included - (e + Others(t[y].excluded, y));
      }
      y := y + 1;
    }
    return true;
  }

  /** The delta y has s on its ignore list. */
  predicate Lists(t: Index, y: nat, s: nat) {
    y in t && s in t[y].ignored && s != y
  }

  /** The ignore pass has dealt with every number above y. */
  ghost predicate IgnoredDownTo(t: Index, k: set<nat>, g: set<nat>, y: nat) {
    && (forall s :: s in g <==> exists z :: z in k && z > y && z !in g && Lists(t, z, s))
    && (forall z: nat, s: nat :: z in k && z > y && z !in g && Lists(t, z, s) ==> s < z)
  }

  lemma IgnoreStep(t: Index, k: set<nat>, g: set<nat>, y: nat)
    requires 0 < y && IgnoredDownTo(t, k, g, y)
    requires y in k && y !in g ==> y in t && forall s :: s in t[y].ignored ==> s <= y
    ensures IgnoredDownTo(t, k, if y in k && y !in g then g + Others(t[y].ignored, y) else g, y - 1)
  {
    var g' := if y in k && y !in g then g + Others(t[y].ignored, y) else g;
    forall s
      ensures s in g' <==> exists z :: z in k && z > y - 1 && z !in g' && Lists(t, z, s)
    {
      if s in g {
        var z :| z in k && z > y && z !in g && Lists(t, z, s);
        assert z !in g';
      } else if s in g' {
        assert Lists(t, y, s);
      }
      if exists z :: z in k && z > y - 1 && z !in g' && Lists(t, z, s) {
        var z :| z in k && z > y - 1 && z !in g' && Lists(t, z, s);
        assert z == y || z > y;
      }
    }
  }

  /** One descending pass applies the ignore lists of those deltas that are not ignored themselves. */
  method IgnorePass(t: Index, st: SeqState, seqNo: nat) returns (ok: bool)
    requires st.Valid() && seqNo < st.states.Length
    requires Within(st.Sense().included, t, seqNo) && st.Sense().ignored == {}
    modifies st.states
    ensures st.Valid()
    ensures ok ==> IsIgnoredBy(t, old(st.Sense()).included, st.Sense().ignored)
    ensures ok ==> var m, g := old(st.Sense()), st.Sense().ignored;
                   st.Sense() == Meaning(m.included - g, m.excluded - g, g, m.open)
    ensures ListsSound(t) ==> ok
  {
    ghost var m := st.Sense();
    var y: nat := seqNo;
    while y > 0
      invariant y <= seqNo
      invariant st.Valid()
      invariant var g := st.Sense().ignored; st.Sense() == Meaning(m.included - g, m.excluded - g, g, m.open)
      invariant IgnoredDownTo(t, m.included, st.Sense().ignored, y)
    {
      ghost var g := st.Sense().ignored;
      assert st.states[y].included <==> y in st.Sense().included;
      if st.states[y].included {
        ok := TagList(t[y].ignored, y, st, Ignore);
        if !ok {
          return;
        }
        assert m.included - g - Others(t[y].ignored, y) == m.included - (g + Others(t[y].ignored, y));
        assert m.excluded - g - Others(t[y].ignored, y) == m.excluded - (g + Others(t[y].ignored, y));
      }
      IgnoreStep(t, m.included, g, y);
      y := y - 1;
    }
    return true;
  }

  /** The ignore rule has one solution. */
  lemma {:induction false} IgnoredIsUnique(t: Index, k: set<nat>, g: set<nat>, g': set<nat>, s: nat, top: nat)
    requires IsIgnoredBy(t, k, g) && IsIgnoredBy(t, k, g')
    requires forall y, i :: y in k && y in t && i in t[y].ignored ==> i <= y
    requires forall y :: y in k ==> y <= top
    ensures s in g <==> s in g'
    decreases top - s
  {
    forall y | y in k && y > s
      ensures y in g <==> y in g'
    {
      IgnoredIsUnique(t, k, g, g', y, top);
    }
    if s in g {
      var y :| y in k && y > 0 && y !in g && y in t && s in t[y].ignored && s != y;
      assert y !in g';
    }
    if s in g' {
      var y :| y in k && y > 0 && y !in g' && y in t && s in t[y].ignored && s != y;
      assert y !in g;
    }
  }

  /** The selection for a version.  The included deltas are the least set `inc` that contains the
      ancestor chain and is closed under include lists, less the excluded and the ignored ones. */
  method PrepareSeqState(t: Index, st: SeqState, seqNo: nat) returns (ok: bool, ghost inc: set<nat>, ghost exc: set<nat>)
    requires st.Valid() && 0 < seqNo < st.states.Length
    requires st.Sense() == Meaning({}, {}, {}, NONE_OPEN)
    modifies st.states
    ensures st.Valid()
    ensures Sound(t) && ListsSound(t) && seqNo in t ==> ok
    ensures ok ==> IsLeastClosed(t, Ancestors(t, seqNo), inc) && IsExcludedBy(t, inc, exc)
    ensures ok ==> IsIgnoredBy(t, inc - exc, st.Sense().ignored)
    ensures ok ==> forall y, s :: y in inc && y > 0 && y in t && s in t[y].included && s != y ==> s in inc
    ensures ok ==> forall s :: s in exc <==> exists y :: y in inc && y > 0 && y in t && s in t[y].excluded && s != y
    ensures ok ==> forall s :: s in st.Sense().ignored <==>
                     exists y :: y in inc && y !in exc && y > 0 && y !in st.Sense().ignored && y in t && s in t[y].ignored && s != y
    ensures ok ==> var g := st.Sense().ignored;
                   st.Sense() == Meaning(inc - exc - g, exc - g, g, NONE_OPEN)
  {
    inc, exc := {}, {};
    ok := TagAncestors(t, st, seqNo);
    if !ok {
      return;
    }
    ChainBounded(Prevs(t), seqNo);
    ok := IncludePass(t, st, seqNo);
    if !ok {
      return;
    }
    inc := st.Sense().included;
    ok := ExcludePass(t, st, seqNo);
    if !ok {
      return;
    }
    exc := st.Sense().excluded;
    ok := IgnorePass(t, st, seqNo);
  }

  ghost predicate NoLists(t: Index) {
    forall y :: y in t ==> t[y].included == t[y].excluded == t[y].ignored == []
  }

  /** Without stored lists the selection is the ancestor chain. */
  lemma PlainSelection(t: Index, seqNo: nat, inc: set<nat>, exc: set<nat>, g: set<nat>)
    requires NoLists(t)
    requires IsLeastClosed(t, Ancestors(t, seqNo), inc) && IsExcludedBy(t, inc, exc) && IsIgnoredBy(t, inc - exc, g)
    ensures inc == Ancestors(t, seqNo) && exc == {} && g == {}
  {
    assert ClosedUnderIncludes(t, Ancestors(t, seqNo));
    assert exc == {} && g == {};
  }
}
