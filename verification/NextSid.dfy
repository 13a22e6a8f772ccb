/** Choosing the SID of a new delta. */
module NextSids {
  import opened Basics
  import opened Sids
  import opened Deltas
  import opened DeltaTables

  datatype Flags = Flags(branch: bool, jointEdit: bool, defaultSid: Sid, ceiling: int)

  /** The SIDs of live deltas and of pending edits. */
  function Used(items: seq<Delta>, pending: set<Sid>): set<Sid> {
    (set i | 0 <= i < |items| && !items[i].Removed() :: items[i].id) + pending
  }

  datatype Choice =
    | Chosen(id: Sid)
    | BeingEdited(id: Sid)  // already being edited, and joint edits are off
    | Collision(id: Sid)    // the final assertion fails

  /** A live delta or a pending edit has the SID. */
  method SidInUse(t: DeltaTable, pending: set<Sid>, id: Sid) returns (used: bool)
    ensures used <==> id in pending || exists i :: 0 <= i < |t.items| && t.items[i].kind != 'R' && t.items[i].id == id
    ensures used <==> id in Used(t.items, pending)
  {
    var found := t.Find(id);
    used := found.Some? || id in pending;
    if found.Some? {
      assert t.items[found.value].id in Used(t.items, pending);
    }
  }

  /** The first free level at or after next. */
  method FreeLevel(t: DeltaTable, pending: set<Sid>, start: Sid) returns (next: Sid)
    ensures next !in Used(t.items, pending)
    ensures next.rel == start.rel && start.level < next.level && next.branch == next.sequence == 0
    ensures forall l :: start.level < l < next.level ==> Sid(start.rel, l, 0, 0) in Used(t.items, pending)
  {
    next := start.NextLevel();
    var used := SidInUse(t, pending, next);
    while used
      invariant used <==> next in Used(t.items, pending)
      invariant next == Sid(start.rel, next.level, 0, 0) && start.level < next.level
      invariant forall l :: start.level < l < next.level ==> Sid(start.rel, l, 0, 0) in Used(t.items, pending)
      decreases (set u | u in Used(t.items, pending) && u.level >= next.level), used
    {
      ghost var before := set u | u in Used(t.items, pending) && u.level >= next.level;
      assert next in before;
      next := next.NextLevel();
      used := SidInUse(t, pending, next);
    }
  }

  /** The first delta of a branch that leaves the same release and level later than start. */
  predicate OnLaterBranch(start: Sid, next: Sid) {
    next.rel == start.rel && next.level == start.level && start.branch < next.branch && next.sequence == 1
  }

  /** The first free branch at or after start. */
  ghost predicate IsFreeBranch(used: set<Sid>, start: Sid, next: Sid) {
    && next !in used
    && (next == start || (start in used && OnLaterBranch(start, next)))
    && forall b :: start.branch < b < next.branch ==> Sid(start.rel, start.level, b, 1) in used
  }

  /** Looks for a free branch; pending edits count when joint edits are on. */
  method FreeBranch(t: DeltaTable, pending: set<Sid>, joint: bool, start: Sid) returns (next: Sid)
    ensures IsFreeBranch(Used(t.items, if joint then pending else {}), start, next)
  {
    next := start;
    var seen := if joint then pending else {};
    var used := SidInUse(t, seen, next);
    while used
      invariant used <==> next in Used(t.items, seen)
      invariant next == start || (OnLaterBranch(start, next) && start in Used(t.items, seen))
      invariant forall b :: start.branch < b < next.branch ==> Sid(start.rel, start.level, b, 1) in Used(t.items, seen)
      decreases (set u | u in Used(t.items, seen) && u.branch >= next.branch), used
    {
      ghost var before := set u | u in Used(t.items, seen) && u.branch >= next.branch;
      assert next in before;
      next := next.NextBranch();
      used := SidInUse(t, seen, next);
    }
  }

  /** A default SID takes the place of the request. */
  function Requested(flags: Flags, request: Sid): Sid {
    if flags.defaultSid.IsNull() then request else flags.defaultSid
  }

  /** The SID that comes first to mind: the lowest free level of a bare release, otherwise the
      successor of what was retrieved or requested. */
  ghost predicate IsCandidate(used: set<Sid>, requested: Sid, got: Sid, first: Sid) {
    if requested.ReleaseOnly() then
      && first == Sid(requested.rel, first.level, 0, 0) && requested.level < first.level && first !in used
      && forall l :: requested.level < l < first.level ==> Sid(requested.rel, l, 0, 0) in used
    else first == if requested.PartialSid() then got.Succ() else requested.Succ()
  }

  /** The request is above the ceiling, or an old release of the trunk was retrieved. */
  predicate MustFork(flags: Flags, requested: Sid, got: Sid, highRelease: Sid) {
    || (requested.OnTrunk() && flags.ceiling > 0 && requested.rel > flags.ceiling)
    || (requested.Components() < 3 && got.rel < highRelease.rel)
  }

  ghost predicate Known(items: seq<Delta>, id: Sid) {
    exists i :: 0 <= i < |items| && items[i].id == id
  }

  /** The first entry with that SID, removed or not, is live. */
  ghost predicate Taken(items: seq<Delta>, id: Sid) {
    exists i :: 0 <= i < |items| && items[i].id == id && !items[i].Removed() && forall j :: 0 <= j < i ==> items[j].id != id
  }

  /** The candidate will not do, so a branch is made instead. */
  ghost predicate Blocked(items: seq<Delta>, pending: set<Sid>, flags: Flags, requested: Sid, first: Sid) {
    if flags.jointEdit then first in Used(items, pending) else Taken(items, first) && !requested.PartialSid()
  }

  /** The SIDs that the search for a free branch passes over: pending edits count when joint edits are on. */
  ghost function Avoided(items: seq<Delta>, pending: set<Sid>, flags: Flags): set<Sid> {
    Used(items, if flags.jointEdit then pending else {})
  }

  /** The outcome for a SID: chosen if it is free. */
  ghost predicate Settles(used: set<Sid>, c: Choice) {
    !c.BeingEdited? && (c.Chosen? <==> c.id !in used)
  }

  /** Where the search for a free branch starts, if a branch is made. */
  ghost function BranchStart(items: seq<Delta>, pending: set<Sid>, flags: Flags, requested: Sid, got: Sid,
                             wantBranch: bool, highRelease: Sid, first: Sid): Option<Sid> {
    if wantBranch && flags.branch then Some((if requested.Components() < 4 then got else first).NextBranch())
    else if MustFork(flags, requested, got, highRelease) || Blocked(items, pending, flags, requested, first) then Some(got.NextBranch())
    else None
  }

  /** The candidate is being edited by somebody, and joint edits are off. */
  ghost predicate Locked(items: seq<Delta>, pending: set<Sid>, flags: Flags, wantBranch: bool, first: Sid) {
    !(wantBranch && flags.branch) && !flags.jointEdit && first in pending && !Known(items, first)
  }

  /** The answer for a request: the candidate or the first free branch, whichever applies. */
  ghost predicate IsChoice(items: seq<Delta>, pending: set<Sid>, flags: Flags, requested: Sid, got: Sid,
                           wantBranch: bool, highRelease: Sid, first: Sid, c: Choice) {
    var used := Used(items, pending);
    var start := BranchStart(items, pending, flags, requested, got, wantBranch, highRelease, first);
    && IsCandidate(used, requested, got, first)
    && if Locked(items, pending, flags, wantBranch, first) then c == BeingEdited(first)
       else if start.Some? then Settles(used, c) && IsFreeBranch(Avoided(items, pending, flags), start.value, c.id)
       else Settles(used, c) && c.id == first
  }

  lemma FreeBranchIsUnique(used: set<Sid>, start: Sid, a: Sid, b: Sid)
    requires IsFreeBranch(used, start, a) && IsFreeBranch(used, start, b)
    ensures a == b
  {
    if a.branch < b.branch {
      assert a == start || a == Sid(start.rel, start.level, a.branch, 1);
    } else if b.branch < a.branch {
      assert b == start || b == Sid(start.rel, start.level, b.branch, 1);
    }
  }

  /** With joint edits on there is always an answer, and it is free. */
  lemma JointEditIsFresh(items: seq<Delta>, pending: set<Sid>, flags: Flags, requested: Sid, got: Sid,
                         wantBranch: bool, highRelease: Sid, first: Sid, c: Choice)
    requires flags.jointEdit && IsChoice(items, pending, flags, requested, got, wantBranch, highRelease, first, c)
    ensures c.Chosen? && c.id !in Used(items, pending)
  {
  }

  // ---------------------------------------------------------------- when a branch is made

  lemma FreeBranchesOff(used: set<Sid>, got: Sid, id: Sid)
    requires IsFreeBranch(used, got.NextBranch(), id)
    ensures id.rel == got.rel && id.level == got.level && id.branch > got.branch && id.sequence == 1
  {
  }

  /** The high release exceeds a release exactly when some SID that competes for it does. */
  lemma HighReleaseExceeds(items: seq<Delta>, high: Sid, rel: int)
    requires IsHighestRelease(high, items) && 0 <= rel
    ensures rel < high.rel <==> exists j :: Competes(items, j) && items[j].id.rel > rel
  {
    if forall i :: 0 <= i < |items| ==> !LiveTrunk(items[i]) {
      assert forall j :: !Competes(items, j);
    } else {
      var k :| Competes(items, k) && items[k].id == high;
      assert rel < high.rel ==> items[k].id.rel > rel;
    }
  }

  /** A delta over an old release of the trunk is put on a branch: when the request has fewer than three
      components and some live trunk delta has a later release, whatever is chosen leaves from `got`. */
  lemma OldReleaseForks(items: seq<Delta>, pending: set<Sid>, flags: Flags, requested: Sid, got: Sid,
                        wantBranch: bool, high: Sid, first: Sid, id: Sid, j: nat)
    requires IsChoice(items, pending, flags, requested, got, wantBranch, high, first, Chosen(id)) && IsHighestRelease(high, items)
    requires requested.rel <= 0 || requested.level == 0 || requested.branch == 0
    requires j < |items| && items[j].kind != 'R' && items[j].id.rel > got.rel >= 0 && items[j].id.level != 0 && items[j].id.branch == 0
    ensures id.rel == got.rel && id.level == got.level && id.branch > got.branch && id.sequence == 1
  {
    assert LiveTrunk(items[j]) && Competes(items, j);
    HighReleaseExceeds(items, high, got.rel);
    FreeBranchesOff(Avoided(items, pending, flags), got, id);
  }

  /** So is one over a trunk delta above the ceiling. */
  lemma CeilingForks(items: seq<Delta>, pending: set<Sid>, flags: Flags, requested: Sid, got: Sid,
                     wantBranch: bool, high: Sid, first: Sid, id: Sid)
    requires IsChoice(items, pending, flags, requested, got, wantBranch, high, first, Chosen(id))
    requires requested.rel > 0 && requested.level != 0 && requested.branch == 0
    requires 0 < flags.ceiling < requested.rel
    ensures id.rel == got.rel && id.level == got.level && id.branch > got.branch && id.sequence == 1
  {
    FreeBranchesOff(Avoided(items, pending, flags), got, id);
  }

  /** So is one whose next SID is already there: taken by a live delta when a whole SID was requested, or, with
      joint edits, by anybody. */
  lemma TakenSidForks(items: seq<Delta>, pending: set<Sid>, flags: Flags, requested: Sid, got: Sid,
                      wantBranch: bool, high: Sid, first: Sid, id: Sid, j: nat)
    requires IsChoice(items, pending, flags, requested, got, wantBranch, high, first, Chosen(id)) && !(wantBranch && flags.branch)
    requires j < |items| && items[j].kind != 'R' && items[j].id == first
    requires flags.jointEdit
             || (requested.level != 0 && (requested.branch == 0 || requested.sequence != 0) && forall k :: 0 <= k < j ==> items[k].id != first)
    ensures id.rel == got.rel && id.level == got.level && id.branch > got.branch && id.sequence == 1
  {
    assert items[j].id in Used(items, pending);
    FreeBranchesOff(Avoided(items, pending, flags), got, id);
  }

  /** And so is one for which a branch is wanted and allowed. */
  lemma WantedBranchForks(items: seq<Delta>, pending: set<Sid>, flags: Flags, requested: Sid, got: Sid,
                          high: Sid, first: Sid, id: Sid)
    requires IsChoice(items, pending, flags, requested, got, true, high, first, Chosen(id)) && flags.branch
    ensures requested.rel <= 0 || requested.level == 0 || requested.branch == 0 || requested.sequence == 0 ==>
              id.rel == got.rel && id.level == got.level && id.branch > got.branch && id.sequence == 1
    ensures requested.rel > 0 && requested.level != 0 && requested.branch != 0 && requested.sequence != 0 ==>
              id.rel == requested.rel && id.level == requested.level && id.branch > requested.branch && id.sequence == 1
  {
    FreeBranchesOff(Avoided(items, pending, flags), if requested.Components() < 4 then got else first, id);
  }

  /** In all other cases the next SID in line is chosen: after a bare release its lowest free level, after a
      whole SID or what was retrieved for part of one the next level, or the next number on the branch. */
  lemma NextInLine(items: seq<Delta>, pending: set<Sid>, flags: Flags, requested: Sid, got: Sid,
                   wantBranch: bool, high: Sid, first: Sid, c: Choice)
    requires IsChoice(items, pending, flags, requested, got, wantBranch, high, first, c) && IsHighestRelease(high, items)
    requires !(wantBranch && flags.branch) && 0 <= got.rel
    requires first !in Used(items, pending)
    requires (requested.rel > 0 && requested.level != 0 && requested.branch != 0) || !exists j :: Competes(items, j) && items[j].id.rel > got.rel
    requires !(requested.rel > 0 && requested.level != 0 && requested.branch == 0 && 0 < flags.ceiling < requested.rel)
    ensures c == Chosen(first)
    ensures requested.rel != 0 && requested.level == 0 ==>
              && first.rel == requested.rel && first.level > 0 && first.branch == first.sequence == 0
              && forall l :: 0 < l < first.level ==> Sid(requested.rel, l, 0, 0) in Used(items, pending)
    ensures requested.level != 0 && requested.branch == 0 ==> first == Sid(requested.rel, requested.level + 1, 0, requested.sequence)
    ensures requested.level != 0 && requested.branch != 0 && requested.sequence != 0 ==>
              first == Sid(requested.rel, requested.level, requested.branch, requested.sequence + 1)
    ensures (requested.rel == 0 && requested.level == 0) || (requested.level != 0 && requested.branch != 0 && requested.sequence == 0) ==>
              first == if got.branch != 0 then Sid(got.rel, got.level, got.branch, got.sequence + 1)
                       else if got.level != 0 then Sid(got.rel, got.level + 1, 0, got.sequence) else Sid(got.rel + 1, 0, 0, got.sequence)
  {
    HighReleaseExceeds(items, high, got.rel);
    assert forall i :: 0 <= i < |items| && !items[i].Removed() ==> items[i].id in Used(items, pending);
  }

  /** With joint edits off, a next SID that somebody is editing and no delta has ever had is reported, and one
      that a live delta has while only part of a SID was requested runs into the final assertion. */
  lemma SoloEditFailures(items: seq<Delta>, pending: set<Sid>, flags: Flags, requested: Sid, got: Sid,
                         wantBranch: bool, high: Sid, first: Sid, c: Choice)
    requires IsChoice(items, pending, flags, requested, got, wantBranch, high, first, c)
    requires !flags.jointEdit && !(wantBranch && flags.branch)
    ensures first in pending && (forall i :: 0 <= i < |items| ==> items[i].id != first) ==> c == BeingEdited(first)
    ensures (exists i :: 0 <= i < |items| && items[i].id == first && items[i].kind != 'R')
            && (requested.level == 0 || (requested.branch != 0 && requested.sequence == 0)) && !MustFork(flags, requested, got, high)
            ==> c == Collision(first)
  {
    assert forall i :: 0 <= i < |items| && !items[i].Removed() ==> items[i].id in Used(items, pending);
  }

  /** A default SID takes the place of whatever was requested. */
  lemma DefaultReplacesRequest(flags: Flags, request: Sid)
    ensures flags.defaultSid.rel > 0 ==> Requested(flags, request) == flags.defaultSid
    ensures flags.defaultSid.rel <= 0 ==> Requested(flags, request) == request
  {
  }

  /** The branch to be made is free of live deltas but pending. */
  ghost predicate PendingBranch(items: seq<Delta>, pending: set<Sid>, start: Sid) {
    exists b :: b in pending && IsFreeBranch(Used(items, {}), start, b)
  }

  /** With joint edits off a free SID comes out exactly when nobody is editing the candidate, the branch
      to be made (if any) is not pending, and otherwise the candidate is not in use. */
  lemma SoloEditIsFreshExactlyWhen(items: seq<Delta>, pending: set<Sid>, flags: Flags, requested: Sid, got: Sid,
                                   wantBranch: bool, highRelease: Sid, first: Sid, c: Choice)
    requires !flags.jointEdit && IsChoice(items, pending, flags, requested, got, wantBranch, highRelease, first, c)
    ensures c.Chosen? <==>
            var start := BranchStart(items, pending, flags, requested, got, wantBranch, highRelease, first);
            && !Locked(items, pending, flags, wantBranch, first)
            && if start.Some? then !PendingBranch(items, pending, start.value) else first !in Used(items, pending)
  {
    var start := BranchStart(items, pending, flags, requested, got, wantBranch, highRelease, first);
    if !Locked(items, pending, flags, wantBranch, first) && start.Some? {
      assert IsFreeBranch(Used(items, {}), start.value, c.id);
      if PendingBranch(items, pending, start.value) {
        var b :| b in pending && IsFreeBranch(Used(items, {}), start.value, b);
        FreeBranchIsUnique(Used(items, {}), start.value, b, c.id);
      }
    }
  }

  /** The answer to `get -e -b` with 1.1 and 1.1.1.1 in the table, branches on and joint edits off. */
  ghost predicate SoloBranch(d: Delta, e: Delta, pending: set<Sid>, got: Sid, highRelease: Sid, first: Sid, c: Choice) {
    && d.id == Sid(1, 1, 0, 0) && !d.Removed() && e.id == Sid(1, 1, 1, 1) && !e.Removed()
    && (got == d.id || got == e.id)
    && IsChoice([d, e], pending, Flags(true, false, NULL_SID, 0), got, got, true, highRelease, first, c)
  }

  lemma SoloBranchIsNext(d: Delta, e: Delta, pending: set<Sid>, got: Sid, highRelease: Sid, first: Sid, c: Choice)
    requires SoloBranch(d, e, pending, got, highRelease, first, c)
    ensures c.id == Sid(1, 1, 2, 1)
  {
    var live, branch := Used([d, e], {}), Sid(1, 1, 2, 1);
    assert live == {d.id, e.id} by { assert [d, e][0].id in live && [d, e][1].id in live; }
    var start := if got == d.id then e.id else branch;
    assert IsFreeBranch(live, start, branch);
    FreeBranchIsUnique(live, start, branch, c.id);
  }

  /** The first editor, of either version, is given 1.1.2.1. */
  lemma SoloEditFirstBranch(d: Delta, e: Delta, got: Sid, highRelease: Sid, first: Sid, c: Choice)
    requires SoloBranch(d, e, {}, got, highRelease, first, c)
    ensures c == Chosen(Sid(1, 1, 2, 1))
  {
    SoloBranchIsNext(d, e, {}, got, highRelease, first, c);
    assert Used([d, e], {}) == {d.id, e.id} by { assert [d, e][0].id in Used([d, e], {}) && [d, e][1].id in Used([d, e], {}); }
  }

  /** A second editor, of the other version (which nobody has locked), runs into the final assertion:
      the search passes over live deltas only, and ends at the pending 1.1.2.1. */
  lemma SoloEditMayCollide(d: Delta, e: Delta, got: Sid, highRelease: Sid, first: Sid, c: Choice)
    requires SoloBranch(d, e, {Sid(1, 1, 2, 1)}, got, highRelease, first, c)
    ensures c == Collision(Sid(1, 1, 2, 1))
  {
    SoloBranchIsNext(d, e, {Sid(1, 1, 2, 1)}, got, highRelease, first, c);
  }

  /** The SID that comes first to mind. */
  method Candidate(t: DeltaTable, pending: set<Sid>, requested: Sid, got: Sid) returns (next: Sid)
    ensures IsCandidate(Used(t.items, pending), requested, got, next)
  {
    if requested.ReleaseOnly() {
      next := FreeLevel(t, pending, requested);
    } else if requested.PartialSid() {
      next := got.Succ();
    } else {
      next := requested.Succ();
    }
  }

  /** Has the candidate collided with an existing SID or with a pending edit? */
  method Collides(t: DeltaTable, pending: set<Sid>, flags: Flags, requested: Sid, next: Sid) returns (locked: bool, branchAgain: bool)
    ensures locked <==> Locked(t.items, pending, flags, false, next)
    ensures !locked ==> (branchAgain <==> Blocked(t.items, pending, flags, requested, next))
  {
    locked := false;
    var any := t.FindAny(next);
    var used := SidInUse(t, pending, next);
    if any.Some? {
      if !t.items[any.value].Removed() && !requested.PartialSid() {
        assert t.items[any.value].id in Used(t.items, pending);
        branchAgain := true;
      } else {
        branchAgain := used && flags.jointEdit;
      }
    } else if used {
      locked, branchAgain := !flags.jointEdit, true;
    } else {
      branchAgain := false;
    }
  }

  /** The SID for a delta over `got`.  With joint edits on it is always free: the candidate if that
      will do, and otherwise the first free branch.  With joint edits off the search for a branch does not
      look at pending edits, and the result may collide with one. */
  method FindNextSid(t: DeltaTable, pending: set<Sid>, flags: Flags, request: Sid, got: Sid, wantBranch: bool)
    returns (c: Choice, ghost first: Sid)
    requires t.Valid()
    ensures c.Chosen? ==> c.id !in Used(t.items, pending)
    ensures c.Chosen? ==> c.id !in pending && forall i :: 0 <= i < |t.items| && t.items[i].kind != 'R' ==> t.items[i].id != c.id
    ensures flags.jointEdit ==> c.Chosen?
    ensures IsChoice(t.items, pending, flags, if flags.defaultSid.rel > 0 then flags.defaultSid else request, got, wantBranch, t.highRelease, first, c)
  {
    DefaultReplacesRequest(flags, request);
    hide IsCandidate, IsFreeBranch, Blocked, Known;
    var branching := wantBranch && flags.branch;
    var requested := Requested(flags, request);
    var next := Candidate(t, pending, requested, got);
    first := next;
    var forced := false;
    if branching {
      if requested.Components() < 4 {
        next := got;
      }
      next := next.NextBranch();
    } else {
      var locked, branchAgain := Collides(t, pending, flags, requested, next);
      if locked {
        return BeingEdited(next), first;
      }
      if branchAgain || MustFork(flags, requested, got, t.highRelease) {
        next := got.NextBranch();
        forced := true;
      }
    }
    if branching || forced {
      next := FreeBranch(t, pending, flags.jointEdit, next);
    }
    var clash := SidInUse(t, pending, next);
    c := if clash then Collision(next) else Chosen(next);
    assert clash || next !in Used(t.items, pending);
    if flags.jointEdit {
      JointEditIsFresh(t.items, pending, flags, requested, got, wantBranch, t.highRelease, first, c);
    }
  }
}
