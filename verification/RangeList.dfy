/** Lists of SID ranges, normalised. */
module RangeLists {
  import opened Sids

  datatype Range = Range(from_: Sid, to_: Sid)

  /** The SIDs of the trunk, or of one branch: a totally ordered family. */
  datatype Family = Trunk | Branch(rel: int, level: int, branch: int)

  predicate In(f: Family, x: Sid) {
    match f
    case Trunk => 0 < x.rel && 0 < x.level && x.branch == 0 && x.sequence == 0
    case Branch(r, l, b) => 0 < r && 0 < l && 0 < b && x.rel == r && x.level == l && x.branch == b && 0 < x.sequence
  }

  predicate RangeIn(f: Family, r: Range) {
    In(f, r.from_) && In(f, r.to_)
  }

  ghost predicate AllIn(f: Family, rs: seq<Range>) {
    forall i :: 0 <= i < |rs| ==> RangeIn(f, rs[i])
  }

  predicate Holds(r: Range, x: Sid) {
    r.from_.AtMost(x) && x.AtMost(r.to_)
  }

  ghost predicate Member(rs: seq<Range>, x: Sid) {
    exists i :: 0 <= i < |rs| && Holds(rs[i], x)
  }

  /** Sorted, and neither overlapping nor adjacent. */
  ghost predicate Normal(rs: seq<Range>) {
    && (forall i :: 0 <= i < |rs| ==> rs[i].from_.AtMost(rs[i].to_))
    && (forall i, j :: 0 <= i < j < |rs| ==> rs[i].to_.Succ().Below(rs[j].from_))
  }

  /** The range lies wholly before the other one, with a gap. */
  predicate Apart(a: Range, b: Range) {
    a.to_.Succ().Below(b.from_)
  }

  lemma ApartIsBelowPred(f: Family, a: Range, b: Range)
    requires RangeIn(f, a) && RangeIn(f, b)
    ensures Apart(a, b) <==> a.to_.Below(b.from_.Pred())
  {
  }

  lemma NotApart(f: Family, a: Range, b: Range)
    requires RangeIn(f, a) && RangeIn(f, b)
    ensures Apart(a, b) <==> !b.from_.AtMost(a.to_.Succ())
  {
  }

  /** Every whole SID belongs to a family, all trunk SIDs to the same one, and all SIDs of one branch to the same. */
  lemma EverySidHasItsFamily(x: Sid)
    requires x.rel > 0 && x.level > 0
    ensures x.branch == 0 && x.sequence == 0 ==> In(Trunk, x)
    ensures x.branch > 0 && x.sequence > 0 ==> In(Branch(x.rel, x.level, x.branch), x)
  {
  }

  /** In a family, successor and predecessor are neighbours: nothing lies between. */
  lemma SuccIsNext(f: Family, x: Sid, y: Sid)
    requires In(f, x) && In(f, y)
    ensures In(f, x.Succ()) && x.Succ().Pred() == x
    ensures x.Below(x.Succ()) && !(x.Below(y) && y.Below(x.Succ()))
  {
  }

  /** The smallest range around two. */
  function Merged(a: Range, b: Range): Range {
    Range(if b.from_.Below(a.from_) then b.from_ else a.from_, if b.to_.Above(a.to_) then b.to_ else a.to_)
  }

  /** Merging ranges that touch adds nothing. */
  lemma MergedHolds(f: Family, a: Range, b: Range, x: Sid)
    requires RangeIn(f, a) && RangeIn(f, b) && In(f, x)
    requires a.from_.AtMost(a.to_) && b.from_.AtMost(b.to_) && !Apart(a, b) && !Apart(b, a)
    ensures RangeIn(f, Merged(a, b)) && Merged(a, b).from_.AtMost(Merged(a, b).to_)
    ensures Holds(Merged(a, b), x) <==> Holds(a, x) || Holds(b, x)
  {
  }

  lemma ApartTrans(f: Family, a: Range, b: Range, c: Range)
    requires RangeIn(f, a) && RangeIn(f, b) && RangeIn(f, c) && b.from_.AtMost(b.to_)
    requires Apart(a, b) && Apart(b, c)
    ensures Apart(a, c)
  {
  }

  /** One of the ranges i..j-1 holds x. */
  ghost predicate Between(rs: seq<Range>, i: nat, j: nat, x: Sid)
    requires i <= j <= |rs|
  {
    exists k :: i <= k < j && Holds(rs[k], x)
  }

  lemma BetweenNext(rs: seq<Range>, i: nat, j: nat, x: Sid)
    requires i <= j < |rs|
    ensures Between(rs, i, j + 1, x) <==> Between(rs, i, j, x) || Holds(rs[j], x)
  {
    if Between(rs, i, j, x) {
      var k :| i <= k < j && Holds(rs[k], x);
      assert Holds(rs[k], x);
    }
    if Holds(rs[j], x) {
      assert i <= j < j + 1;
    }
  }

  /** The insertion is in the middle of replacing the ranges i..j-1 by r. */
  ghost predicate Absorbing(f: Family, rs: seq<Range>, sp: Range, r: Range, i: nat, j: nat) {
    && i <= j <= |rs|
    && RangeIn(f, r) && r.from_.AtMost(r.to_) && r.from_.AtMost(sp.from_)
    && (forall k :: 0 <= k < i ==> Apart(rs[k], r))
    && (forall x :: In(f, x) ==> (Holds(r, x) <==> Holds(sp, x) || Between(rs, i, j, x)))
  }

  lemma AbsorbOne(f: Family, rs: seq<Range>, sp: Range, r: Range, i: nat, j: nat)
    requires AllIn(f, rs) && Normal(rs) && RangeIn(f, sp)
    requires Absorbing(f, rs, sp, r, i, j) && j < |rs| && !Apart(rs[i], sp) && !Apart(r, rs[j])
    ensures Absorbing(f, rs, sp, Merged(r, rs[j]), i, j + 1)
  {
    if Apart(rs[j], r) {
      if i < j {
        ApartTrans(f, rs[i], rs[j], r);
      }
      assert false;
    }
    forall x | In(f, x)
      ensures Holds(Merged(r, rs[j]), x) <==> Holds(sp, x) || Between(rs, i, j + 1, x)
    {
      MergedHolds(f, r, rs[j], x);
      BetweenNext(rs, i, j, x);
    }
    MergedHolds(f, r, rs[j], r.from_);
  }

  lemma SpliceNormal(f: Family, rs: seq<Range>, r: Range, i: nat, j: nat)
    requires i <= j <= |rs| && AllIn(f, rs) && Normal(rs) && RangeIn(f, r) && r.from_.AtMost(r.to_)
    requires forall k :: 0 <= k < i ==> Apart(rs[k], r)
    requires j < |rs| ==> Apart(r, rs[j])
    ensures AllIn(f, rs[..i] + [r] + rs[j..]) && Normal(rs[..i] + [r] + rs[j..])
  {
    var out := rs[..i] + [r] + rs[j..];
    forall k | j <= k < |rs|
      ensures Apart(r, rs[k])
    {
      if j < k {
        ApartTrans(f, r, rs[j], rs[k]);
      }
    }
    forall a, b | 0 <= a < b < |out|
      ensures Apart(out[a], out[b])
    {
      if a < i < b {
        assert out[b] == rs[b - i - 1 + j] && out[a] == rs[a];
      }
    }
  }

  lemma SpliceMembers(rs: seq<Range>, r: Range, i: nat, j: nat, x: Sid)
    requires i <= j <= |rs|
    ensures Member(rs[..i] + [r] + rs[j..], x) <==> Between(rs, 0, i, x) || Holds(r, x) || Between(rs, j, |rs|, x)
    ensures Member(rs, x) <==> Between(rs, 0, i, x) || Between(rs, i, j, x) || Between(rs, j, |rs|, x)
  {
    var out := rs[..i] + [r] + rs[j..];
    if Between(rs, 0, i, x) {
      var k :| 0 <= k < i && Holds(rs[k], x);
      assert Holds(out[k], x);
    }
    if Between(rs, j, |rs|, x) {
      var k :| j <= k < |rs| && Holds(rs[k], x);
      assert out[k - j + i + 1] == rs[k];
    }
    assert out[i] == r;
    if Member(out, x) {
      var k :| 0 <= k < |out| && Holds(out[k], x);
      if k < i {
        assert Holds(rs[k], x);
      } else if k > i {
        assert Holds(rs[k - i - 1 + j], x);
      }
    }
  }

  /** Inserts one range into a normal list: past the ranges before it, absorbing those that touch it. */
  method Insert(rs: seq<Range>, sp: Range, ghost f: Family) returns (out: seq<Range>)
    requires AllIn(f, rs) && Normal(rs) && RangeIn(f, sp) && sp.from_.AtMost(sp.to_)
    ensures AllIn(f, out) && Normal(out)
    ensures forall x :: In(f, x) ==> (Member(out, x) <==> Member(rs, x) || Holds(sp, x))
  {
    var i := 0;
    while i < |rs| && rs[i].to_.Below(sp.from_.Pred())
      invariant 0 <= i <= |rs|
      invariant forall k :: 0 <= k < i ==> Apart(rs[k], sp)
    {
      ApartIsBelowPred(f, rs[i], sp);
      i := i + 1;
    }
    if i < |rs| {
      ApartIsBelowPred(f, rs[i], sp);
    }
    var r, j := sp, i;
    while j < |rs| && rs[j].from_.AtMost(r.to_.Succ())
      invariant Absorbing(f, rs, sp, r, i, j)
    {
      NotApart(f, r, rs[j]);
      AbsorbOne(f, rs, sp, r, i, j);
      r, j := Merged(r, rs[j]), j + 1;
    }
    if j < |rs| {
      NotApart(f, r, rs[j]);
    }
    out := rs[..i] + [r] + rs[j..];
    SpliceNormal(f, rs, r, i, j);
    forall x | In(f, x)
      ensures Member(out, x) <==> Member(rs, x) || Holds(sp, x)
    {
      SpliceMembers(rs, r, i, j, x);
    }
  }

  lemma BackwardsHoldsNothing(f: Family, r: Range, x: Sid)
    requires RangeIn(f, r) && In(f, x) && !r.from_.AtMost(r.to_)
    ensures !Holds(r, x)
  {
  }

  lemma MemberConcat(xs: seq<Range>, ys: seq<Range>, x: Sid)
    ensures Member(xs + ys, x) <==> Member(xs, x) || Member(ys, x)
  {
    var all := xs + ys;
    if Member(xs, x) {
      var i :| 0 <= i < |xs| && Holds(xs[i], x);
      assert Holds(all[i], x);
    }
    if Member(ys, x) {
      var i :| 0 <= i < |ys| && Holds(ys[i], x);
      assert Holds(all[|xs| + i], x);
    }
    if Member(all, x) {
      var i :| 0 <= i < |all| && Holds(all[i], x);
      assert i < |xs| || Holds(ys[i - |xs|], x);
    }
  }

  ghost predicate SameMembers(f: Family, a: seq<Range>, b: seq<Range>) {
    forall x :: In(f, x) ==> (Member(a, x) <==> Member(b, x))
  }

  /** No range runs backwards. */
  ghost predicate Forward(rs: seq<Range>) {
    forall i :: 0 <= i < |rs| ==> rs[i].from_.AtMost(rs[i].to_)
  }

  lemma ForwardNext(rs: seq<Range>, r: Range)
    ensures Forward(rs + [r]) <==> Forward(rs) && r.from_.AtMost(r.to_)
  {
    assert (rs + [r])[|rs|] == r;
    assert forall i :: 0 <= i < |rs| ==> (rs + [r])[i] == rs[i];
  }

  /** Inserts the ranges one by one into a new list; those that run backwards are dropped. */
  method Normalise(rs: seq<Range>, ghost f: Family) returns (out: seq<Range>, ok: bool)
    requires AllIn(f, rs)
    ensures AllIn(f, out) && Normal(out) && SameMembers(f, out, rs)
    ensures ok <==> Forward(rs)
  {
    hide Member, Normal, Forward;
    out, ok := [], true;
    NothingIsNormal(f);
    for i := 0 to |rs|
      invariant AllIn(f, out) && Normal(out) && SameMembers(f, out, rs[..i])
      invariant ok <==> Forward(rs[..i])
    {
      ghost var before := out;
      if rs[i].from_.AtMost(rs[i].to_) {
        out := Insert(out, rs[i], f);
      } else {
        ok := false;
      }
      assert rs[..i + 1] == rs[..i] + [rs[i]];
      OneMore(f, rs[..i], before, out, rs[i]);
      ForwardNext(rs[..i], rs[i]);
    }
    assert rs[..|rs|] == rs;
  }

  lemma NothingIsNormal(f: Family)
    ensures AllIn(f, []) && Normal([]) && SameMembers(f, [], []) && Forward([])
  {
  }

  class RangeList {
    var ranges: seq<Range>
    var valid: bool

    constructor (rs: seq<Range>)
      ensures ranges == rs && valid
    {
      ranges, valid := rs, true;
    }

    /** Normalises the list.  It stays valid exactly when no range runs backwards, and the members are
        the same either way. */
    method Clean(ghost f: Family) returns (invalid: bool)
      requires AllIn(f, ranges)
      modifies this
      ensures invalid == !valid
      ensures !old(valid) ==> !valid && ranges == old(ranges)
      ensures old(valid) ==> AllIn(f, ranges) && Normal(ranges)
      ensures old(valid) ==> (valid <==> forall i :: 0 <= i < |old(ranges)| ==> old(ranges)[i].from_.AtMost(old(ranges)[i].to_))
      ensures old(valid) ==> forall i :: 0 <= i < |ranges| ==> ranges[i].from_.AtMost(ranges[i].to_)
      ensures old(valid) ==> forall i, j :: 0 <= i < j < |ranges| ==> ranges[i].to_.Succ().Below(ranges[j].from_)
      ensures SameMembers(f, ranges, old(ranges))
      ensures forall x :: In(f, x) ==> ((exists i :: 0 <= i < |ranges| && ranges[i].from_.AtMost(x) && x.AtMost(ranges[i].to_))
                                        <==> exists i :: 0 <= i < |old(ranges)| && old(ranges)[i].from_.AtMost(x) && x.AtMost(old(ranges)[i].to_))
    {
      if !valid {
        return true;
      }
      var out, ok := Normalise(ranges, f);
      ranges, valid := out, ok;
      return !valid;
    }

    /** Adds the ranges of another list, unless either list is invalid: the members are exactly the union. */
    method Merge(list: RangeList, ghost f: Family)
      requires AllIn(f, ranges) && AllIn(f, list.ranges)
      modifies this
      ensures !old(valid && list.valid) ==> valid == old(valid) && ranges == old(ranges)
      ensures old(valid && list.valid && list.ranges != []) ==> AllIn(f, ranges) && Normal(ranges)
      ensures old(valid && list.valid && list.ranges != []) ==> (valid <==> Forward(old(ranges + list.ranges)))
      ensures old(valid && list.valid) ==>
                forall x :: In(f, x) ==> (Member(ranges, x) <==> Member(old(ranges), x) || Member(old(list.ranges), x))
    {
      if !valid || !list.valid || list.ranges == [] {
        return;
      }
      forall x
        ensures Member(ranges + list.ranges, x) <==> Member(ranges, x) || Member(list.ranges, x)
      {
        MemberConcat(ranges, list.ranges, x);
      }
      ranges := ranges + list.ranges;
      var _ := Clean(f);
    }

    /** A read-only scan. */
    method IsMember(x: Sid) returns (r: bool)
      ensures r <==> exists i :: 0 <= i < |ranges| && ranges[i].from_.AtMost(x) && x.AtMost(ranges[i].to_)
      ensures r <==> Member(ranges, x)
    {
      for i := 0 to |ranges|
        invariant forall k :: 0 <= k < i ==> !Holds(ranges[k], x)
      {
        if ranges[i].from_.AtMost(x) && x.AtMost(ranges[i].to_) {
          return true;
        }
      }
      return false;
    }
  }

  lemma OneMore(f: Family, done: seq<Range>, before: seq<Range>, after: seq<Range>, sp: Range)
    requires RangeIn(f, sp)
    requires SameMembers(f, before, done)
    requires if sp.from_.AtMost(sp.to_)
             then forall x :: In(f, x) ==> (Member(after, x) <==> Member(before, x) || Holds(sp, x))
             else after == before
    ensures SameMembers(f, after, done + [sp])
  {
    forall x | In(f, x)
      ensures Member(after, x) <==> Member(done + [sp], x)
    {
      MemberConcat(done, [sp], x);
      assert Member([sp], x) <==> Holds(sp, x) by { assert [sp][0] == sp; }
      if !sp.from_.AtMost(sp.to_) {
        BackwardsHoldsNothing(f, sp, x);
      }
    }
  }
}
