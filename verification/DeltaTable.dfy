/** The delta table: a list of entries, newest first in the file, and an index by sequence number. */
module DeltaTables {
  import opened Basics
  import opened Sids
  import opened Deltas

  /** The entry that a lookup by sequence number must find: the last one that carries it. */
  ghost predicate IsLastWith(items: seq<Delta>, s: nat, i: nat) {
    && i < |items| && items[i].seqNo == s
    && forall j :: i < j < |items| ==> items[j].seqNo != s
  }

  predicate Carries(items: seq<Delta>, s: nat) {
    exists i :: 0 <= i < |items| && items[i].seqNo == s
  }

  ghost predicate IsIndexOf(m: map<nat, nat>, items: seq<Delta>) {
    && (forall s :: s in m ==> IsLastWith(items, s, m[s]))
    && (forall i :: 0 <= i < |items| ==> items[i].seqNo in m)
  }

  /** The maximum over live and removed deltas. */
  ghost predicate IsHighest(h: nat, items: seq<Delta>) {
    && (forall i :: 0 <= i < |items| ==> items[i].seqNo <= h)
    && (h == 0 || Carries(items, h))
  }

  predicate LiveTrunk(d: Delta) {
    !d.Removed() && d.id.OnTrunk()
  }

  /** The SIDs that compete for "highest release": live trunk SIDs, and any other live SID without a
      branch that comes after a live trunk SID. */
  predicate Competes(items: seq<Delta>, i: int) {
    && 0 <= i < |items| && !items[i].Removed() && items[i].id.Valid() && items[i].id.branch == 0
    && (items[i].id.OnTrunk() || exists j :: 0 <= j < i && LiveTrunk(items[j]))
  }

  ghost predicate IsHighestRelease(r: Sid, items: seq<Delta>) {
    if forall i :: 0 <= i < |items| ==> !LiveTrunk(items[i]) then r == NULL_SID
    else
      && (exists i :: Competes(items, i) && items[i].id == r)
      && (forall i :: Competes(items, i) ==> !items[i].id.Gt(r))
  }

  class DeltaTable {
    var items: seq<Delta>
    var seqTable: map<nat, nat>
    var highSeqno: nat
    var highRelease: Sid

    ghost predicate Valid()
      reads this
    {
      IsIndexOf(seqTable, items) && IsHighest(highSeqno, items) && IsHighestRelease(highRelease, items)
    }

    constructor ()
      ensures Valid() && items == [] && highSeqno == 0 && highRelease == Sid(0, 0, 0, 0)
    {
      items, seqTable, highSeqno, highRelease := [], map[], 0, NULL_SID;
    }

    method UpdateHighest(d: Delta)
      requires IsHighest(highSeqno, items) && IsHighestRelease(highRelease, items)
      modifies this`highSeqno, this`highRelease
      ensures IsHighest(highSeqno, items + [d]) && IsHighestRelease(highRelease, items + [d])
    {
      HighestAdd(highSeqno, items, d);
      HighestReleaseAdd(highRelease, items, d);
      if d.seqNo > highSeqno {
        highSeqno := d.seqNo;
      }
      if !d.Removed() {
        if highRelease.IsNull() {
          if d.id.OnTrunk() {
            highRelease := d.id;
          }
        } else if d.id.Above(highRelease) {
          highRelease := d.id;
        }
      }
    }

    method Add(d: Delta)
      requires Valid()
      modifies this
      ensures Valid() && items == old(items) + [d]
    {
      UpdateHighest(d);
      IndexAdd(seqTable, items, d);
      seqTable := seqTable[d.seqNo := |items|];
      items := items + [d];
    }

    method AddAll(other: seq<Delta>)
      requires Valid()
      modifies this
      ensures Valid() && items == old(items) + other
    {
      ghost var whole := items + other;
      for i := 0 to |other|
        invariant Valid() && items + other[i..] == whole
      {
        assert other[i..] == [other[i]] + other[i + 1..];
        ConcatAssoc(items, [other[i]], other[i + 1..]);
        Add(other[i]);
      }
    }

    /** A new list is built with the entry in front, and swapped in. */
    method Prepend(d: Delta)
      requires Valid()
      modifies this
      ensures Valid() && items == [d] + old(items)
    {
      hide IsIndexOf, IsHighest, IsHighestRelease;
      var newList := new DeltaTable();
      newList.Add(d);
      newList.AddAll(items);
      assert [] + [d] == [d];
      items, seqTable, highSeqno, highRelease := newList.items, newList.seqTable, newList.highSeqno, newList.highRelease;
    }

    /** The next number, in 16-bit arithmetic: new, unless the highest number is the largest one. */
    method NextSeqno() returns (n: nat)
      requires Valid() && highSeqno <= 65535
      ensures highSeqno < 65535 ==> n == highSeqno + 1 && !Carries(items, n)
      ensures highSeqno == 65535 ==> n == 0
    {
      n := (highSeqno + 1) % 65536;
    }

    /** The first live entry with a SID. */
    method Find(id: Sid) returns (r: Option<nat>)
      ensures r.Some? ==> r.value < |items| && items[r.value].id == id && !items[r.value].Removed()
                          && forall j :: 0 <= j < r.value ==> items[j].Removed() || items[j].id != id
      ensures r.None? ==> forall j :: 0 <= j < |items| ==> items[j].Removed() || items[j].id != id
    {
      for i := 0 to |items|
        invariant forall j :: 0 <= j < i ==> items[j].Removed() || items[j].id != id
      {
        if !items[i].Removed() && items[i].id == id {
          return Some(i);
        }
      }
      return None;
    }

    /** The first entry with a SID, removed or not. */
    method FindAny(id: Sid) returns (r: Option<nat>)
      ensures r.Some? ==> r.value < |items| && items[r.value].id == id && forall j :: 0 <= j < r.value ==> items[j].id != id
      ensures r.None? ==> forall j :: 0 <= j < |items| ==> items[j].id != id
    {
      for i := 0 to |items|
        invariant forall j :: 0 <= j < i ==> items[j].id != id
      {
        if items[i].id == id {
          return Some(i);
        }
      }
      return None;
    }
  }

  // ---------------------------------------------------------------- one more entry

  lemma IndexAdd(m: map<nat, nat>, items: seq<Delta>, d: Delta)
    requires IsIndexOf(m, items)
    ensures IsIndexOf(m[d.seqNo := |items|], items + [d])
  {
    var items', m' := items + [d], m[d.seqNo := |items|];
    forall s | s in m'
      ensures IsLastWith(items', s, m'[s])
    {
      if s != d.seqNo {
        assert IsLastWith(items, s, m[s]);
      }
    }
  }

  lemma HighestAdd(h: nat, items: seq<Delta>, d: Delta)
    requires IsHighest(h, items)
    ensures IsHighest(if d.seqNo > h then d.seqNo else h, items + [d])
  {
    var items' := items + [d];
    assert items'[|items|] == d;
    if h != 0 {
      var i :| 0 <= i < |items| && items[i].seqNo == h;
      assert items'[i].seqNo == h;
    }
  }

  lemma CompetesAdd(items: seq<Delta>, d: Delta, i: nat)
    ensures i < |items| ==> (Competes(items + [d], i) <==> Competes(items, i))
    ensures Competes(items + [d], |items|)
       <==> !d.Removed() && d.id.Valid() && d.id.branch == 0 && (d.id.OnTrunk() || exists j :: 0 <= j < |items| && LiveTrunk(items[j]))
  {
    var items' := items + [d];
    assert forall j :: 0 <= j < |items| ==> items'[j] == items[j];
    if exists j :: 0 <= j < |items| && LiveTrunk(items[j]) {
      var j :| 0 <= j < |items| && LiveTrunk(items[j]);
      assert LiveTrunk(items'[j]);
    }
  }

  lemma HighestReleaseAdd(r: Sid, items: seq<Delta>, d: Delta)
    requires IsHighestRelease(r, items)
    ensures IsHighestRelease(
              if d.Removed() then r
              else if r.IsNull() then (if d.id.OnTrunk() then d.id else r)
              else if d.id.Above(r) then d.id else r,
              items + [d])
  {
    var items' := items + [d];
    assert items'[|items|] == d;
    assert forall j :: 0 <= j < |items| ==> items'[j] == items[j];
    forall i | 0 <= i < |items|
      ensures Competes(items', i) <==> Competes(items, i)
    {
      CompetesAdd(items, d, i);
    }
    CompetesAdd(items, d, 0);
    if !(forall i :: 0 <= i < |items| ==> !LiveTrunk(items[i])) {
      var i :| 0 <= i < |items| && LiveTrunk(items[i]);
      assert LiveTrunk(items'[i]);
      var k :| Competes(items, k) && items[k].id == r;
      assert Competes(items', k) && items'[k].id == r;
      assert Competes(items', |items|) && !d.id.Above(r) ==> !d.id.Gt(r);
    }
  }

  /** The highest release is a trunk SID exactly when no live SID without a level that follows a live
      trunk SID exceeds every live trunk SID. */
  lemma HighestReleaseIsTrunk(r: Sid, items: seq<Delta>)
    requires IsHighestRelease(r, items)
    requires exists i :: 0 <= i < |items| && LiveTrunk(items[i])
    ensures r.OnTrunk() <==>
            !exists i :: Competes(items, i) && !items[i].id.OnTrunk()
                         && forall j :: 0 <= j < |items| && LiveTrunk(items[j]) ==> items[i].id.Gt(items[j].id)
    ensures r.OnTrunk() ==> forall j :: 0 <= j < |items| && LiveTrunk(items[j]) ==> !items[j].id.Gt(r)
  {
    assert forall j :: 0 <= j < |items| && LiveTrunk(items[j]) ==> Competes(items, j);
    var k :| Competes(items, k) && items[k].id == r;
    if r.OnTrunk() {
      assert LiveTrunk(items[k]);
    } else {
      forall j | 0 <= j < |items| && LiveTrunk(items[j])
        ensures r.Gt(items[j].id)
      {
        assert !items[j].id.Gt(r);
      }
    }
  }

  /** A release-only SID in the table can displace the trunk: after 1.1 and 2 the high release is 2. */
  lemma HighestReleaseMayLeaveTrunk(d: Delta, e: Delta, r: Sid)
    requires d.id == Sid(1, 1, 0, 0) && e.id == Sid(2, 0, 0, 0) && !d.Removed() && !e.Removed()
    requires IsHighestRelease(r, [d, e])
    ensures r == e.id && !r.OnTrunk()
  {
    assert [d, e][0] == d && [d, e][1] == e;
    assert LiveTrunk([d, e][0]);
    assert Competes([d, e], 0) && Competes([d, e], 1);
  }
}
