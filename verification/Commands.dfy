/** Runs of commands: the table and the body together with the pending edits of the p-file.  When do SIDs
    stay unambiguous, so that asking for a SID gives the version that was checked in under it? */
module Commands {
  import opened Weave
  import opened DiffScript
  import opened History
  import opened Sids
  import opened Deltas
  import opened DeltaTables
  import opened Selection
  import opened SccsFiles
  import opened NextSids

  datatype Archive = Archive(items: seq<Delta>, h: SFile, pending: set<Sid>)

  const NOTHING := Archive([], EMPTY, {})

  datatype Command =
    | Create(note: Note, text: seq<string>)
    | Edit(flags: Flags, request: Sid, got: Sid, wantBranch: bool, id: Sid)  // reserves a SID
    | Unedit(id: Sid)
    | Delta(got: Sid, note: Note, nulls: bool, hs: seq<Hunk>, text: seq<string>)
    | Rmdel(id: Sid)

  ghost predicate Edits(a: Archive, c: Command)
    requires c.Edit?
  {
    exists high, first :: IsHighestRelease(high, a.items)
      && IsChoice(a.items, a.pending, c.flags, Requested(c.flags, c.request), c.got, c.wantBranch, high, first, Chosen(c.id))
  }

  ghost predicate ChecksIn(a: Archive, c: Command, i: nat, a': Archive)
    requires c.Delta?
  {
    && IsFirstLive(a.items, c.got, i) && c.note.id in a.pending && a'.pending == a.pending - {c.note.id}
    && DeltaOver(a.items, a.h, i, c.note, c.got.rel + 1, NullsTo(c.got, c.note, c.nulls), c.hs, c.text, a'.items, a'.h)
  }

  ghost predicate Removes(a: Archive, c: Command, i: nat, a': Archive)
    requires c.Rmdel?
  {
    && IsFirstLive(a.items, c.id, i) && !IsUsed(a.items, a.items[i].seqNo)
    && Allowed(a.h, Event.Rmdel(a.items[i].seqNo))
    && a' == Archive(a.items[i := a.items[i].(kind := 'R')], Next(a.h, Event.Rmdel(a.items[i].seqNo)), a.pending)
  }

  /** What a command that succeeds makes of the archive. */
  ghost predicate Does(a: Archive, c: Command, a': Archive) {
    match c
    case Create(note, text) =>
      a == NOTHING && a' == Archive([NewDelta(note, 1, 0).(inserted := |text|)], Next(EMPTY, Event.Create(text)), {})
    case Edit(_, _, _, _, id) => Edits(a, c) && a' == a.(pending := a.pending + {id})
    case Unedit(id) => a' == a.(pending := a.pending - {id})
    case Delta(_, _, _, _, _) => exists i: nat :: ChecksIn(a, c, i, a')
    case Rmdel(_) => exists i: nat :: Removes(a, c, i, a')
  }

  // ---------------------------------------------------------------- when SIDs are unambiguous

  predicate LiveAt(items: seq<Delta>, i: int) {
    0 <= i < |items| && !items[i].Removed()
  }

  ghost predicate LiveSid(items: seq<Delta>, id: Sid) {
    exists i :: LiveAt(items, i) && items[i].id == id
  }

  ghost predicate SidsDistinct(items: seq<Delta>) {
    forall i, j :: LiveAt(items, i) && LiveAt(items, j) && items[i].id == items[j].id ==> i == j
  }

  /** No two live deltas share a SID, and no pending edit has the SID of a live delta. */
  ghost predicate Unambiguous(a: Archive) {
    SidsDistinct(a.items) && forall id :: id in a.pending ==> !LiveSid(a.items, id)
  }

  function NullSid(rel: int): Sid {
    Sid(rel, 1, 0, 0)
  }

  /** The SIDs of the automatic null deltas between two releases. */
  predicate IsNullSid(id: Sid, fromRel: int, toRel: int) {
    fromRel <= id.rel < toRel && id == NullSid(id.rel)
  }

  /** None of the automatic null deltas takes a SID that is live or pending. */
  ghost predicate NullsAreFree(a: Archive, c: Command)
    requires c.Delta?
  {
    forall id :: IsNullSid(id, c.got.rel + 1, NullsTo(c.got, c.note, c.nulls)) ==> !LiveSid(a.items, id) && id !in a.pending
  }

  lemma LiveSidPrepend(items: seq<Delta>, d: Delta, id: Sid)
    ensures LiveSid([d] + items, id) <==> LiveSid(items, id) || (!d.Removed() && d.id == id)
  {
    var all := [d] + items;
    if LiveSid(items, id) {
      var i :| LiveAt(items, i) && items[i].id == id;
      assert LiveAt(all, i + 1) && all[i + 1].id == id;
    }
    if !d.Removed() && d.id == id {
      assert LiveAt(all, 0);
    }
    if LiveSid(all, id) {
      var i :| LiveAt(all, i) && all[i].id == id;
      assert i > 0 ==> LiveAt(items, i - 1);
    }
  }

  lemma DistinctSidsPrepend(items: seq<Delta>, d: Delta)
    requires !d.Removed()
    ensures SidsDistinct([d] + items) <==> SidsDistinct(items) && !LiveSid(items, d.id)
  {
    var all := [d] + items;
    assert forall i :: 0 <= i < |items| ==> all[i + 1] == items[i];
    if SidsDistinct(all) {
      forall i, j | LiveAt(items, i) && LiveAt(items, j) && items[i].id == items[j].id
        ensures i == j
      {
        assert LiveAt(all, i + 1) && LiveAt(all, j + 1);
      }
      if LiveSid(items, d.id) {
        var i :| LiveAt(items, i) && items[i].id == d.id;
        assert LiveAt(all, i + 1) && LiveAt(all, 0);
        assert false;
      }
    } else {
      var i, j :| LiveAt(all, i) && LiveAt(all, j) && all[i].id == all[j].id && i != j;
      assert i > 0 ==> LiveAt(items, i - 1);
      assert j > 0 ==> LiveAt(items, j - 1);
    }
  }

  lemma {:induction false} NullItemsSids(items: seq<Delta>, n: nat, pred: nat, note: Note, fromRel: int, toRel: int)
    ensures var all := NullItems(items, n, pred, note, fromRel, toRel);
            && (forall id :: LiveSid(all, id) <==> LiveSid(items, id) || IsNullSid(id, fromRel, toRel))
            && (SidsDistinct(all) <==> SidsDistinct(items) && forall id :: IsNullSid(id, fromRel, toRel) ==> !LiveSid(items, id))
    decreases toRel - fromRel
  {
    hide LiveSid, SidsDistinct;
    if fromRel < toRel {
      var d := NullDeltaFor(note, n, pred, fromRel);
      NullItemsSids([d] + items, n + 1, n, note, fromRel + 1, toRel);
      DistinctSidsPrepend(items, d);
      forall id
        ensures LiveSid([d] + items, id) <==> LiveSid(items, id) || id == NullSid(fromRel)
      {
        LiveSidPrepend(items, d, id);
      }
      assert IsNullSid(NullSid(fromRel), fromRel, toRel);
      assert forall id :: IsNullSid(id, fromRel, toRel) <==> id == NullSid(fromRel) || IsNullSid(id, fromRel + 1, toRel);
    }
  }

  /** After a check-in SIDs are unambiguous exactly when the null deltas took free ones. */
  lemma ChecksInKeeps(a: Archive, c: Command, i: nat, a': Archive)
    requires Unambiguous(a) && c.Delta? && ChecksIn(a, c, i, a')
    ensures Unambiguous(a') <==> NullsAreFree(a, c)
  {
    hide LiveSid, SidsDistinct, DeltaOver;
    var fromRel, toRel := c.got.rel + 1, NullsTo(c.got, c.note, c.nulls);
    NewEntry(a, c, i, a');
    var nulls, d := NullItems(a.items, NextSeq(a.h), a.items[i].seqNo, c.note, fromRel, toRel), a'.items[0];
    NullItemsSids(a.items, NextSeq(a.h), a.items[i].seqNo, c.note, fromRel, toRel);
    DistinctSidsPrepend(nulls, d);
    assert !IsNullSid(c.note.id, fromRel, toRel);
    forall id
      ensures LiveSid(a'.items, id) <==> LiveSid(nulls, id) || id == c.note.id
    {
      LiveSidPrepend(nulls, d, id);
    }
    assert c.note.id in a.pending;
  }

  lemma NewEntry(a: Archive, c: Command, i: nat, a': Archive)
    requires c.Delta? && ChecksIn(a, c, i, a')
    ensures a'.items != [] && a'.items[0].id == c.note.id && !a'.items[0].Removed()
    ensures a'.items == [a'.items[0]] + NullItems(a.items, NextSeq(a.h), a.items[i].seqNo, c.note, c.got.rel + 1, NullsTo(c.got, c.note, c.nulls))
  {
    hide Run, After, Matches, NewText, Proper, CheckInEvents;
  }

  lemma RemovesKeeps(items: seq<Delta>, i: nat)
    requires i < |items|
    ensures forall id :: LiveSid(items[i := items[i].(kind := 'R')], id) ==> LiveSid(items, id)
    ensures SidsDistinct(items) ==> SidsDistinct(items[i := items[i].(kind := 'R')])
  {
    var items' := items[i := items[i].(kind := 'R')];
    assert forall j :: LiveAt(items', j) ==> LiveAt(items, j) && items'[j] == items[j];
  }

  /** A SID that is reserved is neither live nor pending. */
  lemma EditIsFree(a: Archive, c: Command)
    requires c.Edit? && Edits(a, c)
    ensures !LiveSid(a.items, c.id) && c.id !in a.pending
  {
    var high, first :| IsHighestRelease(high, a.items)
      && IsChoice(a.items, a.pending, c.flags, Requested(c.flags, c.request), c.got, c.wantBranch, high, first, Chosen(c.id));
    assert c.id !in Used(a.items, a.pending);
    assert forall i :: LiveAt(a.items, i) ==> a.items[i].id in Used(a.items, a.pending);
  }

  /** Every command keeps SIDs unambiguous, except a check-in whose null deltas take a SID that is live or
      pending: that one, and only that one, does not. */
  lemma CommandKeepsSids(a: Archive, c: Command, a': Archive)
    requires Unambiguous(a) && Does(a, c, a')
    ensures Unambiguous(a') <==> (c.Delta? ==> NullsAreFree(a, c))
  {
    hide LiveSid, SidsDistinct, NullsAreFree;
    match c
    case Create(note, text) => OneSid(a'.items);
    case Edit(_, _, _, _, _) => EditIsFree(a, c);
    case Unedit(_) =>
    case Delta(_, _, _, _, _) =>
      var i: nat :| ChecksIn(a, c, i, a');
      ChecksInKeeps(a, c, i, a');
    case Rmdel(_) =>
      var i: nat :| Removes(a, c, i, a');
      RemovesKeeps(a.items, i);
  }

  lemma OneSid(items: seq<Delta>)
    requires |items| == 1
    ensures SidsDistinct(items)
  {
  }

  // ---------------------------------------------------------------- runs

  /** The archives before, between and after the commands, starting with nothing. */
  ghost predicate IsRun(as_: seq<Archive>, cs: seq<Command>) {
    && |as_| == |cs| + 1 && as_[0] == NOTHING
    && forall k :: 0 <= k < |cs| ==> Does(as_[k], cs[k], as_[k + 1])
  }

  ghost predicate NullsStayFree(as_: seq<Archive>, cs: seq<Command>)
    requires |as_| == |cs| + 1
  {
    forall k :: 0 <= k < |cs| && cs[k].Delta? ==> NullsAreFree(as_[k], cs[k])
  }

  lemma {:induction false} RunIsUnambiguous(as_: seq<Archive>, cs: seq<Command>, k: nat)
    requires IsRun(as_, cs) && NullsStayFree(as_, cs) && k <= |cs|
    ensures Unambiguous(as_[k])
  {
    if k > 0 {
      RunIsUnambiguous(as_, cs, k - 1);
      assert Does(as_[k - 1], cs[k - 1], as_[k - 1 + 1]);
      CommandKeepsSids(as_[k - 1], cs[k - 1], as_[k]);
    }
  }

  /** Without null deltas SIDs are unambiguous in every run, whoever edits what in whatever order. */
  lemma WithoutNullsSidsStayDistinct(as_: seq<Archive>, cs: seq<Command>, k: nat)
    requires IsRun(as_, cs) && k <= |cs|
    requires forall j :: 0 <= j < |cs| && cs[j].Delta? ==> !cs[j].nulls
    ensures Unambiguous(as_[k])
  {
    RunIsUnambiguous(as_, cs, k);
  }

  lemma CommandKeepsValid(a: Archive, c: Command, a': Archive)
    requires ValidFile(a.items, a.h) && Does(a, c, a')
    ensures ValidFile(a'.items, a'.h)
    ensures forall s :: s in a.h.versions ==> s in a'.h.versions && a'.h.Version(s) == a.h.Version(s)
  {
    hide ValidFile, Allowed, Inv, Next, Distinct, NoLists, IsUsed, Edits;
    match c
    case Create(note, text) => CreatedIsValid(note, text);
    case Edit(_, _, _, _, _) =>
    case Unedit(_) =>
    case Delta(_, _, _, _, _) =>
      var i: nat :| ChecksIn(a, c, i, a');
      ChecksInKeepsValid(a, c, i, a');
    case Rmdel(_) =>
      var i: nat :| Removes(a, c, i, a');
      RmdelStep(a.items, a.h, i);
      RemovalKeepsVersions(a.h, a.items[i].seqNo);
  }

  lemma RemovalKeepsVersions(h: SFile, s: nat)
    requires Allowed(h, Event.Rmdel(s))
    ensures Next(h, Event.Rmdel(s)).versions == h.versions
  {
  }

  lemma CreatedIsValid(note: Note, text: seq<string>)
    ensures ValidFile([NewDelta(note, 1, 0).(inserted := |text|)], Next(EMPTY, Event.Create(text)))
    ensures EMPTY.versions == map[]
  {
    CreateKeepsInv(text);
    FirstTable(NewDelta(note, 1, 0).(inserted := |text|));
  }

  lemma ChecksInKeepsValid(a: Archive, c: Command, i: nat, a': Archive)
    requires ValidFile(a.items, a.h) && c.Delta? && ChecksIn(a, c, i, a')
    ensures ValidFile(a'.items, a'.h)
    ensures forall s :: s in a.h.versions ==> s in a'.h.versions && a'.h.Version(s) == a.h.Version(s)
    ensures a'.items != [] && a'.items[0].seqNo in a'.h.versions && Texts(a'.h.Version(a'.items[0].seqNo)) == c.text
  {
    hide Inv, Distinct, NoLists, Run, After, Matches, NewText, Proper, Texts;
    var fromRel, toRel, seqNo := c.got.rel + 1, NullsTo(c.got, c.note, c.nulls), a.items[i].seqNo;
    NewEntry(a, c, i, a');
    LiveIsRecorded(a.items, a.h, i);
    AddDeltaRun(a.items, a.h, seqNo, c.note, fromRel, toRel, c.hs, c.text, a'.items[0]);
    forall s | s in a.h.versions
      ensures s in a'.h.versions && a'.h.Version(s) == a.h.Version(s)
    {
      RecordIsPermanent(a.h, CheckInEvents(NextSeq(a.h), seqNo, fromRel, toRel, c.hs, c.text), s);
    }
    LiveIsRecorded(a'.items, a'.h, 0);
  }

  lemma LiveIsRecorded(items: seq<Delta>, h: SFile, i: nat)
    requires ValidFile(items, h) && i < |items| && !items[i].Removed()
    ensures items[i].seqNo in h.live && items[i].seqNo in h.versions && Inv(h)
  {
    LiveEntries(items, i);
  }

  lemma {:induction false} RunIsValid(as_: seq<Archive>, cs: seq<Command>, k: nat)
    requires IsRun(as_, cs) && k <= |cs|
    ensures ValidFile(as_[k].items, as_[k].h)
  {
    if k == 0 {
      NothingIsValid();
    } else {
      RunIsValid(as_, cs, k - 1);
      assert Does(as_[k - 1], cs[k - 1], as_[k - 1 + 1]);
      CommandKeepsValid(as_[k - 1], cs[k - 1], as_[k]);
    }
  }

  lemma NothingIsValid()
    ensures ValidFile([], EMPTY)
  {
    EmptyInv();
    assert ByNumber([]) == map[];
    assert Prevs(map[]) == map[] && Live(map[]) == {};
  }

  // ---------------------------------------------------------------- asking for a SID

  /** The command gives the SID to a delta. */
  predicate Makes(c: Command, id: Sid) {
    match c
    case Create(note, _) => note.id == id
    case Delta(got, note, nulls, _, _) => note.id == id || IsNullSid(id, got.rel + 1, NullsTo(got, note, nulls))
    case _ => false
  }

  /** All live deltas with the SID have the number s. */
  ghost predicate OnlyAt(items: seq<Delta>, id: Sid, s: nat) {
    forall i :: LiveAt(items, i) && items[i].id == id ==> items[i].seqNo == s
  }

  lemma {:induction false} NullItemsEntries(items: seq<Delta>, n: nat, pred: nat, note: Note, fromRel: int, toRel: int, id: Sid, s: nat)
    requires OnlyAt(items, id, s) && !IsNullSid(id, fromRel, toRel)
    ensures OnlyAt(NullItems(items, n, pred, note, fromRel, toRel), id, s)
    decreases toRel - fromRel
  {
    if fromRel < toRel {
      var d := NullDeltaFor(note, n, pred, fromRel);
      OnlyAtPrepend(items, d, id, s);
      NullItemsEntries([d] + items, n + 1, n, note, fromRel + 1, toRel, id, s);
    }
  }

  lemma OnlyAtPrepend(items: seq<Delta>, d: Delta, id: Sid, s: nat)
    requires OnlyAt(items, id, s) && (d.id == id ==> d.seqNo == s)
    ensures OnlyAt([d] + items, id, s)
  {
    var all := [d] + items;
    forall i | LiveAt(all, i) && all[i].id == id
      ensures all[i].seqNo == s
    {
      assert i > 0 ==> LiveAt(items, i - 1);
    }
  }

  lemma CommandKeepsOnly(a: Archive, c: Command, a': Archive, id: Sid, s: nat)
    requires Does(a, c, a') && OnlyAt(a.items, id, s) && !Makes(c, id)
    ensures OnlyAt(a'.items, id, s)
  {
    hide DeltaOver, NullItems;
    match c
    case Create(_, _) =>
    case Edit(_, _, _, _, _) =>
    case Unedit(_) =>
    case Delta(got, note, nulls, _, _) =>
      var i: nat :| ChecksIn(a, c, i, a');
      NewEntry(a, c, i, a');
      NullItemsEntries(a.items, NextSeq(a.h), a.items[i].seqNo, note, got.rel + 1, NullsTo(got, note, nulls), id, s);
      OnlyAtPrepend(NullItems(a.items, NextSeq(a.h), a.items[i].seqNo, note, got.rel + 1, NullsTo(got, note, nulls)), a'.items[0], id, s);
    case Rmdel(_) =>
      var i: nat :| Removes(a, c, i, a');
      assert forall j :: LiveAt(a'.items, j) ==> LiveAt(a.items, j) && a'.items[j] == a.items[j];
  }

  /** Delta s holds the text, and no other live delta has the SID. */
  ghost predicate Holds(a: Archive, id: Sid, s: nat, text: seq<string>) {
    OnlyAt(a.items, id, s) && s in a.h.versions && Texts(a.h.Version(s)) == text
  }

  lemma MakerHolds(a: Archive, c: Command, a': Archive)
    requires ValidFile(a.items, a.h) && Does(a, c, a') && Unambiguous(a') && (c.Create? || c.Delta?)
    ensures a'.items != [] && Holds(a', c.note.id, a'.items[0].seqNo, c.text)
  {
    hide ValidFile, DeltaOver, Inv;
    if c.Delta? {
      var i: nat :| ChecksIn(a, c, i, a');
      NewEntry(a, c, i, a');
      ChecksInKeepsValid(a, c, i, a');
    }
    assert LiveAt(a'.items, 0);
  }

  lemma {:induction false} StillHolds(as_: seq<Archive>, cs: seq<Command>, k: nat, m: nat, id: Sid, s: nat, text: seq<string>)
    requires IsRun(as_, cs) && k <= m <= |cs| && Holds(as_[k], id, s, text)
    requires forall j :: k <= j < m ==> !Makes(cs[j], id)
    ensures Holds(as_[m], id, s, text)
    decreases m
  {
    hide Does, OnlyAt, Makes, ValidFile;
    if k < m {
      StillHolds(as_, cs, k, m - 1, id, s, text);
      RunIsValid(as_, cs, m - 1);
      assert Does(as_[m - 1], cs[m - 1], as_[m - 1 + 1]);
      CommandKeepsValid(as_[m - 1], cs[m - 1], as_[m]);
      CommandKeepsOnly(as_[m - 1], cs[m - 1], as_[m], id, s);
    }
  }

  /** In every run whose null deltas take free SIDs: the entry found under a SID, if it is still there, has
      the version that the last command to make that SID checked in, and the body shows it. */
  lemma {:induction false} SidTheorem(as_: seq<Archive>, cs: seq<Command>, k: nat, i: nat)
    requires IsRun(as_, cs) && NullsStayFree(as_, cs) && k < |cs| && (cs[k].Create? || cs[k].Delta?)
    requires forall j :: k < j < |cs| ==> !Makes(cs[j], cs[k].note.id)
    requires IsFirstLive(as_[|cs|].items, cs[k].note.id, i)
    ensures var a := as_[|cs|];
            && Texts(a.h.Version(a.items[i].seqNo)) == cs[k].text
            && GetText(a.h.body, Chain(a.h.prev, a.items[i].seqNo)) == cs[k].text
  {
    hide Does, Makes, ValidFile, NullsStayFree, View, Unambiguous;
    var id, a := cs[k].note.id, as_[|cs|];
    RunIsValid(as_, cs, k);
    RunIsValid(as_, cs, |cs|);
    RunIsUnambiguous(as_, cs, k + 1);
    assert Does(as_[k], cs[k], as_[k + 1]);
    MakerHolds(as_[k], cs[k], as_[k + 1]);
    var s := as_[k + 1].items[0].seqNo;
    StillHolds(as_, cs, k + 1, |cs|, id, s, cs[k].text);
    assert LiveAt(a.items, i);
    LiveShowsVersion(a.items, a.h, i);
  }

  lemma LiveShowsVersion(items: seq<Delta>, h: SFile, i: nat)
    requires ValidFile(items, h) && i < |items| && !items[i].Removed()
    ensures View(h.body, NONE_OPEN, Chain(h.prev, items[i].seqNo)) == h.Version(items[i].seqNo)
  {
    LiveEntries(items, i);
  }

  // ---------------------------------------------------------------- null deltas that do not

  /** Nothing but 3.1 is live: `get -e -r5` reserves 5.1, or 5.2 if 5.1 is pending. */
  lemma NextInRelease5(d: Deltas.Delta, a: Archive, c: Command)
    requires a.items == [d] && d.id == Sid(3, 1, 0, 0) && !d.Removed()
    requires c.Edit? && c.flags.jointEdit && c.flags.defaultSid == NULL_SID && c.request == Sid(5, 0, 0, 0) && c.got == d.id && !c.wantBranch
    requires Edits(a, c)
    ensures a.pending == {} ==> c.id == Sid(5, 1, 0, 0)
    ensures a.pending == {Sid(5, 1, 0, 0)} ==> c.id == Sid(5, 2, 0, 0)
  {
    var high, first :| IsHighestRelease(high, a.items)
      && IsChoice(a.items, a.pending, c.flags, c.request, c.got, c.wantBranch, high, first, Chosen(c.id));
    assert a.items[0] == d && LiveTrunk(a.items[0]) && Competes(a.items, 0);
    assert high == d.id;
    var used := Used(a.items, a.pending);
    assert used == {d.id} + a.pending by { assert a.items[0].id in used; }
    var one, two := Sid(5, 1, 0, 0), Sid(5, 2, 0, 0);
    assert first.level > 1 ==> one in used;
    assert first.level > 2 ==> two in used;
  }

  /** With joint edits and null deltas on and 3.1 alone in the table, two `get -e -r5` reserve 5.1 and 5.2;
      each check-in makes a null delta 4.1, and two live deltas share that SID. */
  lemma NullDeltasMayDuplicate(d: Deltas.Delta, as_: seq<Archive>, cs: seq<Command>)
    requires |as_| == 5 && |cs| == 4 && forall k :: 0 <= k < 4 ==> Does(as_[k], cs[k], as_[k + 1])
    requires as_[0].items == [d] && as_[0].pending == {} && d.id == Sid(3, 1, 0, 0) && !d.Removed()
    requires cs[0].Edit? && cs[1].Edit? && cs[1] == cs[0].(id := cs[1].id) && cs[0].flags.jointEdit && cs[0].flags.defaultSid == NULL_SID
    requires cs[0].request == Sid(5, 0, 0, 0) && cs[0].got == d.id && !cs[0].wantBranch
    requires cs[2].Delta? && cs[2].got == d.id && cs[2].note.id == cs[0].id && cs[2].nulls
    requires cs[3].Delta? && cs[3].got == d.id && cs[3].note.id == cs[1].id && cs[3].nulls
    ensures cs[0].id == Sid(5, 1, 0, 0) && cs[1].id == Sid(5, 2, 0, 0)
    ensures !SidsDistinct(as_[4].items)
  {
    hide LiveSid, SidsDistinct, DeltaOver, IsUsed, NullItems;
    assert Does(as_[0], cs[0], as_[1]) && Does(as_[1], cs[1], as_[2]) && Does(as_[2], cs[2], as_[3]) && Does(as_[3], cs[3], as_[4]);
    NextInRelease5(d, as_[0], cs[0]);
    NextInRelease5(d, as_[1], cs[1]);
    DeltaMakesNull(as_[2], cs[2], as_[3]);
    DeltaRepeatsNull(as_[3], cs[3], as_[4]);
  }

  lemma DeltaMakesNull(a: Archive, c: Command, a': Archive)
    requires c.Delta? && Does(a, c, a') && c.nulls && c.got.rel == 3 && c.note.id.rel == 5
    ensures LiveSid(a'.items, NullSid(4))
  {
    hide LiveSid, SidsDistinct, DeltaOver, NullItems;
    var i: nat :| ChecksIn(a, c, i, a');
    var nulls := NullItems(a.items, NextSeq(a.h), a.items[i].seqNo, c.note, 4, 5);
    NewEntry(a, c, i, a');
    NullItemsSids(a.items, NextSeq(a.h), a.items[i].seqNo, c.note, 4, 5);
    assert IsNullSid(NullSid(4), 4, 5);
    LiveSidPrepend(nulls, a'.items[0], NullSid(4));
  }

  lemma DeltaRepeatsNull(a: Archive, c: Command, a': Archive)
    requires c.Delta? && Does(a, c, a') && c.nulls && c.got.rel == 3 && c.note.id.rel == 5 && LiveSid(a.items, NullSid(4))
    ensures !SidsDistinct(a'.items)
  {
    hide LiveSid, SidsDistinct, DeltaOver, NullItems;
    var i: nat :| ChecksIn(a, c, i, a');
    var nulls := NullItems(a.items, NextSeq(a.h), a.items[i].seqNo, c.note, 4, 5);
    NewEntry(a, c, i, a');
    NullItemsSids(a.items, NextSeq(a.h), a.items[i].seqNo, c.note, 4, 5);
    assert IsNullSid(NullSid(4), 4, 5);
    DistinctSidsPrepend(nulls, a'.items[0]);
  }
}
