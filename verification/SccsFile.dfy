/** The commands on an s-file: each reads the table and the body, and writes both back.  What they do
    to the file is a run of the transition system in module History. */
module SccsFiles {
  import opened Basics
  import opened Weave
  import opened DiffScript
  import opened DiffCursor
  import opened DiffFormat
  import opened SequenceState
  import opened CheckIn
  import opened Removal
  import opened History
  import opened Sids
  import opened Deltas
  import opened DeltaTables
  import opened Selection
  import BodyScanner

  /** The entry for each number; the last one counts. */
  function ByNumber(items: seq<Delta>): Index {
    if items == [] then map[] else map[items[0].seqNo := items[0]] + ByNumber(items[1..])
  }

  ghost predicate Distinct(items: seq<Delta>) {
    forall i, j :: 0 <= i < j < |items| ==> items[i].seqNo != items[j].seqNo
  }

  function Live(t: Index): set<nat> {
    set s | s in t && !t[s].Removed()
  }

  lemma {:induction false} ByNumberFinds(items: seq<Delta>, s: nat)
    ensures s in ByNumber(items) <==> Carries(items, s)
    ensures forall i: nat :: IsLastWith(items, s, i) ==> s in ByNumber(items) && ByNumber(items)[s] == items[i]
  {
    if items != [] {
      var rest := items[1..];
      ByNumberFinds(rest, s);
      assert forall i :: 0 < i < |items| ==> items[i] == rest[i - 1];
      if Carries(items, s) && items[0].seqNo != s {
        var i :| 0 <= i < |items| && items[i].seqNo == s;
        assert rest[i - 1].seqNo == s;
      }
      if Carries(rest, s) {
        var i :| 0 <= i < |rest| && rest[i].seqNo == s;
        assert items[i + 1].seqNo == s;
      }
      forall i: nat | IsLastWith(items, s, i)
        ensures s in ByNumber(items) && ByNumber(items)[s] == items[i]
      {
        if i > 0 {
          assert rest[i - 1] == items[i];
          assert IsLastWith(rest, s, i - 1);
        } else {
          assert !Carries(rest, s);
        }
      }
    }
  }

  /** Lookup through the index agrees with a linear scan for the last match. */
  lemma IndexIsByNumber(m: map<nat, nat>, items: seq<Delta>)
    requires IsIndexOf(m, items)
    ensures (map s | s in m :: items[m[s]]) == ByNumber(items)
  {
    var index := map s | s in m :: items[m[s]];
    forall s: nat
      ensures s in index <==> s in ByNumber(items)
      ensures s in index ==> index[s] == ByNumber(items)[s]
    {
      ByNumberFinds(items, s);
      if s in m {
        assert IsLastWith(items, s, m[s]);
      } else {
        assert !Carries(items, s);
      }
    }
  }

  lemma ByNumberAt(items: seq<Delta>, i: nat)
    requires Distinct(items) && i < |items|
    ensures items[i].seqNo in ByNumber(items) && ByNumber(items)[items[i].seqNo] == items[i]
  {
    ByNumberFinds(items, items[i].seqNo);
    assert IsLastWith(items, items[i].seqNo, i);
  }

  lemma ByNumberPrepend(items: seq<Delta>, d: Delta)
    requires d.seqNo !in ByNumber(items)
    ensures ByNumber([d] + items) == ByNumber(items)[d.seqNo := d]
  {
    assert ([d] + items)[1..] == items;
  }

  lemma MergeUpdate(a: nat, x: Delta, m: Index, s: nat, d: Delta)
    requires a != s
    ensures map[a := x] + m[s := d] == (map[a := x] + m)[s := d]
  {
  }

  lemma {:induction false} ByNumberUpdate(items: seq<Delta>, i: nat, d: Delta)
    requires Distinct(items) && i < |items| && d.seqNo == items[i].seqNo
    ensures ByNumber(items[i := d]) == ByNumber(items)[d.seqNo := d]
  {
    var rest := items[1..];
    assert forall j :: 0 < j < |items| ==> items[j] == rest[j - 1];
    if i == 0 {
      assert items[i := d][1..] == rest;
      ByNumberFinds(rest, d.seqNo);
    } else {
      assert items[i := d][1..] == rest[i - 1 := d];
      ByNumberUpdate(rest, i - 1, d);
      MergeUpdate(items[0].seqNo, items[0], ByNumber(rest), d.seqNo, d);
    }
  }

  // ---------------------------------------------------------------- selections and bodies

  /** The body is read in full, and `get` sees what a reader sees from its first line. */
  lemma ReachableIsGettable(h: SFile, last: nat, sel: set<nat>)
    requires Inv(h) && 1 in h.live && forall d :: d in h.live ==> d <= last
    ensures ReadableAll(h.body, NONE_OPEN, last)
    ensures BodyScanner.Gettable(h.body, last)
    ensures View(h.body[1..], BodyScanner.AfterFirst(h.body, last), sel) == View(h.body, NONE_OPEN, sel)
  {
    LegalIsReadable(h.body, NONE_OPEN, last);
    assert {} + {1} == {1};
    assert Step(NONE_OPEN, Ins(1)) == BodyScanner.AfterFirst(h.body, last);
  }

  /** Live deltas descend from delta 1. */
  lemma {:induction false} RootIsLive(h: SFile, d: nat)
    requires Inv(h) && d in h.live
    ensures 1 in h.live
    decreases d
  {
    if h.prev[d] != 0 {
      RootIsLive(h, h.prev[d]);
    }
  }

  lemma {:induction false} SameWeave(body: seq<Line>, b: Blocks, mode: Mode, sc: Script, sel: set<nat>, other: set<nat>, n: nat)
    requires forall k :: k in Numbers(body) || k in b.ins || k in b.del ==> (k in sel <==> k in other)
    ensures WeaveIn(body, b, mode, sc, sel, n) == WeaveIn(body, b, mode, sc, other, n)
    decreases |body|
  {
    if body != [] {
      assert Numbers(body[1..]) <= Numbers(body);
      assert !body[0].Text? ==> body[0].n in Numbers(body);
      assert Visible(b, sel) <==> Visible(b, other);
      var t := Settle(mode, sc, n);
      SameWeave(body[1..], b, t.mode, t.sc, sel, other, n);
      SameWeave(body[1..], Step(b, body[0]), mode, sc, sel, other, n);
    }
  }

  lemma {:induction false} RunAppend(h: SFile, es: seq<Event>, e: Event)
    requires Run(h, es) && Allowed(After(h, es), e)
    ensures Run(h, es + [e]) && After(h, es + [e]) == Next(After(h, es), e)
    decreases |es|
  {
    if es == [] {
      assert [] + [e] == [e];
    } else {
      assert (es + [e])[1..] == es[1..] + [e];
      RunAppend(Next(h, es[0]), es[1..], e);
    }
  }

  lemma NoSuccessor(items: seq<Delta>, s: nat)
    requires forall j :: 0 <= j < |items| && !items[j].Removed() ==> items[j].prevSeq != s
    requires Distinct(items)
    ensures forall k :: k in Live(ByNumber(items)) ==> ByNumber(items)[k].prevSeq != s
  {
    forall k | k in Live(ByNumber(items))
      ensures ByNumber(items)[k].prevSeq != s
    {
      ByNumberFinds(items, k);
      var i :| 0 <= i < |items| && items[i].seqNo == k;
      ByNumberAt(items, i);
    }
  }

  lemma MarkedRemoved(t: Index, s: nat, d: Delta)
    requires s in t && d.Removed() && d.prevSeq == t[s].prevSeq
    ensures Prevs(t[s := d]) == Prevs(t) && Live(t[s := d]) == Live(t) - {s}
  {
  }

  /** What the header of a new delta says besides its numbers. */
  datatype Note = Note(id: Sid, date: Date, user: string, mrs: seq<string>, comments: seq<string>)

  function NewDelta(note: Note, seqNo: nat, prevSeq: nat): Delta {
    Delta('D', note.id, note.date, note.user, seqNo, prevSeq, [], [], [], note.mrs, note.comments, 0, 0, 0)
  }

  /** The file as a state of the history. */
  ghost function AbsOf(items: seq<Delta>, body: seq<Line>, versions: map<nat, seq<Owned>>): SFile {
    SFile(Prevs(ByNumber(items)), Live(ByNumber(items)), body, versions)
  }

  ghost predicate ValidFile(items: seq<Delta>, h: SFile) {
    && Distinct(items) && NoLists(ByNumber(items))
    && h.prev == Prevs(ByNumber(items)) && h.live == Live(ByNumber(items)) && Inv(h)
  }

  lemma LiveEntries(items: seq<Delta>, i: nat)
    requires Distinct(items) && i < |items|
    ensures items[i].seqNo in Prevs(ByNumber(items))
    ensures !items[i].Removed() ==> items[i].seqNo in Live(ByNumber(items))
  {
    ByNumberAt(items, i);
  }

  lemma HighestIsTop(items: seq<Delta>, high: nat)
    requires IsHighest(high, items)
    ensures Top(Prevs(ByNumber(items)).Keys) == high
  {
    var keys := Prevs(ByNumber(items)).Keys;
    assert keys == ByNumber(items).Keys;
    forall d | d in keys
      ensures d <= high
    {
      ByNumberFinds(items, d);
    }
    if high != 0 {
      ByNumberFinds(items, high);
      assert high in keys;
    }
  }

  lemma {:induction false} TableFacts(items: seq<Delta>, h: SFile, high: nat)
    requires ValidFile(items, h) && IsHighest(high, items)
    ensures Distinct(items) && NoLists(ByNumber(items)) && Sound(ByNumber(items))
    ensures high < SEQ_LIMIT && NextSeq(h) == high + 1
    ensures forall d :: d in h.prev ==> d <= high
    ensures forall i :: 0 <= i < |items| ==> 0 < items[i].seqNo <= high && items[i].seqNo in ByNumber(items)
  {
    forall i | 0 <= i < |items|
      ensures items[i].seqNo in ByNumber(items)
    {
      ByNumberAt(items, i);
    }
    HighestIsTop(items, high);
    assert forall y :: y in ByNumber(items) ==> y in h.prev;
    assert forall d :: d in h.prev ==> d in h.prev.Keys;
    assert high == 0 || high in h.prev;
  }

  /** The version that `get` reads in a reachable file is the one that was checked in. */
  lemma {:induction false} RetrievesVersion(items: seq<Delta>, h: SFile, high: nat, i: nat)
    requires ValidFile(items, h) && i < |items| && !items[i].Removed() && forall d :: d in h.prev ==> d <= high
    ensures items[i].seqNo in h.live && WellFormed(h.body) && ReadableAll(h.body, NONE_OPEN, high)
    ensures View(h.body, NONE_OPEN, Ancestors(ByNumber(items), items[i].seqNo)) == h.Version(items[i].seqNo)
    ensures BodyScanner.Gettable(h.body, high)
    ensures View(h.body[1..], BodyScanner.AfterFirst(h.body, high), Ancestors(ByNumber(items), items[i].seqNo))
         == h.Version(items[i].seqNo)
  {
    var seqNo := items[i].seqNo;
    var sel := Ancestors(ByNumber(items), seqNo);
    LiveEntries(items, i);
    RootIsLive(h, seqNo);
    ReachableIsGettable(h, high, sel);
    SameSelection(h.body, NONE_OPEN, sel, Chain(h.prev, seqNo));
  }

  lemma NothingVisible(sel: set<nat>)
    ensures !Visible(NONE_OPEN, sel)
  {
  }

  lemma NoListsAreSound(t: Index)
    requires NoLists(t)
    ensures ListsSound(t)
  {
  }

  /** A well-formed body is balanced: at its end no line is visible. */
  lemma NothingVisibleAtEnd(body: seq<Line>, sel: set<nat>)
    requires WellFormed(body)
    ensures !Visible(StepAll(NONE_OPEN, body), sel)
  {
  }

  lemma AbsIs(items: seq<Delta>, h: SFile)
    requires ValidFile(items, h)
    ensures h == AbsOf(items, h.body, h.versions)
  {
  }

  lemma AbsParts(items: seq<Delta>, body: seq<Line>, versions: map<nat, seq<Owned>>)
    ensures AbsOf(items, body, versions).body == body && AbsOf(items, body, versions).versions == versions
  {
  }

  lemma FirstTable(d: Delta)
    requires d.seqNo == 1 && d.prevSeq == 0 && !d.Removed() && d.included == d.excluded == d.ignored == []
    ensures Distinct([d]) && NoLists(ByNumber([d]))
    ensures Prevs(ByNumber([d])) == map[1 := 0] && Live(ByNumber([d])) == {1}
  {
    assert [d][1..] == [];
    assert ByNumber([d]) == map[1 := d];
  }

  /** The entry that a lookup by SID finds. */
  ghost predicate IsFirstLive(items: seq<Delta>, id: Sid, i: nat) {
    && i < |items| && items[i].id == id && !items[i].Removed()
    && forall j :: 0 <= j < i ==> items[j].Removed() || items[j].id != id
  }

  lemma FirstLiveIsUnique(items: seq<Delta>, id: Sid, i: nat, j: nat)
    requires IsFirstLive(items, id, i) && IsFirstLive(items, id, j)
    ensures i == j
  {
  }

  /** The last release for which a null delta is made, plus one. */
  function NullsTo(got: Sid, note: Note, nullDeltas: bool): int {
    if nullDeltas then note.id.rel else got.rel + 1
  }

  /** What a check-in over the entry i makes of the table and of the history. */
  ghost predicate DeltaOver(items: seq<Delta>, h: SFile, i: nat, note: Note, fromRel: int, toRel: int,
                            hs: seq<Hunk>, text: seq<string>, items': seq<Delta>, h': SFile)
    requires i < |items|
  {
    var n, seqNo := NextSeq(h), items[i].seqNo;
    var es := CheckInEvents(n, seqNo, fromRel, toRel, hs, text);
    && n + Gap(fromRel, toRel) < SEQ_LIMIT && Proper(hs)
    && Matches(hs, Texts(h.Version(seqNo))) && text == NewText(hs, Texts(h.Version(seqNo)))
    && items' != [] && items'[1..] == NullItems(items, n, seqNo, note, fromRel, toRel)
    && items'[0] == NewDelta(note, n + Gap(fromRel, toRel), LastNull(n, seqNo, fromRel, toRel))
                    .WithCounts(items'[0].inserted, items'[0].deleted, items'[0].unchangedLines)
    && Run(h, es) && h' == After(h, es)
  }

  /** A live delta descends from s, or lists it. */
  predicate InUseBy(d: Delta, s: nat) {
    !d.Removed() && (d.prevSeq == s || s in d.included || s in d.excluded || s in d.ignored)
  }

  predicate IsUsed(items: seq<Delta>, s: nat) {
    exists k :: 0 <= k < |items| && InUseBy(items[k], s)
  }

  class SccsFile {
    var items: seq<Delta>
    var body: seq<Line>
    ghost var versions: map<nat, seq<Owned>>

    ghost function Abs(): SFile
      reads this
    {
      AbsOf(items, body, versions)
    }

    ghost predicate Valid()
      reads this
    {
      ValidFile(items, Abs())
    }

    /** A new file with a first delta. */
    constructor Create(note: Note, text: seq<string>)
      ensures Valid() && Abs() == Next(EMPTY, Event.Create(text))
      ensures |items| == 1 && items[0].seqNo == 1 && items[0].prevSeq == 0
      ensures items[0].kind == 'D' && items[0].id == note.id && items[0].date == note.date && items[0].user == note.user
      ensures items[0].mrs == note.mrs && items[0].comments == note.comments
      ensures items[0].included == items[0].excluded == items[0].ignored == []
      ensures items[0].inserted == |text| && items[0].deleted == 0 && items[0].unchangedLines == 0
    {
      items := [NewDelta(note, 1, 0).(inserted := |text|)];
      body := [Ins(1)] + TextLines(text) + [End(1)];
      versions := map[1 := Own(text, 1)];
      new;
      CreateKeepsInv(text);
      FirstTable(NewDelta(note, 1, 0).(inserted := |text|));
    }

    /** Reads the table in file order. */
    method ReadTable() returns (t: DeltaTable, index: Index)
      ensures fresh(t) && t.Valid() && t.items == items && index == ByNumber(items)
    {
      hide IsHighest, IsHighestRelease, ByNumber;
      t := new DeltaTable();
      t.AddAll(items);
      assert [] + items == items;
      index := map s | s in t.seqTable :: items[t.seqTable[s]];
      IndexIsByNumber(t.seqTable, items);
    }

    /** A reader set up for one version; false when the table is corrupt.  Without stored lists the version
        consists of the ancestor chain. */
    method Select(index: Index, last: nat, seqNo: nat) returns (ok: bool, st: SeqState, ghost inc: set<nat>, ghost exc: set<nat>)
      requires 0 < seqNo <= last < SEQ_LIMIT
      ensures fresh(st) && fresh(st.states) && st.states.Length == last + 1
      ensures Sound(index) && ListsSound(index) && seqNo in index ==> ok
      ensures st.Valid() && (ok ==> st.Settled())
      ensures ok ==> IsLeastClosed(index, Ancestors(index, seqNo), inc) && IsExcludedBy(index, inc, exc)
      ensures ok ==> IsIgnoredBy(index, inc - exc, st.Sense().ignored)
      ensures ok ==> var g := st.Sense().ignored; st.Sense() == Meaning(inc - exc - g, exc - g, g, NONE_OPEN)
      ensures ok && NoLists(index) ==> st.Sense() == Meaning(Ancestors(index, seqNo), {}, {}, NONE_OPEN)
    {
      hide IsLeastClosed, IsExcludedBy, IsIgnoredBy, Ancestors, Sound, ListsSound, NoLists;
      st := new SeqState(last);
      ok, inc, exc := PrepareSeqState(index, st, seqNo);
      if ok && NoLists(index) {
        PlainSelection(index, seqNo, inc, exc, st.Sense().ignored);
      }
      if ok {
        NothingVisible(st.Sense().included);
        assert !st.inserting;
      }
    }

    /** Retrieves a version by sequence number.  The reader that is handed back is as good as new: a copy
        of it did the reading. */
    method Retrieve(index: Index, high: nat, seqNo: nat) returns (st: SeqState, r: Option<seq<Owned>>)
      requires Sound(index) && NoLists(index) && seqNo in index && 0 < seqNo <= high < SEQ_LIMIT
      requires BodyScanner.Gettable(body, high)
      ensures fresh(st) && fresh(st.states) && st.states.Length == high + 1
      ensures st.Valid() && st.Settled()
      ensures st.Sense() == Meaning(Ancestors(index, seqNo), {}, {}, NONE_OPEN)
      ensures r == Some(View(body[1..], BodyScanner.AfterFirst(body, high), Ancestors(index, seqNo)))
    {
      hide Ancestors, Sound, View, BodyScanner.Gettable, BodyScanner.AfterFirst;
      NoListsAreSound(index);
      var ok;
      ghost var inc, exc;
      ok, st, inc, exc := Select(index, high, seqNo);
      var gst := new SeqState.Copy(st);
      r := BodyScanner.Get(body, gst);
    }

    /** Retrieves a version by SID: whatever happened since, the version that was checked in, each line with
        the delta that brought it in. */
    method Get(id: Sid) returns (r: Option<seq<Owned>>, ghost entry: nat)
      requires Valid()
      ensures r.None? <==> forall j :: 0 <= j < |items| ==> items[j].Removed() || items[j].id != id
      ensures r.Some? ==> IsFirstLive(items, id, entry) && items[entry].seqNo in versions
                          && r.value == versions[items[entry].seqNo]
    {
      entry := 0;
      var t, index := ReadTable();
      TableFacts(items, Abs(), t.highSeqno);
      var found := t.Find(id);
      if found.None? {
        return None, 0;
      }
      entry := found.value;
      RetrievesVersion(items, Abs(), t.highSeqno, entry);
      var _, version := Retrieve(index, t.highSeqno, items[found.value].seqNo);
      r := version;
    }

    /** Scans the live deltas for one that descends from, or lists, a number. */
    method InUse(s: nat) returns (used: bool)
      ensures used <==> exists k :: 0 <= k < |items| && items[k].kind != 'R'
                          && (items[k].prevSeq == s || s in items[k].included || s in items[k].excluded || s in items[k].ignored)
      ensures used <==> IsUsed(items, s)
    {
      for i := 0 to |items|
        invariant forall j :: 0 <= j < i ==> !InUseBy(items[j], s)
      {
        if !items[i].Removed() {
          if items[i].prevSeq == s {
            return true;
          }
          if s in items[i].included || s in items[i].excluded || s in items[i].ignored {
            return true;
          }
        }
      }
      return false;
    }

    /** The checks of rmdel: a live delta with that SID, used by no other live delta. */
    method FindRemovable(id: Sid) returns (ok: bool, entry: nat)
      ensures ok <==> exists i: nat :: IsFirstLive(items, id, i) && !IsUsed(items, items[i].seqNo)
      ensures ok ==> IsFirstLive(items, id, entry) && !IsUsed(items, items[entry].seqNo)
      ensures ok ==> var s := items[entry].seqNo; forall k :: 0 <= k < |items| && items[k].kind != 'R' ==>
                       items[k].prevSeq != s && s !in items[k].included && s !in items[k].excluded && s !in items[k].ignored
    {
      hide ByNumber, IsIndexOf, IsHighest, IsHighestRelease;
      var t, _ := ReadTable();
      var found := t.Find(id);
      if found.None? {
        return false, 0;
      }
      entry := found.value;
      assert IsFirstLive(items, id, entry);
      var used := InUse(items[entry].seqNo);
      ok := !used;
      forall i: nat | IsFirstLive(items, id, i)
        ensures i == entry
      {
        FirstLiveIsUnique(items, id, i, entry);
      }
    }

    /** Removes a delta by SID.  It succeeds exactly when a live delta has that SID and no live delta uses
        it; then the file makes the removal step of the history. */
    method Rmdel(id: Sid) returns (ok: bool, ghost entry: nat)
      requires Valid()
      modifies this
      ensures Valid() && versions == old(versions)
      ensures ok <==> exists i: nat :: IsFirstLive(old(items), id, i) && !IsUsed(old(items), old(items)[i].seqNo)
      ensures ok ==> IsFirstLive(old(items), id, entry) && !IsUsed(old(items), old(items)[entry].seqNo)
      ensures ok ==> items == old(items)[entry := old(items)[entry].(kind := 'R')]
      ensures ok ==> Allowed(old(Abs()), Event.Rmdel(old(items)[entry].seqNo))
      ensures ok ==> Abs() == Next(old(Abs()), Event.Rmdel(old(items)[entry].seqNo))
      ensures !ok ==> items == old(items) && body == old(body)
    {
      hide Inv;
      var i;
      ok, i := FindRemovable(id);
      entry := i;
      if ok {
        RmdelStep(items, Abs(), i);
        var r := BodyScanner.RemoveDelta(body, items[i].seqNo);
        items, body := items[i := items[i].(kind := 'R')], r.body;
      }
    }

    /** Checks a version in over the one locked as `got`: retrieves that version, has it compared with the
        new text, and weaves the difference in.  The diff is any output that makes `text` of the retrieved
        text.  It succeeds exactly when `got` is there; then the file makes a run of steps of the history
        that ends with the check-in, and the table has an entry for the new delta in front, one null delta
        for each release in between if they are wanted, and then the old entries. */
    method AddDelta(got: Sid, note: Note, nullDeltas: bool, diff: seq<DiffLine>, ghost text: seq<string>)
      returns (ok: bool, dfile: seq<Owned>, counts: Counts, ghost entry: nat, ghost es: seq<Event>, ghost hs: seq<Hunk>)
      requires Valid()
      requires NextSeq(Abs()) + (if nullDeltas && got.rel + 1 < note.id.rel then note.id.rel - got.rel - 1 else 0) < 65535
      requires forall i: nat :: IsFirstLive(items, got, i) ==> Applied(diff, Texts(Abs().Version(items[i].seqNo))) == Some(text)
      modifies this
      ensures Valid()
      ensures ok <==> exists i: nat :: IsFirstLive(old(items), got, i)
      ensures ok ==> IsFirstLive(old(items), got, entry) && dfile == old(Abs().Version(items[entry].seqNo))
      ensures ok ==> DeltaOver(old(items), old(Abs()), entry, note, got.rel + 1, NullsTo(got, note, nullDeltas), hs, text, items, Abs())
      ensures ok ==> items != [] && items[0].kind == 'D' && items[0].id == note.id && items[0].date == note.date && items[0].user == note.user
      ensures ok ==> IsFirstLive(items, note.id, 0)
      ensures ok ==> items[0].mrs == note.mrs && items[0].comments == note.comments
      ensures ok ==> items[0].included == items[0].excluded == items[0].ignored == []
      ensures ok ==> items[0].inserted == counts.inserted && items[0].deleted == counts.deleted && items[0].unchangedLines == counts.same
      ensures ok ==> var k := if nullDeltas && got.rel + 1 < note.id.rel then note.id.rel - got.rel - 1 else 0;
                     && |items| == 1 + k + |old(items)| && items[1 + k..] == old(items)
                     && items[0].seqNo == NextSeq(old(Abs())) + k
                     && items[0].prevSeq == (if k == 0 then old(items)[entry].seqNo else items[0].seqNo - 1)
                     && forall j :: 1 <= j <= k ==> IsNullEntry(items[j], note, note.id.rel - j, items[0].seqNo - j)
      ensures ok ==> Abs().Version(items[0].seqNo) == Revised(hs, dfile, items[0].seqNo)
      ensures ok ==> Texts(Abs().Version(items[0].seqNo)) == text
      ensures ok ==> Run(old(Abs()), es) && Abs() == After(old(Abs()), es)
      ensures ok ==> es != [] && es[|es| - 1].CheckedIn? && es[|es| - 1].text == text
      ensures ok ==> counts.inserted == NewCount(diff) && counts.deleted == OldCount(diff)
      ensures ok ==> counts.deleted + counts.same == |dfile| && counts.inserted + counts.same == |text|
      ensures !ok ==> items == old(items) && body == old(body) && versions == old(versions)
    {
      hide ValidFile, AbsOf, Run, After, Apply, Revised, Texts, NextSeq, ByNumber, IsIndexOf, IsHighest, IsHighestRelease, DeltaOver, IsNullEntry, NewCount, OldCount;
      ok, dfile, counts, entry, es, hs := false, [], Counts(0, 0, 0), 0, [], [];
      var t, index := ReadTable();
      var found := t.Find(got);
      if found.Some? {
        ghost var items0, h0 := items, Abs();
        assert IsFirstLive(items, got, found.value);
        ok, entry := true, found.value;
        dfile, counts, es, hs := AddDeltaAt(t, index, found.value, note, got.rel + 1, NullsTo(got, note, nullDeltas), diff, text);
        DeltaOverEntries(items0, h0, entry, note, got.rel + 1, NullsTo(got, note, nullDeltas), hs, text, items, Abs());
      }
    }

    /** Weaves the difference to the retrieved version into the body, under the number n. */
    method WeaveDiff(st: SeqState, diff: seq<DiffLine>, n: nat, ghost sel: set<nat>, ghost old_: seq<Owned>)
      returns (out: seq<Line>, counts: Counts, ghost hs: seq<Hunk>)
      requires st.Valid() && st.Settled() && st.Sense().open == NONE_OPEN && st.Sense().included == sel
      requires WellFormed(body) && ReadableAll(body, NONE_OPEN, st.states.Length - 1) && View(body, NONE_OPEN, sel) == old_
      requires Applied(diff, Texts(old_)).Some?
      modifies st`activeSeq, st`inserting, st.states
      ensures Proper(hs) && Matches(hs, Texts(old_)) && Applied(diff, Texts(old_)) == Some(NewText(hs, Texts(old_)))
      ensures out == Woven(body, hs, sel, n)
      ensures counts.inserted == NewCount(diff) && counts.deleted == OldCount(diff)
      ensures counts.deleted + counts.same == |old_| && counts.inserted + counts.same == |NewText(hs, Texts(old_))|
    {
      NothingVisibleAtEnd(body, sel);
      var ok;
      ghost var sc;
      ok, out, counts, sc, hs := BodyScanner.Delta(body, diff, n, st);
    }

    /** Checks a version in over the entry i of the table. */
    method AddDeltaAt(t: DeltaTable, index: Index, i: nat, note: Note, fromRel: int, toRel: int,
                      diff: seq<DiffLine>, ghost text: seq<string>)
      returns (dfile: seq<Owned>, counts: Counts, ghost es: seq<Event>, ghost hs: seq<Hunk>)
      requires Valid() && t.Valid() && t.items == items && index == ByNumber(items)
      requires NextSeq(Abs()) + Gap(fromRel, toRel) < SEQ_LIMIT
      requires i < |items| && !items[i].Removed() && Applied(diff, Texts(Abs().Version(items[i].seqNo))) == Some(text)
      modifies this, t
      ensures Valid()
      ensures dfile == old(Abs().Version(items[i].seqNo))
      ensures DeltaOver(old(items), old(Abs()), i, note, fromRel, toRel, hs, text, items, Abs())
      ensures Run(old(Abs()), es) && Abs() == After(old(Abs()), es)
      ensures es != [] && es[|es| - 1].CheckedIn? && es[|es| - 1].text == text
      ensures items != [] && items[0] == NewDelta(note, items[0].seqNo, items[0].prevSeq).WithCounts(counts.inserted, counts.deleted, counts.same)
      ensures Abs().Version(items[0].seqNo) == Revised(hs, dfile, items[0].seqNo)
      ensures Texts(Abs().Version(items[0].seqNo)) == text
      ensures counts.inserted == NewCount(diff) && counts.deleted == OldCount(diff)
      ensures counts.deleted + counts.same == |dfile| && counts.inserted + counts.same == |text|
    {
      hide ValidFile, AbsOf, Run, After, Matches, NewText, Proper, Apply, Revised, Texts, NextSeq, IsHighest, IsIndexOf, IsHighestRelease, ByNumber,
           CheckInEvents, NullItems, Gap, LastNull, NewCount, OldCount;
      ghost var h := Abs();
      var out, d;
      dfile, out, d, counts, es, hs := WeaveDelta(t, index, i, note, fromRel, toRel, diff, text);
      t.Prepend(d);
      items, body, versions := t.items, out, After(h, es).versions;
      AbsIs(items, After(h, es));
    }

    /** What is written for a new delta over the entry i: the old version is retrieved, the table gets the
        automatic null deltas, and the body is woven. */
    method WeaveDelta(t: DeltaTable, index: Index, i: nat, note: Note, fromRel: int, toRel: int,
                      diff: seq<DiffLine>, ghost text: seq<string>)
      returns (dfile: seq<Owned>, out: seq<Line>, d: Delta, counts: Counts, ghost es: seq<Event>, ghost hs: seq<Hunk>)
      requires Valid() && t.Valid() && t.items == items && index == ByNumber(items)
      requires NextSeq(Abs()) + Gap(fromRel, toRel) < SEQ_LIMIT
      requires i < |items| && !items[i].Removed() && Applied(diff, Texts(Abs().Version(items[i].seqNo))) == Some(text)
      modifies t
      ensures t.Valid() && dfile == Abs().Version(items[i].seqNo)
      ensures Proper(hs) && Matches(hs, Texts(dfile)) && text == NewText(hs, Texts(dfile))
      ensures var n, seqNo := NextSeq(Abs()), items[i].seqNo;
              && t.items == NullItems(items, n, seqNo, note, fromRel, toRel)
              && d.seqNo == n + Gap(fromRel, toRel) && d.prevSeq == LastNull(n, seqNo, fromRel, toRel)
              && es == CheckInEvents(n, seqNo, fromRel, toRel, hs, text)
      ensures d == NewDelta(note, d.seqNo, d.prevSeq).WithCounts(counts.inserted, counts.deleted, counts.same)
      ensures es != [] && es[|es| - 1].CheckedIn? && es[|es| - 1].text == text
      ensures Run(Abs(), es) && ValidFile([d] + t.items, After(Abs(), es)) && After(Abs(), es).body == out
      ensures After(Abs(), es).Version(d.seqNo) == Revised(hs, dfile, d.seqNo)
      ensures Texts(After(Abs(), es).Version(d.seqNo)) == text
      ensures counts.inserted == NewCount(diff) && counts.deleted == OldCount(diff)
      ensures counts.deleted + counts.same == |dfile| && counts.inserted + counts.same == |text|
    {
      hide ValidFile, AbsOf, Sound, NoLists, IsIndexOf, IsHighestRelease, WellFormed, ReadableAll, Ancestors, ByNumber, Run, After, Woven,
           NullItems, NullEvents, Matches, NewText, Proper, Apply, View, NewCount, OldCount, Revised, Texts, BodyScanner.Gettable, BodyScanner.AfterFirst,
           MeaningOf, Visible, NextSeq, LastNull, Top, IsHighest, Gap, Step, StepAll;
      ghost var h := Abs();
      AbsParts(items, body, versions);
      TableFacts(items, h, t.highSeqno);
      var seqNo, high := items[i].seqNo, t.highSeqno;
      RetrievesVersion(items, h, high, i);
      var st, retrieved := Retrieve(index, high, seqNo);
      dfile := retrieved.value;
      var pred := PrependNulls(t, seqNo, note, fromRel, toRel);
      var n := t.NextSeqno();
      out, counts, hs := WeaveDiff(st, diff, n, Ancestors(index, seqNo), dfile);
      d := NewDelta(note, n, pred).WithCounts(counts.inserted, counts.deleted, counts.same);
      es := CheckInEvents(high + 1, seqNo, fromRel, toRel, hs, text);
      AddDeltaRun(items, h, seqNo, note, fromRel, toRel, hs, text, d);
    }

    /** Puts the automatic null deltas between two releases into the table. */
    method PrependNulls(t: DeltaTable, first: nat, note: Note, fromRel: int, toRel: int) returns (pred: nat)
      requires t.Valid() && 0 < t.highSeqno && t.highSeqno + Gap(fromRel, toRel) < SEQ_LIMIT
      modifies t
      ensures t.Valid() && t.items == NullItems(old(t.items), old(t.highSeqno) + 1, first, note, fromRel, toRel)
      ensures pred == LastNull(old(t.highSeqno) + 1, first, fromRel, toRel)
      ensures t.highSeqno == old(t.highSeqno) + Gap(fromRel, toRel)
    {
      hide IsIndexOf, IsHighest, IsHighestRelease;
      pred := first;
      var rel := fromRel;
      ghost var items0, high0 := t.items, t.highSeqno;
      while rel < toRel
        invariant fromRel <= rel && (rel <= toRel || rel == fromRel)
        invariant t.Valid() && t.highSeqno == high0 + (rel - fromRel)
        invariant NullItems(t.items, t.highSeqno + 1, pred, note, rel, toRel) == NullItems(items0, high0 + 1, first, note, fromRel, toRel)
        invariant LastNull(t.highSeqno + 1, pred, rel, toRel) == LastNull(high0 + 1, first, fromRel, toRel)
      {
        var n := t.NextSeqno();
        HighestPrepend(t.highSeqno, t.items, NullDeltaFor(note, n, pred, rel));
        t.Prepend(NullDeltaFor(note, n, pred, rel));
        HighestUnique(t.highSeqno, n, t.items);
        pred, rel := n, rel + 1;
      }
    }
  }

  function NullDeltaFor(note: Note, n: nat, pred: nat, rel: int): Delta {
    NewDelta(note.(id := Sid(rel, 1, 0, 0), comments := ["AUTO NULL DELTA"]), n, pred)
  }

  /** The table after the automatic null deltas, numbered from n; each is the predecessor of the next. */
  function NullItems(items: seq<Delta>, n: nat, pred: nat, note: Note, fromRel: int, toRel: int): seq<Delta>
    decreases toRel - fromRel
  {
    if fromRel >= toRel then items
    else NullItems([NullDeltaFor(note, n, pred, fromRel)] + items, n + 1, n, note, fromRel + 1, toRel)
  }

  /** The entry for an automatic null delta of a release. */
  predicate IsNullEntry(d: Delta, note: Note, rel: int, seqNo: int) {
    && d.kind == 'D' && d.id == Sid(rel, 1, 0, 0) && d.date == note.date && d.user == note.user && d.seqNo == seqNo
    && d.mrs == note.mrs && d.comments == ["AUTO NULL DELTA"]
    && d.included == d.excluded == d.ignored == [] && d.inserted == d.deleted == d.unchangedLines == 0
  }

  /** One entry for each release from `fromRel` to `toRel - 1`, the latest in front, and each the predecessor
      of the next. */
  lemma {:induction false} NullEntries(items: seq<Delta>, n: nat, pred: nat, note: Note, fromRel: int, toRel: int)
    requires fromRel <= toRel
    ensures var all, k := NullItems(items, n, pred, note, fromRel, toRel), toRel - fromRel;
            && |all| == k + |items| && all[k..] == items
            && (forall j :: 0 <= j < k ==> IsNullEntry(all[j], note, toRel - 1 - j, n + k - 1 - j))
            && (forall j :: 0 <= j < k ==> all[j].prevSeq == if j == k - 1 then pred else n + k - 2 - j)
    decreases toRel - fromRel
  {
    if fromRel < toRel {
      var d, k := NullDeltaFor(note, n, pred, fromRel), toRel - fromRel;
      NullEntries([d] + items, n + 1, n, note, fromRel + 1, toRel);
      var all := NullItems([d] + items, n + 1, n, note, fromRel + 1, toRel);
      assert all[k - 1] == all[k - 1..][0] == d;
      assert all[k..] == all[k - 1..][1..];
    }
  }

  /** The table after a check-in, entry by entry. */
  lemma DeltaOverEntries(items: seq<Delta>, h: SFile, i: nat, note: Note, fromRel: int, toRel: int,
                         hs: seq<Hunk>, text: seq<string>, items': seq<Delta>, h': SFile)
    requires i < |items| && DeltaOver(items, h, i, note, fromRel, toRel, hs, text, items', h')
    ensures var k := if fromRel < toRel then toRel - fromRel else 0;
            && |items'| == 1 + k + |items| && items'[1 + k..] == items
            && items'[0].seqNo == NextSeq(h) + k
            && items'[0].prevSeq == (if k == 0 then items[i].seqNo else items'[0].seqNo - 1)
            && forall j :: 1 <= j <= k ==> IsNullEntry(items'[j], note, toRel - j, items'[0].seqNo - j)
  {
    hide Run, After, Proper, Matches, NewText, NullItems, IsNullEntry, NextSeq, CheckInEvents;
    var k, n := if fromRel < toRel then toRel - fromRel else 0, NextSeq(h);
    var nulls := NullItems(items, n, items[i].seqNo, note, fromRel, toRel);
    if fromRel < toRel {
      NullEntries(items, n, items[i].seqNo, note, fromRel, toRel);
    } else {
      NoNullItems(items, n, items[i].seqNo, note, fromRel, toRel);
    }
    assert items' == [items'[0]] + nulls;
    assert items'[1 + k..] == nulls[k..];
    forall j | 1 <= j <= k
      ensures IsNullEntry(items'[j], note, toRel - j, items'[0].seqNo - j)
    {
      assert items'[j] == nulls[j - 1];
      assert IsNullEntry(nulls[j - 1], note, toRel - 1 - (j - 1), n + k - 1 - (j - 1));
    }
  }

  lemma NoNullItems(items: seq<Delta>, n: nat, pred: nat, note: Note, fromRel: int, toRel: int)
    requires toRel <= fromRel
    ensures NullItems(items, n, pred, note, fromRel, toRel) == items
  {
  }

  function LastNull(n: nat, pred: nat, fromRel: int, toRel: int): nat {
    if fromRel >= toRel then pred else n + (toRel - fromRel) - 1
  }

  function NullEvents(n: nat, pred: nat, fromRel: int, toRel: int): seq<Event>
    decreases toRel - fromRel
  {
    if fromRel >= toRel then [] else [NullDelta(pred)] + NullEvents(n + 1, n, fromRel + 1, toRel)
  }

  lemma HighestPrepend(h: nat, items: seq<Delta>, d: Delta)
    requires IsHighest(h, items) && h < d.seqNo
    ensures IsHighest(d.seqNo, [d] + items)
  {
    assert ([d] + items)[0] == d;
  }

  lemma HighestUnique(h: nat, k: nat, items: seq<Delta>)
    requires IsHighest(h, items) && IsHighest(k, items)
    ensures h == k
  {
  }

  /** Writing the null deltas is a run of null-delta steps, and the last one has the text of the first
      predecessor. */
  lemma {:induction false} NullsRun(items: seq<Delta>, h: SFile, pred: nat, note: Note, fromRel: int, toRel: int)
    requires ValidFile(items, h) && pred in h.live
    requires NextSeq(h) + Gap(fromRel, toRel) < SEQ_LIMIT
    ensures var n := NextSeq(h);
            var es := NullEvents(n, pred, fromRel, toRel);
            && Run(h, es)
            && ValidFile(NullItems(items, n, pred, note, fromRel, toRel), After(h, es))
            && After(h, es).body == h.body
            && SameVersion(h, pred, After(h, es), LastNull(n, pred, fromRel, toRel))
            && NextSeq(After(h, es)) == n + Gap(fromRel, toRel)
    decreases toRel - fromRel
  {
    hide ValidFile, Allowed, SameVersion, Next, NextSeq;
    LiveHasText(items, h, pred);
    if fromRel < toRel {
      var n := NextSeq(h);
      var d := NullDeltaFor(note, n, pred, fromRel);
      NullStep(items, h, d);
      NullsRun([d] + items, Next(h, NullDelta(pred)), n, note, fromRel + 1, toRel);
      SameVersionTrans(h, pred, Next(h, NullDelta(pred)), n, After(Next(h, NullDelta(pred)), NullEvents(n + 1, n, fromRel + 1, toRel)),
                    LastNull(n + 1, n, fromRel + 1, toRel));
      assert NullEvents(n, pred, fromRel, toRel)[1..] == NullEvents(n + 1, n, fromRel + 1, toRel);
    }
  }

  lemma SameVersionTrans(h: SFile, d: nat, h': SFile, k: nat, h'': SFile, m: nat)
    requires SameVersion(h, d, h', k) && SameVersion(h', k, h'', m)
    ensures SameVersion(h, d, h'', m)
  {
  }

  lemma LiveHasText(items: seq<Delta>, h: SFile, d: nat)
    requires ValidFile(items, h) && d in h.live
    ensures SameVersion(h, d, h, d)
  {
  }

  /** Delta k of the later file h' is live, has the text that delta d has in h, and selects the same
      deltas among those of h. */
  ghost predicate SameVersion(h: SFile, d: nat, h': SFile, k: nat) {
    && k in h'.live && h'.Version(k) == h.Version(d)
    && NextSeq(h) <= NextSeq(h')
    && forall i :: i < NextSeq(h) ==> (i in Chain(h.prev, d) <==> i in Chain(h'.prev, k))
  }

  lemma TablePrepended(items: seq<Delta>, d: Delta)
    requires Distinct(items) && NoLists(ByNumber(items)) && d.seqNo !in ByNumber(items)
    requires !d.Removed() && d.included == d.excluded == d.ignored == []
    ensures var t := ByNumber([d] + items);
            && Distinct([d] + items) && NoLists(t)
            && Prevs(t) == Prevs(ByNumber(items))[d.seqNo := d.prevSeq] && Live(t) == Live(ByNumber(items)) + {d.seqNo}
  {
    ByNumberPrepend(items, d);
    DistinctPrepend(items, d);
    AddedLive(ByNumber(items), d);
  }

  lemma DistinctPrepend(items: seq<Delta>, d: Delta)
    requires Distinct(items) && d.seqNo !in ByNumber(items)
    ensures Distinct([d] + items)
  {
    forall i | 0 <= i < |items|
      ensures items[i].seqNo != d.seqNo
    {
      ByNumberAt(items, i);
    }
  }

  lemma AddedLive(t: Index, d: Delta)
    requires NoLists(t) && d.seqNo !in t && !d.Removed() && d.included == d.excluded == d.ignored == []
    ensures NoLists(t[d.seqNo := d])
    ensures Prevs(t[d.seqNo := d]) == Prevs(t)[d.seqNo := d.prevSeq] && Live(t[d.seqNo := d]) == Live(t) + {d.seqNo}
  {
  }

  lemma NullStep(items: seq<Delta>, h: SFile, d: Delta)
    requires ValidFile(items, h) && d.prevSeq in h.live && d.seqNo == NextSeq(h) < SEQ_LIMIT
    requires !d.Removed() && d.included == d.excluded == d.ignored == []
    ensures Allowed(h, NullDelta(d.prevSeq)) && ValidFile([d] + items, Next(h, NullDelta(d.prevSeq)))
    ensures NextSeq(Next(h, NullDelta(d.prevSeq))) == NextSeq(h) + 1
    ensures SameVersion(h, d.prevSeq, Next(h, NullDelta(d.prevSeq)), d.seqNo) && d.seqNo in Next(h, NullDelta(d.prevSeq)).live
    ensures Next(h, NullDelta(d.prevSeq)).body == h.body
  {
    NextIsFresh(h, d.prevSeq);
    ChainOfNew(h, d.prevSeq);
    NullDeltaKeepsInv(h, d.prevSeq);
    TablePrepended(items, d);
  }

  lemma CheckInStep(items: seq<Delta>, h: SFile, d: Delta, hs: seq<Hunk>, text: seq<string>)
    requires ValidFile(items, h) && d.prevSeq in h.live && d.seqNo == NextSeq(h) < SEQ_LIMIT
    requires !d.Removed() && d.included == d.excluded == d.ignored == []
    requires var old_ := Texts(h.Version(d.prevSeq)); Proper(hs) && Matches(hs, old_) && text == NewText(hs, old_)
    ensures Allowed(h, CheckedIn(d.prevSeq, hs, text))
    ensures ValidFile([d] + items, Next(h, CheckedIn(d.prevSeq, hs, text)))
  {
    NextIsFresh(h, d.prevSeq);
    CheckInKeepsInv(h, d.prevSeq, hs, text);
    TablePrepended(items, d);
  }

  /** The selection of the retrieved version weaves the same body as that of the recorded predecessor. */
  lemma SameWoven(items: seq<Delta>, h: SFile, got: nat, h': SFile, pred: nat, hs: seq<Hunk>, n: nat)
    requires ValidFile(items, h) && got in h.live && SameVersion(h, got, h', pred) && h'.body == h.body
    ensures Woven(h.body, hs, Ancestors(ByNumber(items), got), n) == Woven(h'.body, hs, Chain(h'.prev, pred), n)
  {
    NextIsFresh(h, got);
    SameWeave(h.body, NONE_OPEN, Out, Compile(hs), Ancestors(ByNumber(items), got), Chain(h'.prev, pred), n);
  }

  /** The run that a check-in makes: the automatic null deltas, then the new delta. */
  function CheckInEvents(n: nat, got: nat, fromRel: int, toRel: int, hs: seq<Hunk>, text: seq<string>): seq<Event> {
    NullEvents(n, got, fromRel, toRel) + [CheckedIn(LastNull(n, got, fromRel, toRel), hs, text)]
  }

  /** Nulls written between two releases. */
  function Gap(fromRel: int, toRel: int): nat {
    if fromRel < toRel then toRel - fromRel else 0
  }

  lemma {:induction false} AddDeltaRun(items: seq<Delta>, h: SFile, got: nat, note: Note, fromRel: int, toRel: int,
                    hs: seq<Hunk>, text: seq<string>, d: Delta)
    requires ValidFile(items, h) && got in h.live && NextSeq(h) + Gap(fromRel, toRel) < SEQ_LIMIT
    requires var old_ := Texts(h.Version(got)); Proper(hs) && Matches(hs, old_) && text == NewText(hs, old_)
    requires !d.Removed() && d.included == d.excluded == d.ignored == []
    requires d.seqNo == NextSeq(h) + Gap(fromRel, toRel) && d.prevSeq == LastNull(NextSeq(h), got, fromRel, toRel)
    ensures var es := CheckInEvents(NextSeq(h), got, fromRel, toRel, hs, text);
            && Run(h, es)
            && ValidFile([d] + NullItems(items, NextSeq(h), got, note, fromRel, toRel), After(h, es))
            && After(h, es).body == Woven(h.body, hs, Ancestors(ByNumber(items), got), d.seqNo)
            && After(h, es).Version(d.seqNo) == Revised(hs, h.Version(got), d.seqNo)
            && Texts(After(h, es).Version(d.seqNo)) == text
  {
    hide ValidFile, Allowed;
    var n := NextSeq(h);
    var es, e := NullEvents(n, got, fromRel, toRel), CheckedIn(d.prevSeq, hs, text);
    NullsRun(items, h, got, note, fromRel, toRel);
    var h' := After(h, es);
    CheckInStep(NullItems(items, n, got, note, fromRel, toRel), h', d, hs, text);
    RunAppend(h, es, e);
    SameWoven(items, h, got, h', d.prevSeq, hs, d.seqNo);
  }

  lemma TableMarked(items: seq<Delta>, i: nat)
    requires Distinct(items) && NoLists(ByNumber(items)) && i < |items|
    ensures var t := ByNumber(items[i := items[i].(kind := 'R')]);
            && Distinct(items[i := items[i].(kind := 'R')]) && NoLists(t)
            && Prevs(t) == Prevs(ByNumber(items)) && Live(t) == Live(ByNumber(items)) - {items[i].seqNo}
  {
    var d := items[i].(kind := 'R');
    ByNumberAt(items, i);
    ByNumberUpdate(items, i, d);
    MarkedRemoved(ByNumber(items), d.seqNo, d);
  }

  lemma RmdelStep(items: seq<Delta>, h: SFile, i: nat)
    requires ValidFile(items, h) && i < |items| && !items[i].Removed() && !IsUsed(items, items[i].seqNo)
    ensures var s, items' := items[i].seqNo, items[i := items[i].(kind := 'R')];
            && Allowed(h, Event.Rmdel(s)) && Remove(h.body, COPYING, s).Removed?
            && ValidFile(items', Next(h, Event.Rmdel(s)))
  {
    var s := items[i].seqNo;
    LiveEntries(items, i);
    NoSuccessor(items, s);
    RmdelNeverFails(h, s);
    RmdelKeepsInv(h, s);
    TableMarked(items, i);
  }
}
