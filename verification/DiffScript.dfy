/** Normal-format diffs: what a script means, and how it is consumed one line at a time. */
module DiffScript {
  import opened Basics
  import opened Weave

  /** A change after `keep` unchanged lines: `del` lines go away and `ins` lines arrive. */
  datatype Hunk = Hunk(keep: nat, del: seq<string>, ins: seq<string>)

  ghost predicate Proper(hs: seq<Hunk>) {
    forall i :: 0 <= i < |hs| ==> hs[i].del != [] || hs[i].ins != []
  }

  /** The hunks address lines that the old text has, and quote the deleted ones correctly. */
  predicate Matches(hs: seq<Hunk>, old_: seq<string>) {
    hs == [] ||
    var h := hs[0];
    && h.keep + |h.del| <= |old_|
    && old_[h.keep..h.keep + |h.del|] == h.del
    && Matches(hs[1..], old_[h.keep + |h.del|..])
  }

  /** The new text that a diff describes. */
  function NewText(hs: seq<Hunk>, old_: seq<string>): seq<string>
    requires Matches(hs, old_)
  {
    if hs == [] then old_
    else
      var h := hs[0];
      old_[..h.keep] + h.ins + NewText(hs[1..], old_[h.keep + |h.del|..])
  }

  /** The lines of a text, all inserted by n. */
  function Own(ls: seq<string>, n: nat): (v: seq<Owned>)
    ensures Texts(v) == ls
  {
    if ls == [] then [] else [Owned(n, ls[0])] + Own(ls[1..], n)
  }

  /** The new version with owners: kept lines keep theirs, new lines belong to n. */
  function NewVersion(hs: seq<Hunk>, v: seq<Owned>, n: nat): (w: seq<Owned>)
    requires Matches(hs, Texts(v))
    ensures Texts(w) == NewText(hs, Texts(v))
  {
    if hs == [] then v
    else
      var h, k := hs[0], hs[0].keep + |hs[0].del|;
      assert Texts(v)[k..] == Texts(v[k..]);
      var w := NewVersion(hs[1..], v[k..], n);
      TextsConcat(v[..h.keep] + Own(h.ins, n), w);
      TextsConcat(v[..h.keep], Own(h.ins, n));
      assert Texts(v)[..h.keep] == Texts(v[..h.keep]);
      v[..h.keep] + Own(h.ins, n) + w
  }

  /** The same script as one instruction per line.  `Cut` marks the end of a hunk. */
  datatype Script = Done | Keep(rest: Script) | Drop(rest: Script) | Add(s: string, rest: Script) | Cut(rest: Script)

  function Keeps(k: nat, r: Script): Script {
    if k == 0 then r else Keep(Keeps(k - 1, r))
  }

  function Drops(k: nat, r: Script): Script {
    if k == 0 then r else Drop(Drops(k - 1, r))
  }

  function Adds(ls: seq<string>, r: Script): Script {
    if ls == [] then r else Add(ls[0], Adds(ls[1..], r))
  }

  function Change(h: Hunk, r: Script): Script {
    Drops(|h.del|, Adds(h.ins, Cut(r)))
  }

  function Compile(hs: seq<Hunk>): Script {
    if hs == [] then Done else Keeps(hs[0].keep, Change(hs[0], Compile(hs[1..])))
  }

  /** The script asks for no more old lines than there are. */
  predicate Fits(sc: Script, m: nat) {
    match sc
    case Done => true
    case Keep(r) => 0 < m && Fits(r, m - 1)
    case Drop(r) => 0 < m && Fits(r, m - 1)
    case Add(_, r) => Fits(r, m)
    case Cut(r) => Fits(r, m)
  }

  /** The script goes on to delete when all m old lines are used up. */
  predicate EndsOpen(sc: Script, m: nat) {
    match sc
    case Done => false
    case Keep(r) => 0 < m && EndsOpen(r, m - 1)
    case Drop(r) => m == 0 || EndsOpen(r, m - 1)
    case Add(_, r) => EndsOpen(r, m)
    case Cut(r) => EndsOpen(r, m)
  }

  lemma {:induction false} FittingEndsClosed(sc: Script, m: nat)
    requires Fits(sc, m)
    ensures !EndsOpen(sc, m)
    decreases sc
  {
    match sc
    case Keep(r) => FittingEndsClosed(r, m - 1);
    case Drop(r) => FittingEndsClosed(r, m - 1);
    case Add(_, r) => FittingEndsClosed(r, m);
    case Cut(r) => FittingEndsClosed(r, m);
    case Done =>
  }

  /** The version after the script: kept lines keep their owner, new lines belong to n. */
  function Patch(v: seq<Owned>, sc: Script, n: nat): seq<Owned>
    requires Fits(sc, |v|)
    decreases sc
  {
    match sc
    case Done => v
    case Keep(r) => [v[0]] + Patch(v[1..], r, n)
    case Drop(r) => Patch(v[1..], r, n)
    case Add(s, r) => [Owned(n, s)] + Patch(v, r, n)
    case Cut(r) => Patch(v, r, n)
  }

  // ---------------------------------------------------------------- counting lines

  datatype Counts = Counts(inserted: nat, deleted: nat, same: nat)

  /** What a check-in reports for a script over m old lines. */
  function Tally(sc: Script, m: nat): Counts
    requires Fits(sc, m)
    decreases sc
  {
    match sc
    case Done => Counts(0, 0, m)
    case Keep(r) => var c := Tally(r, m - 1); c.(same := c.same + 1)
    case Drop(r) => var c := Tally(r, m - 1); c.(deleted := c.deleted + 1)
    case Add(_, r) => var c := Tally(r, m); c.(inserted := c.inserted + 1)
    case Cut(r) => Tally(r, m)
  }

  /** deleted + unchanged is the old length and inserted + unchanged is the new length. */
  lemma {:induction false} TallyBalances(v: seq<Owned>, sc: Script, n: nat)
    requires Fits(sc, |v|)
    ensures var c := Tally(sc, |v|);
            && c.deleted + c.same == |v|
            && c.inserted + c.same == |Patch(v, sc, n)|
    decreases sc
  {
    match sc
    case Done =>
    case Keep(r) => TallyBalances(v[1..], r, n);
    case Drop(r) => TallyBalances(v[1..], r, n);
    case Add(_, r) => TallyBalances(v, r, n);
    case Cut(r) => TallyBalances(v, r, n);
  }

  // ---------------------------------------------------------------- scripts and hunks agree

  lemma {:induction false} KeepsPatch(k: nat, v: seq<Owned>, r: Script, n: nat)
    requires k <= |v| && Fits(r, |v| - k)
    ensures Fits(Keeps(k, r), |v|)
    ensures Patch(v, Keeps(k, r), n) == v[..k] + Patch(v[k..], r, n)
    decreases k
  {
    if k == 0 {
      assert v[0..] == v;
    } else {
      var w := v[1..];
      assert w[k - 1..] == v[k..];
      assert v[..k] == [v[0]] + w[..k - 1];
      KeepsPatch(k - 1, w, r, n);
      ghost var p := Patch(v[k..], r, n);
      calc {
        Patch(v, Keeps(k, r), n);
        [v[0]] + (w[..k - 1] + p);
        ([v[0]] + w[..k - 1]) + p;
      }
    }
  }

  lemma {:induction false} DropsPatch(k: nat, v: seq<Owned>, r: Script, n: nat)
    requires k <= |v| && Fits(r, |v| - k)
    ensures Fits(Drops(k, r), |v|)
    ensures Patch(v, Drops(k, r), n) == Patch(v[k..], r, n)
    decreases k
  {
    if k == 0 {
      assert v[0..] == v;
    } else {
      DropsPatch(k - 1, v[1..], r, n);
      assert v[1..][k - 1..] == v[k..];
    }
  }

  lemma {:induction false} AddsPatch(ls: seq<string>, v: seq<Owned>, r: Script, n: nat)
    requires Fits(r, |v|)
    ensures Fits(Adds(ls, r), |v|)
    ensures Patch(v, Adds(ls, r), n) == Own(ls, n) + Patch(v, r, n)
  {
    if ls != [] {
      AddsPatch(ls[1..], v, r, n);
      calc {
        Patch(v, Adds(ls, r), n);
        [Owned(n, ls[0])] + (Own(ls[1..], n) + Patch(v, r, n));
        ([Owned(n, ls[0])] + Own(ls[1..], n)) + Patch(v, r, n);
      }
    }
  }

  lemma ChangePatch(h: Hunk, v: seq<Owned>, r: Script, n: nat)
    requires |h.del| <= |v| && Fits(r, |v| - |h.del|)
    ensures Fits(Change(h, r), |v|)
    ensures Patch(v, Change(h, r), n) == Own(h.ins, n) + Patch(v[|h.del|..], r, n)
  {
    AddsPatch(h.ins, v[|h.del|..], Cut(r), n);
    DropsPatch(|h.del|, v, Adds(h.ins, Cut(r)), n);
  }

  lemma HunkPatch(h: Hunk, v: seq<Owned>, r: Script, n: nat)
    requires h.keep + |h.del| <= |v| && Fits(r, |v| - h.keep - |h.del|)
    ensures Fits(Keeps(h.keep, Change(h, r)), |v|)
    ensures Patch(v, Keeps(h.keep, Change(h, r)), n)
         == v[..h.keep] + Own(h.ins, n) + Patch(v[h.keep + |h.del|..], r, n)
  {
    hide Patch, Own, Change, Keeps;
    var w := v[h.keep..];
    assert w[|h.del|..] == v[h.keep + |h.del|..];
    ChangePatch(h, w, r, n);
    KeepsPatch(h.keep, v, Change(h, r), n);
    ConcatAssoc(v[..h.keep], Own(h.ins, n), Patch(v[h.keep + |h.del|..], r, n));
  }

  lemma MatchesRest(hs: seq<Hunk>, v: seq<Owned>)
    requires hs != [] && Matches(hs, Texts(v))
    ensures var k := hs[0].keep + |hs[0].del|; k <= |v| && Matches(hs[1..], Texts(v[k..]))
  {
    var k := hs[0].keep + |hs[0].del|;
    assert Texts(v)[k..] == Texts(v[k..]);
  }

  /** Compiling the hunks does not change their meaning. */
  lemma {:induction false} CompileMeansNewVersion(hs: seq<Hunk>, v: seq<Owned>, n: nat)
    requires Matches(hs, Texts(v))
    ensures Fits(Compile(hs), |v|)
    ensures Patch(v, Compile(hs), n) == NewVersion(hs, v, n)
  {
    if hs != [] {
      var h, k := hs[0], hs[0].keep + |hs[0].del|;
      MatchesRest(hs, v);
      CompileMeansNewVersion(hs[1..], v[k..], n);
      HunkPatch(h, v, Compile(hs[1..]), n);
    }
  }

  // ---------------------------------------------------------------- one call of process()

  /** Which block of the new delta is open in the output. */
  datatype Mode = Out | InDrop | InAdd

  datatype Action = Kept | Dropped | Inserted(s: string)

  /** Control lines written, the verdict on the current old line, and where the script stands. */
  datatype Turn = Turn(out: seq<Line>, action: Action, mode: Mode, sc: Script)

  function Closing(mode: Mode, n: nat): seq<Line> {
    if mode.Out? then [] else [End(n)]
  }

  /** One verdict: an inserted line, or what happens to the current old line. */
  function Proc(mode: Mode, sc: Script, n: nat): Turn
    decreases sc
  {
    match sc
    case Done => Turn(Closing(mode, n), Kept, Out, Done)
    case Keep(r) => Turn(Closing(mode, n), Kept, Out, r)
    case Drop(r) => Turn(if mode.InDrop? then [] else Closing(mode, n) + [Del(n)], Dropped, InDrop, r)
    case Add(s, r) => Turn(if mode.InAdd? then [] else Closing(mode, n) + [Ins(n)], Inserted(s), InAdd, r)
    case Cut(r) => var t := Proc(Out, r, n); t.(out := Closing(mode, n) + t.out)
  }

  /** All verdicts up to and including the one on the current old line (or end of file). */
  function Settle(mode: Mode, sc: Script, n: nat): Turn
    decreases sc
  {
    match sc
    case Done => Turn(Closing(mode, n), Kept, Out, Done)
    case Keep(r) => Turn(Closing(mode, n), Kept, Out, r)
    case Drop(r) => Turn(if mode.InDrop? then [] else Closing(mode, n) + [Del(n)], Dropped, InDrop, r)
    case Add(s, r) =>
      var u := Settle(InAdd, r, n);
      u.(out := (if mode.InAdd? then [] else Closing(mode, n) + [Ins(n)]) + [Text(s)] + u.out)
    case Cut(r) => var u := Settle(Out, r, n); u.(out := Closing(mode, n) + u.out)
  }

  /** Settling is calling process() until it stops inserting. */
  lemma {:induction false} SettleIsRepeatedProc(mode: Mode, sc: Script, n: nat)
    ensures var t, u := Proc(mode, sc, n), Settle(mode, sc, n);
            if t.action.Inserted? then
              var w := Settle(t.mode, t.sc, n);
              u == Turn(t.out + [Text(t.action.s)] + w.out, w.action, w.mode, w.sc)
            else u == t
    decreases sc
  {
    if sc.Cut? {
      SettleIsRepeatedProc(Out, sc.rest, n);
      var t := Proc(Out, sc.rest, n);
      if t.action.Inserted? {
        var w := Settle(t.mode, t.sc, n);
        assert Closing(mode, n) + (t.out + [Text(t.action.s)] + w.out)
            == (Closing(mode, n) + t.out) + [Text(t.action.s)] + w.out;
      }
    }
  }
}
