/** What diff output means by itself: an applier that follows the line numbers of each change command
    ("Diff Default Output Format", STDOUT section of the diff utility page in POSIX.1-2017 XCU).  Exactly the
    outputs that it accepts are those that a list of hunks describes. */
module DiffFormat {
  import opened Basics
  import opened DiffScript
  import opened DiffCursor

  /** The leading `<` lines and what follows them. */
  function TakeOld(ds: seq<DiffLine>): (r: (seq<string>, seq<DiffLine>))
    ensures |r.0| + |r.1| == |ds|
  {
    if ds == [] || !ds[0].OldLine? then ([], ds)
    else
      var more := TakeOld(ds[1..]);
      ([ds[0].s] + more.0, more.1)
  }

  /** The leading `>` lines and what follows them. */
  function TakeNew(ds: seq<DiffLine>): (r: (seq<string>, seq<DiffLine>))
    ensures |r.0| + |r.1| == |ds|
  {
    if ds == [] || !ds[0].NewLine? then ([], ds)
    else
      var more := TakeNew(ds[1..]);
      ([ds[0].s] + more.0, more.1)
  }

  /** A range of k lines from `first` on is written `first` or `first,last`. */
  predicate IsRange(first: int, last: Option<int>, k: nat) {
    0 < k && (if k == 1 then last.None? else last == Some(first + k - 1))
  }

  /** A change: how many old and how many new lines come before it, the lines that go away and those that
      arrive, and the output that follows. */
  datatype Passage = Passage(oldBefore: int, olds: seq<string>, newBefore: int, news: seq<string>, rest: seq<DiffLine>)

  /** Reads the first change.
      `l1 a l3,l4`: the quoted lines, numbered l3 to l4 in the new text, go after old line l1.
      `l1,l2 d l3`: old lines l1 to l2 go away, after new line l3.
      `l1,l2 c l3,l4`: old lines l1 to l2 are replaced by new lines l3 to l4. */
  function ReadChange(ds: seq<DiffLine>): (r: Option<Passage>)
    ensures r.Some? ==> |r.value.rest| < |ds|
  {
    if ds == [] || !ds[0].Command? then None
    else
      var c := ds[0];
      if c.op == 'a' then
        var (news, rest) := TakeNew(ds[1..]);
        if c.l2.None? && IsRange(c.l3, c.l4, |news|) then Some(Passage(c.l1, [], c.l3 - 1, news, rest)) else None
      else if c.op == 'd' then
        var (olds, rest) := TakeOld(ds[1..]);
        if c.l4.None? && IsRange(c.l1, c.l2, |olds|) then Some(Passage(c.l1 - 1, olds, c.l3, [], rest)) else None
      else if c.op == 'c' then
        var (olds, more) := TakeOld(ds[1..]);
        if more == [] || more[0] != Divider then None
        else
          var (news, rest) := TakeNew(more[1..]);
          if IsRange(c.l1, c.l2, |olds|) && IsRange(c.l3, c.l4, |news|) then Some(Passage(c.l1 - 1, olds, c.l3 - 1, news, rest))
          else None
      else None
  }

  /** The change fits where `at` old lines have been dealt with and `made` new lines are there: it addresses
      lines that the old text has, quotes the ones that go away, and numbers the new ones as they fall. */
  predicate FitsAt(c: Passage, old_: seq<string>, at: nat, made: nat) {
    && at <= c.oldBefore && c.oldBefore + |c.olds| <= |old_|
    && old_[c.oldBefore..c.oldBefore + |c.olds|] == c.olds
    && c.newBefore == made + (c.oldBefore - at)
  }

  /** The text that the output makes of the old one, from that point on; none when something does not fit. */
  function Apply(ds: seq<DiffLine>, old_: seq<string>, at: nat, made: nat): Option<seq<string>>
    requires at <= |old_|
    decreases |ds|
  {
    if ds == [] then Some(old_[at..])
    else
      var r := ReadChange(ds);
      if r.None? || !FitsAt(r.value, old_, at, made) then None
      else
        var c := r.value;
        Onto(old_[at..c.oldBefore] + c.news, Apply(c.rest, old_, c.oldBefore + |c.olds|, c.newBefore + |c.news|))
  }

  function Onto(t: seq<string>, r: Option<seq<string>>): Option<seq<string>> {
    if r.None? then None else Some(t + r.value)
  }

  /** The new text that diff output makes of an old one. */
  function Applied(ds: seq<DiffLine>, old_: seq<string>): Option<seq<string>> {
    Apply(ds, old_, 0, 0)
  }

  // ---------------------------------------------------------------- quoted lines

  predicate NoQuote(ds: seq<DiffLine>) {
    ds == [] || (!ds[0].OldLine? && !ds[0].NewLine?)
  }

  lemma {:induction false} TakeOldLines(ls: seq<string>, rest: seq<DiffLine>)
    requires rest == [] || !rest[0].OldLine?
    ensures TakeOld(OldLines(ls, rest)) == (ls, rest)
  {
    if ls != [] {
      TakeOldLines(ls[1..], rest);
      assert OldLines(ls, rest)[1..] == OldLines(ls[1..], rest);
      assert [ls[0]] + ls[1..] == ls;
    }
  }

  lemma {:induction false} TakeNewLines(ls: seq<string>, rest: seq<DiffLine>)
    requires rest == [] || !rest[0].NewLine?
    ensures TakeNew(NewLines(ls, rest)) == (ls, rest)
  {
    if ls != [] {
      TakeNewLines(ls[1..], rest);
      assert NewLines(ls, rest)[1..] == NewLines(ls[1..], rest);
      assert [ls[0]] + ls[1..] == ls;
    }
  }

  lemma {:induction false} OldLinesTaken(ds: seq<DiffLine>)
    ensures var (ls, rest) := TakeOld(ds); ds == OldLines(ls, rest)
  {
    if ds != [] && ds[0].OldLine? {
      OldLinesTaken(ds[1..]);
      var more := TakeOld(ds[1..]);
      assert ([ds[0].s] + more.0)[1..] == more.0;
    }
  }

  lemma {:induction false} NewLinesTaken(ds: seq<DiffLine>)
    ensures var (ls, rest) := TakeNew(ds); ds == NewLines(ls, rest)
  {
    if ds != [] && ds[0].NewLine? {
      NewLinesTaken(ds[1..]);
      var more := TakeNew(ds[1..]);
      assert ([ds[0].s] + more.0)[1..] == more.0;
    }
  }

  lemma RenderStarts(hs: seq<Hunk>, i: nat, o: nat)
    ensures NoQuote(Render(hs, i, o))
  {
  }

  // ---------------------------------------------------------------- what hunks describe is accepted

  lemma ShiftMatches(hs: seq<Hunk>, old_: seq<string>, at: nat)
    requires at <= |old_| && hs != [] && Matches(hs, old_[at..])
    ensures var k, j := at + hs[0].keep, at + hs[0].keep + |hs[0].del|;
            && j <= |old_| && old_[k..j] == hs[0].del && Matches(hs[1..], old_[j..])
            && NewText(hs, old_[at..]) == old_[at..k] + hs[0].ins + NewText(hs[1..], old_[j..])
  {
    var k, j := at + hs[0].keep, at + hs[0].keep + |hs[0].del|;
    assert old_[at..][hs[0].keep..hs[0].keep + |hs[0].del|] == old_[k..j];
    assert old_[at..][hs[0].keep + |hs[0].del|..] == old_[j..];
    assert old_[at..][..hs[0].keep] == old_[at..k];
  }

  lemma ReadHunk(h: Hunk, k: nat, o: nat, rest: seq<DiffLine>)
    requires (h.del != [] || h.ins != []) && NoQuote(rest)
    ensures ReadChange([CommandFor(h, k, o)] + Lines(h, rest)) == Some(Passage(k, h.del, o, h.ins, rest))
  {
    var ds := [CommandFor(h, k, o)] + Lines(h, rest);
    assert ds[1..] == Lines(h, rest);
    if h.del == [] {
      TakeNewLines(h.ins, rest);
    } else {
      TakeOldLines(h.del, Divided(h.ins, rest));
      if h.ins != [] {
        TakeNewLines(h.ins, rest);
        assert Divided(h.ins, rest)[1..] == NewLines(h.ins, rest);
      }
    }
  }

  /** Diff output for a list of hunks, read by its numbers, makes exactly the text that the hunks describe. */
  lemma {:induction false} RenderApplies(hs: seq<Hunk>, old_: seq<string>, at: nat, made: nat)
    requires at <= |old_| && Proper(hs) && Matches(hs, old_[at..])
    ensures Apply(Render(hs, at, made), old_, at, made) == Some(NewText(hs, old_[at..]))
    decreases |hs|
  {
    hide ReadChange, Matches, NewText, CommandFor, Lines;
    if hs == [] {
      NoHunks(old_[at..]);
    } else {
      var h, j := hs[0], at + hs[0].keep + |hs[0].del|;
      var o := made + h.keep + |h.ins|;
      ShiftMatches(hs, old_, at);
      assert h.del != [] || h.ins != [];
      assert Proper(hs[1..]);
      RenderApplies(hs[1..], old_, j, o);
      RenderStarts(hs[1..], j, o);
      ReadHunk(h, at + h.keep, made + h.keep, Render(hs[1..], j, o));
    }
  }

  lemma NoHunks(t: seq<string>)
    ensures Matches([], t) && NewText([], t) == t
  {
  }

  // ---------------------------------------------------------------- what is accepted is described by hunks

  lemma HunkRead(ds: seq<DiffLine>, keep: nat)
    requires ReadChange(ds).Some?
    ensures var c := ReadChange(ds).value;
            && (c.olds != [] || c.news != [])
            && (0 <= c.oldBefore && 0 <= c.newBefore ==>
                  ds == [CommandFor(Hunk(keep, c.olds, c.news), c.oldBefore, c.newBefore)] + Lines(Hunk(keep, c.olds, c.news), c.rest))
  {
    assert ds == [ds[0]] + ds[1..];
    if ds[0].op == 'a' {
      NewLinesTaken(ds[1..]);
    } else {
      OldLinesTaken(ds[1..]);
      if ds[0].op == 'c' {
        var more := TakeOld(ds[1..]).1;
        NewLinesTaken(more[1..]);
        assert more == [Divider] + more[1..];
      }
    }
  }

  /** Whatever output is accepted is that of a list of hunks, which makes the same text. */
  lemma {:induction false} AppliesIsRender(ds: seq<DiffLine>, old_: seq<string>, at: nat, made: nat) returns (hs: seq<Hunk>)
    requires at <= |old_| && Apply(ds, old_, at, made).Some?
    ensures Proper(hs) && Matches(hs, old_[at..]) && ds == Render(hs, at, made)
    ensures Apply(ds, old_, at, made) == Some(NewText(hs, old_[at..]))
    decreases |ds|
  {
    hide ReadChange, NewText, Matches, CommandFor, Lines;
    hs := [];
    if ds == [] {
      NoHunks(old_[at..]);
    } else {
      var c := ReadChange(ds).value;
      var h := Hunk(c.oldBefore - at, c.olds, c.news);
      HunkRead(ds, h.keep);
      var j, o := c.oldBefore + |c.olds|, c.newBefore + |c.news|;
      var more := AppliesIsRender(c.rest, old_, j, o);
      hs := [h] + more;
      assert hs[1..] == more;
      MatchesMore(h, more, old_, at);
      ShiftMatches(hs, old_, at);
    }
  }

  lemma MatchesMore(h: Hunk, more: seq<Hunk>, old_: seq<string>, at: nat)
    requires at + h.keep + |h.del| <= |old_| && old_[at + h.keep..at + h.keep + |h.del|] == h.del
    requires Matches(more, old_[at + h.keep + |h.del|..])
    ensures Matches([h] + more, old_[at..])
  {
    assert ([h] + more)[1..] == more;
    assert old_[at..][h.keep..h.keep + |h.del|] == h.del;
    assert old_[at..][h.keep + |h.del|..] == old_[at + h.keep + |h.del|..];
  }

  // ---------------------------------------------------------------- counting quoted lines

  /** How many lines the output quotes as arriving. */
  function NewCount(ds: seq<DiffLine>): nat {
    if ds == [] then 0 else (if ds[0].NewLine? then 1 else 0) + NewCount(ds[1..])
  }

  /** How many lines the output quotes as going away. */
  function OldCount(ds: seq<DiffLine>): nat {
    if ds == [] then 0 else (if ds[0].OldLine? then 1 else 0) + OldCount(ds[1..])
  }

  lemma {:induction false} CountOldLines(ls: seq<string>, rest: seq<DiffLine>)
    ensures NewCount(OldLines(ls, rest)) == NewCount(rest) && OldCount(OldLines(ls, rest)) == |ls| + OldCount(rest)
  {
    if ls != [] {
      CountOldLines(ls[1..], rest);
      assert OldLines(ls, rest)[1..] == OldLines(ls[1..], rest);
    }
  }

  lemma {:induction false} CountNewLines(ls: seq<string>, rest: seq<DiffLine>)
    ensures NewCount(NewLines(ls, rest)) == |ls| + NewCount(rest) && OldCount(NewLines(ls, rest)) == OldCount(rest)
  {
    if ls != [] {
      CountNewLines(ls[1..], rest);
      assert NewLines(ls, rest)[1..] == NewLines(ls[1..], rest);
    }
  }

  lemma CountLines(h: Hunk, rest: seq<DiffLine>)
    ensures NewCount(Lines(h, rest)) == |h.ins| + NewCount(rest) && OldCount(Lines(h, rest)) == |h.del| + OldCount(rest)
  {
    CountNewLines(h.ins, rest);
    CountOldLines(h.del, Divided(h.ins, rest));
    if h.ins != [] {
      assert Divided(h.ins, rest)[1..] == NewLines(h.ins, rest);
    }
  }

  lemma {:induction false} TallyKeeps(k: nat, r: Script, m: nat)
    requires Fits(Keeps(k, r), m)
    ensures k <= m && Fits(r, m - k)
    ensures var c := Tally(r, m - k); Tally(Keeps(k, r), m) == c.(same := c.same + k)
    decreases k
  {
    if k > 0 {
      TallyKeeps(k - 1, r, m - 1);
    }
  }

  lemma {:induction false} TallyDrops(k: nat, r: Script, m: nat)
    requires Fits(Drops(k, r), m)
    ensures k <= m && Fits(r, m - k)
    ensures var c := Tally(r, m - k); Tally(Drops(k, r), m) == c.(deleted := c.deleted + k)
    decreases k
  {
    if k > 0 {
      TallyDrops(k - 1, r, m - 1);
    }
  }

  lemma {:induction false} TallyAdds(ls: seq<string>, r: Script, m: nat)
    requires Fits(Adds(ls, r), m)
    ensures Fits(r, m)
    ensures var c := Tally(r, m); Tally(Adds(ls, r), m) == c.(inserted := c.inserted + |ls|)
  {
    if ls != [] {
      TallyAdds(ls[1..], r, m);
    }
  }

  /** A check-in counts as inserted the lines that the output quotes with `>`, and as deleted those with `<`. */
  lemma {:induction false} TallyIsQuoted(hs: seq<Hunk>, i: nat, o: nat, m: nat)
    requires Fits(Compile(hs), m)
    ensures var c, ds := Tally(Compile(hs), m), Render(hs, i, o);
            c.inserted == NewCount(ds) && c.deleted == OldCount(ds)
    decreases |hs|
  {
    hide Keeps, Drops, Adds, Lines, CommandFor;
    if hs != [] {
      var h, r := hs[0], Compile(hs[1..]);
      TallyKeeps(h.keep, Change(h, r), m);
      TallyDrops(|h.del|, Adds(h.ins, Cut(r)), m - h.keep);
      TallyAdds(h.ins, Cut(r), m - h.keep - |h.del|);
      var i', o' := i + h.keep + |h.del|, o + h.keep + |h.ins|;
      TallyIsQuoted(hs[1..], i', o', m - h.keep - |h.del|);
      CountLines(h, Render(hs[1..], i', o'));
      CommandIsNoQuote(h, i + h.keep, o + h.keep);
      assert Render(hs, i, o)[1..] == Lines(h, Render(hs[1..], i', o'));
    }
  }

  lemma CommandIsNoQuote(h: Hunk, i: nat, o: nat)
    ensures CommandFor(h, i, o).Command?
  {
  }

  // ---------------------------------------------------------------- single changes

  /** The second number of a range is left out when it repeats the first. */
  function Last(first: int, last: int): Option<int> {
    if last == first then None else Some(last)
  }

  lemma OneChange(ds: seq<DiffLine>, old_: seq<string>, c: Passage)
    requires ReadChange(ds) == Some(c) && c.rest == [] && FitsAt(c, old_, 0, 0)
    ensures Applied(ds, old_) == Some(old_[..c.oldBefore] + c.news + old_[c.oldBefore + |c.olds|..])
  {
    hide ReadChange;
    var j, o := c.oldBefore + |c.olds|, c.newBefore + |c.news|;
    assert ds != [] by { ChangeIsThere(ds); }
    assert Apply(c.rest, old_, j, o) == Some(old_[j..]);
    assert old_[0..c.oldBefore] == old_[..c.oldBefore];
  }

  lemma ChangeIsThere(ds: seq<DiffLine>)
    requires ReadChange(ds).Some?
    ensures ds != []
  {
  }

  /** `l1 a l3,l4`: the new lines go after old line l1. */
  lemma AddedAfter(old_: seq<string>, l1: nat, news: seq<string>)
    requires l1 <= |old_| && news != []
    ensures var l3, l4 := l1 + 1, l1 + |news|;
            Applied([Command(l1, None, 'a', l3, Last(l3, l4))] + NewLines(news, []), old_) == Some(old_[..l1] + news + old_[l1..])
  {
    hide Apply, NewLines, OldLines, TakeNew, TakeOld;
    var ds := [Command(l1, None, 'a', l1 + 1, Last(l1 + 1, l1 + |news|))] + NewLines(news, []);
    assert ds[1..] == NewLines(news, []);
    TakeNewLines(news, []);
    assert old_[l1..l1] == [];
    OneChange(ds, old_, Passage(l1, [], l1, news, []));
  }

  /** `l1,l2 d l3`: old lines l1 to l2 go away. */
  lemma DeletedRange(old_: seq<string>, l1: nat, l2: nat)
    requires 1 <= l1 <= l2 <= |old_|
    ensures Applied([Command(l1, Last(l1, l2), 'd', l1 - 1, None)] + OldLines(old_[l1 - 1..l2], []), old_)
         == Some(old_[..l1 - 1] + old_[l2..])
  {
    hide Apply, NewLines, OldLines, TakeNew, TakeOld;
    var olds := old_[l1 - 1..l2];
    var ds := [Command(l1, Last(l1, l2), 'd', l1 - 1, None)] + OldLines(olds, []);
    assert ds[1..] == OldLines(olds, []);
    TakeOldLines(olds, []);
    OneChange(ds, old_, Passage(l1 - 1, olds, l1 - 1, [], []));
    assert old_[..l1 - 1] + [] == old_[..l1 - 1];
  }

  /** `l1,l2 c l3,l4`: old lines l1 to l2 are replaced by new lines l3 to l4. */
  lemma ChangedRange(old_: seq<string>, l1: nat, l2: nat, news: seq<string>)
    requires 1 <= l1 <= l2 <= |old_| && news != []
    ensures var l4 := l1 - 1 + |news|;
            Applied([Command(l1, Last(l1, l2), 'c', l1, Last(l1, l4))] + OldLines(old_[l1 - 1..l2], [Divider] + NewLines(news, [])), old_)
            == Some(old_[..l1 - 1] + news + old_[l2..])
  {
    hide Apply, NewLines, OldLines, TakeNew, TakeOld;
    var olds, more := old_[l1 - 1..l2], [Divider] + NewLines(news, []);
    var ds := [Command(l1, Last(l1, l2), 'c', l1, Last(l1, l1 - 1 + |news|))] + OldLines(olds, more);
    assert ds[1..] == OldLines(olds, more) && more[1..] == NewLines(news, []);
    TakeOldLines(olds, more);
    TakeNewLines(news, []);
    OneChange(ds, old_, Passage(l1 - 1, olds, l1 - 1, news, []));
  }
}
