/** Checking a version in: merging a diff into the body under a fresh sequence number. */
module CheckIn {
  import opened Basics
  import opened Weave
  import opened DiffScript

  /** The new body.  Control lines and lines that the selection cannot see are copied; before
      each visible line, and once more at end of file, the script is settled. */
  ghost function WeaveIn(body: seq<Line>, b: Blocks, mode: Mode, sc: Script, sel: set<nat>, n: nat): seq<Line>
    decreases |body|
  {
    if body == [] then Settle(mode, sc, n).out
    else if body[0].Text? && Visible(b, sel) then
      var t := Settle(mode, sc, n);
      t.out + ([body[0]] + WeaveIn(body[1..], b, t.mode, t.sc, sel, n))
    else
      [body[0]] + WeaveIn(body[1..], Step(b, body[0]), mode, sc, sel, n)
  }

  /** The body written for delta n, checked in over the version that `sel` sees. */
  ghost function Woven(body: seq<Line>, hs: seq<Hunk>, sel: set<nat>, n: nat): seq<Line> {
    WeaveIn(body, NONE_OPEN, Out, Compile(hs), sel, n)
  }

  /** The number n is larger than everything in the body and outside the selection. */
  ghost predicate Fresh(n: nat, body: seq<Line>, sel: set<nat>) {
    && 0 < n && n !in sel
    && forall k :: k in Numbers(body) ==> 0 < k < n
  }

  /** The open blocks of the new body, given those of the old one. */
  function With(b: Blocks, mode: Mode, n: nat): Blocks {
    match mode
    case Out => b
    case InDrop => b.(del := b.del + {n})
    case InAdd => b.(ins := b.ins + {n})
  }

  /** The lines that the script inserts before the current old line. */
  function Pending(sc: Script, n: nat): seq<Owned> {
    match sc
    case Add(s, r) => [Owned(n, s)] + Pending(r, n)
    case Cut(r) => Pending(r, n)
    case _ => []
  }

  // ---------------------------------------------------------------- one line at a time

  lemma Peel(l: Line, rest: seq<Line>, b: Blocks, sel: set<nat>)
    ensures StepAll(b, [l] + rest) == StepAll(Step(b, l), rest)
    ensures LegalAll([l] + rest, b) <==> Legal(l, b) && LegalAll(rest, Step(b, l))
    ensures View([l] + rest, b, sel)
         == (if l.Text? && Visible(b, sel) then [Owned(Top(b.ins), l.s)] else []) + View(rest, Step(b, l), sel)
  {
    assert ([l] + rest)[1..] == rest;
  }

  lemma FreshTail(n: nat, body: seq<Line>, sel: set<nat>, b: Blocks)
    requires body != [] && Fresh(n, body, sel) && Below(b, n)
    ensures Fresh(n, body[1..], sel) && Below(Step(b, body[0]), n)
    ensures body[0].Text? || 0 < body[0].n < n
  {
    assert Numbers(body[1..]) <= Numbers(body);
    assert !body[0].Text? ==> body[0].n in Numbers(body);
  }

  /** Outside the blocks of n the new version sees what the old one saw; inside `^AD n` nothing. */
  lemma VisibleWith(b: Blocks, mode: Mode, sel: set<nat>, n: nat)
    requires Below(b, n) && n !in sel && 0 < n
    ensures mode.Out? ==> (Visible(With(b, mode, n), sel + {n}) <==> Visible(b, sel))
    ensures mode.InDrop? ==> !Visible(With(b, mode, n), sel + {n})
    ensures mode.InAdd? ==> Visible(With(b, mode, n), sel + {n}) && Top(With(b, mode, n).ins) == n
  {
    if mode.InDrop? {
      assert n in With(b, mode, n).del;
    }
  }

  // ---------------------------------------------------------------- what settling writes

  function Opening(mode: Mode, n: nat, l: Line): seq<Line> {
    Closing(mode, n) + [l]
  }

  lemma ClosingReads(mode: Mode, b: Blocks, rest: seq<Line>, sel: set<nat>, n: nat)
    requires Below(b, n) && 0 < n
    ensures StepAll(With(b, mode, n), Closing(mode, n) + rest) == StepAll(b, rest)
    ensures LegalAll(Closing(mode, n) + rest, With(b, mode, n)) <==> LegalAll(rest, b)
    ensures View(Closing(mode, n) + rest, With(b, mode, n), sel) == View(rest, b, sel)
  {
    assert [] + rest == rest;
    if !mode.Out? {
      Peel(End(n), rest, With(b, mode, n), sel);
      assert Step(With(b, mode, n), End(n)) == b;
    }
  }

  /** Closing the open block of n, if any, and opening another one. */
  lemma OpeningReads(mode: Mode, mode': Mode, l: Line, b: Blocks, rest: seq<Line>, sel: set<nat>, n: nat)
    requires Below(b, n) && 0 < n
    requires (l == Ins(n) && mode'.InAdd?) || (l == Del(n) && mode'.InDrop?)
    ensures StepAll(With(b, mode, n), Opening(mode, n, l) + rest) == StepAll(With(b, mode', n), rest)
    ensures LegalAll(Opening(mode, n, l) + rest, With(b, mode, n)) <==> LegalAll(rest, With(b, mode', n))
    ensures View(Opening(mode, n, l) + rest, With(b, mode, n), sel) == View(rest, With(b, mode', n), sel)
  {
    assert Opening(mode, n, l) + rest == Closing(mode, n) + ([l] + rest);
    ClosingReads(mode, b, [l] + rest, sel, n);
    Peel(l, rest, b, sel);
  }

  /** One inserted line, with its block opened if need be. */
  lemma AddReads(mode: Mode, s: string, rest: seq<Line>, b: Blocks, sel: set<nat>, n: nat)
    requires Below(b, n) && 0 < n && n !in sel
    ensures var out := (if mode.InAdd? then [] else Opening(mode, n, Ins(n))) + [Text(s)] + rest;
            && StepAll(With(b, mode, n), out) == StepAll(With(b, InAdd, n), rest)
            && (LegalAll(out, With(b, mode, n)) <==> LegalAll(rest, With(b, InAdd, n)))
            && View(out, With(b, mode, n), sel + {n}) == [Owned(n, s)] + View(rest, With(b, InAdd, n), sel + {n})
  {
    VisibleWith(b, InAdd, sel, n);
    Peel(Text(s), rest, With(b, InAdd, n), sel + {n});
    if mode.InAdd? {
      assert [] + [Text(s)] + rest == [Text(s)] + rest;
    } else {
      ConcatAssoc(Opening(mode, n, Ins(n)), [Text(s)], rest);
      OpeningReads(mode, InAdd, Ins(n), b, [Text(s)] + rest, sel + {n}, n);
    }
  }

  /** Settling writes legal lines that show exactly the pending insertions. */
  lemma {:induction false} SettleReads(mode: Mode, sc: Script, b: Blocks, sel: set<nat>, n: nat)
    requires Below(b, n) && 0 < n && n !in sel
    ensures var t := Settle(mode, sc, n);
            && t.mode == (if t.action.Dropped? then InDrop else Out)
            && !t.action.Inserted?
            && StepAll(With(b, mode, n), t.out) == With(b, t.mode, n)
            && LegalAll(t.out, With(b, mode, n))
            && View(t.out, With(b, mode, n), sel + {n}) == Pending(sc, n)
    decreases sc
  {
    var t := Settle(mode, sc, n);
    assert t.out + [] == t.out;
    match sc
    case Done => ClosingReads(mode, b, [], sel + {n}, n);
    case Keep(_) => ClosingReads(mode, b, [], sel + {n}, n);
    case Drop(_) =>
      if !mode.InDrop? {
        OpeningReads(mode, InDrop, Del(n), b, [], sel + {n}, n);
      }
    case Add(s, r) =>
      SettleReads(InAdd, r, b, sel, n);
      AddReads(mode, s, Settle(InAdd, r, n).out, b, sel, n);
    case Cut(r) =>
      SettleReads(Out, r, b, sel, n);
      ClosingReads(mode, b, Settle(Out, r, n).out, sel + {n}, n);
  }

  // ---------------------------------------------------------------- what settling consumes

  lemma {:induction false} SettlePatch(mode: Mode, sc: Script, x: Owned, v: seq<Owned>, n: nat)
    requires Fits(sc, |v| + 1)
    ensures var t := Settle(mode, sc, n);
            && Fits(t.sc, |v|)
            && Patch([x] + v, sc, n)
               == Pending(sc, n) + ((if t.action.Dropped? then [] else [x]) + Patch(v, t.sc, n))
    decreases sc
  {
    assert ([x] + v)[1..] == v;
    match sc
    case Add(s, r) =>
      var t := Settle(InAdd, r, n);
      SettlePatch(InAdd, r, x, v, n);
      ConcatAssoc([Owned(n, s)], Pending(r, n), (if t.action.Dropped? then [] else [x]) + Patch(v, t.sc, n));
    case Cut(r) => SettlePatch(Out, r, x, v, n);
    case Done => assert Patch(v, Done, n) == v;
    case _ =>
  }

  lemma {:induction false} SettleAtEnd(mode: Mode, sc: Script, n: nat)
    requires Fits(sc, 0)
    ensures Patch([], sc, n) == Pending(sc, n)
    ensures Settle(mode, sc, n).action.Kept?
    decreases sc
  {
    match sc
    case Add(_, r) => SettleAtEnd(InAdd, r, n);
    case Cut(r) => SettleAtEnd(Out, r, n);
    case _ =>
  }

  // ---------------------------------------------------------------- check-in correctness

  /** The new version, and who owns its lines. */
  lemma {:induction false} WeaveInView(body: seq<Line>, b: Blocks, mode: Mode, sc: Script, sel: set<nat>, n: nat)
    requires Fresh(n, body, sel) && Below(b, n) && !mode.InAdd?
    requires Fits(sc, |View(body, b, sel)|)
    ensures View(WeaveIn(body, b, mode, sc, sel, n), With(b, mode, n), sel + {n})
         == Patch(View(body, b, sel), sc, n)
    decreases |body|
  {
    SettleReads(mode, sc, b, sel, n);
    if body == [] {
      SettleAtEnd(mode, sc, n);
    } else {
      FreshTail(n, body, sel, b);
      VisibleWith(b, mode, sel, n);
      if body[0].Text? && Visible(b, sel) {
        WeaveInViewVisible(body, b, mode, sc, sel, n);
      } else {
        var b' := Step(b, body[0]);
        WeaveInView(body[1..], b', mode, sc, sel, n);
        Peel(body[0], WeaveIn(body[1..], b', mode, sc, sel, n), With(b, mode, n), sel + {n});
        StepWith(body[0], b, mode, n);
      }
    }
  }

  lemma StepWith(l: Line, b: Blocks, mode: Mode, n: nat)
    requires l.Text? || l.n != n
    ensures Step(With(b, mode, n), l) == With(Step(b, l), mode, n)
  {
  }

  lemma {:induction false} WeaveInViewVisible(body: seq<Line>, b: Blocks, mode: Mode, sc: Script, sel: set<nat>, n: nat)
    requires Fresh(n, body, sel) && Below(b, n) && !mode.InAdd?
    requires Fits(sc, |View(body, b, sel)|)
    requires body != [] && body[0].Text? && Visible(b, sel)
    ensures View(WeaveIn(body, b, mode, sc, sel, n), With(b, mode, n), sel + {n})
         == Patch(View(body, b, sel), sc, n)
    decreases |body|, 0
  {
    var v, x := View(body[1..], b, sel), Owned(Top(b.ins), body[0].s);
    var t := Settle(mode, sc, n);
    FreshTail(n, body, sel, b);
    SettleReads(mode, sc, b, sel, n);
    SettlePatch(mode, sc, x, v, n);
    WeaveInView(body[1..], b, t.mode, t.sc, sel, n);
    VisibleWith(b, t.mode, sel, n);
    var rest := WeaveIn(body[1..], b, t.mode, t.sc, sel, n);
    ViewConcat(t.out, [body[0]] + rest, With(b, mode, n), sel + {n});
    Peel(body[0], rest, With(b, t.mode, n), sel + {n});
  }

  // ---------------------------------------------------------------- the weave invariant

  lemma {:induction false} SettleEnds(mode: Mode, sc: Script, m: nat, n: nat)
    ensures var t := Settle(mode, sc, n);
            && (t.action.Dropped? <==> EndsOpen(sc, 0))
            && (EndsOpen(t.sc, m) <==> EndsOpen(sc, m + 1))
    decreases sc
  {
    match sc
    case Add(_, r) => SettleEnds(InAdd, r, m, n);
    case Cut(r) => SettleEnds(Out, r, m, n);
    case _ =>
  }

  /** Whatever the script, the new body obeys the weave discipline; the blocks open at its end are those
      of the old body, and `^AD n` if the script goes on to delete past the last old line. */
  lemma {:induction false} WeaveInBlocks(body: seq<Line>, b: Blocks, mode: Mode, sc: Script, sel: set<nat>, n: nat)
    requires Fresh(n, body, sel) && Below(b, n) && !mode.InAdd?
    requires LegalAll(body, b)
    ensures LegalAll(WeaveIn(body, b, mode, sc, sel, n), With(b, mode, n))
    ensures StepAll(With(b, mode, n), WeaveIn(body, b, mode, sc, sel, n))
         == With(StepAll(b, body), if EndsOpen(sc, |View(body, b, sel)|) then InDrop else Out, n)
    decreases |body|
  {
    hide Settle, EndsOpen, Top, Visible;
    SettleReads(mode, sc, b, sel, n);
    if body == [] {
      SettleEnds(mode, sc, 0, n);
    } else {
      FreshTail(n, body, sel, b);
      var b' := Step(b, body[0]);
      StepWith(body[0], b, mode, n);
      if body[0].Text? && Visible(b, sel) {
        var t := Settle(mode, sc, n);
        SettleEnds(mode, sc, |View(body[1..], b, sel)|, n);
        WeaveInBlocks(body[1..], b, t.mode, t.sc, sel, n);
        var rest := WeaveIn(body[1..], b, t.mode, t.sc, sel, n);
        LegalConcat(t.out, [body[0]] + rest, With(b, mode, n));
        StepAllConcat(With(b, mode, n), t.out, [body[0]] + rest);
        Peel(body[0], rest, With(b, t.mode, n), sel);
      } else {
        WeaveInBlocks(body[1..], b', mode, sc, sel, n);
        Peel(body[0], WeaveIn(body[1..], b', mode, sc, sel, n), With(b, mode, n), sel);
        LegalWith(body[0], b, mode, n);
      }
    }
  }

  /** The new body obeys the weave discipline and leaves the same blocks open. */
  lemma {:induction false} WeaveInLegal(body: seq<Line>, b: Blocks, mode: Mode, sc: Script, sel: set<nat>, n: nat)
    requires Fresh(n, body, sel) && Below(b, n) && !mode.InAdd?
    requires LegalAll(body, b)
    requires Fits(sc, |View(body, b, sel)|)
    ensures LegalAll(WeaveIn(body, b, mode, sc, sel, n), With(b, mode, n))
    ensures StepAll(With(b, mode, n), WeaveIn(body, b, mode, sc, sel, n)) == StepAll(b, body)
  {
    FittingEndsClosed(sc, |View(body, b, sel)|);
    WeaveInBlocks(body, b, mode, sc, sel, n);
  }

  /** For any script at all, well-formed goes in and comes out exactly when the script does not go on to
      delete past the end of the old text. */
  lemma WellFormedIffClosed(body: seq<Line>, sc: Script, sel: set<nat>, n: nat)
    requires WellFormed(body) && Fresh(n, body, sel)
    ensures LegalAll(WeaveIn(body, NONE_OPEN, Out, sc, sel, n), NONE_OPEN)
    ensures WellFormed(WeaveIn(body, NONE_OPEN, Out, sc, sel, n)) <==> !EndsOpen(sc, |View(body, NONE_OPEN, sel)|)
  {
    WeaveInBlocks(body, NONE_OPEN, Out, sc, sel, n);
    assert n in With(NONE_OPEN, InDrop, n).del;
  }

  /** A diff that deletes two lines of a text that has one leaves `^AD 2` open at the end. */
  lemma OverlongDiffLeavesBlockOpen(s: string)
    ensures var body, sc := [Ins(1), Text(s), End(1)], Drop(Drop(Done));
            && WellFormed(body) && View(body, NONE_OPEN, {1}) == [Owned(1, s)]
            && !WellFormed(WeaveIn(body, NONE_OPEN, Out, sc, {1}, 2))
  {
    var body, b := [Ins(1), Text(s), End(1)], Blocks({1}, {});
    var text, end := [Text(s), End(1)], [End(1)];
    assert body[1..] == text && text[1..] == end && end[1..] == [];
    assert Step(NONE_OPEN, Ins(1)) == b && Step(b, End(1)) == NONE_OPEN;
    assert Top({}) == 0 && Top({1}) == 1;
    assert Numbers(end) == {1} && Numbers(text) == {1} && Numbers(body) == {1};
    assert StepAll(b, end) == StepAll(NONE_OPEN, []);
    assert View(text, b, {1}) == [Owned(1, s)] + View(end, b, {1});
    WellFormedIffClosed(body, Drop(Drop(Done)), {1}, 2);
  }

  lemma LegalWith(l: Line, b: Blocks, mode: Mode, n: nat)
    requires Legal(l, b) && !mode.InAdd? && (l.Text? || l.n != n)
    ensures Legal(l, With(b, mode, n))
  {
  }

  lemma OpeningNumbers(mode: Mode, n: nat, l: Line)
    requires l == Ins(n) || l == Del(n)
    ensures Numbers(Closing(mode, n)) <= {n} && Numbers(Opening(mode, n, l)) <= {n}
  {
    NumbersConcat(Closing(mode, n), [l]);
    assert Numbers([l]) == {n} && Numbers([End(n)]) == {n};
  }

  lemma {:induction false} SettleNumbers(mode: Mode, sc: Script, n: nat)
    ensures Numbers(Settle(mode, sc, n).out) <= {n}
    decreases sc
  {
    OpeningNumbers(mode, n, Ins(n));
    OpeningNumbers(mode, n, Del(n));
    match sc
    case Add(s, r) =>
      var u := Settle(InAdd, r, n);
      SettleNumbers(InAdd, r, n);
      var open := if mode.InAdd? then [] else Opening(mode, n, Ins(n));
      NumbersConcat(open + [Text(s)], u.out);
      NumbersConcat(open, [Text(s)]);
    case Cut(r) =>
      SettleNumbers(Out, r, n);
      NumbersConcat(Closing(mode, n), Settle(Out, r, n).out);
    case _ =>
  }

  /** No numbers other than n are added, none is lost. */
  lemma {:induction false} WeaveInNumbers(body: seq<Line>, b: Blocks, mode: Mode, sc: Script, sel: set<nat>, n: nat)
    ensures Numbers(body) <= Numbers(WeaveIn(body, b, mode, sc, sel, n)) <= Numbers(body) + {n}
    decreases |body|
  {
    SettleNumbers(mode, sc, n);
    if body != [] {
      if body[0].Text? && Visible(b, sel) {
        var t := Settle(mode, sc, n);
        var rest := WeaveIn(body[1..], b, t.mode, t.sc, sel, n);
        WeaveInNumbers(body[1..], b, t.mode, t.sc, sel, n);
        NumbersConcat(t.out, [body[0]] + rest);
        NumbersConcat([body[0]], rest);
      } else {
        var rest := WeaveIn(body[1..], Step(b, body[0]), mode, sc, sel, n);
        WeaveInNumbers(body[1..], Step(b, body[0]), mode, sc, sel, n);
        NumbersConcat([body[0]], rest);
      }
    }
  }
}
