/** Cutting a delta back out of the body. */
module Removal {
  import opened Basics
  import opened Weave
  import opened DiffScript
  import opened CheckIn

  datatype UpdateState = COPYING | DELETING | INSERTING

  datatype Outcome = Removed(body: seq<Line>) | UnexpectedControl | NonTerminal | UnexpectedEof {
    /** The outcome for a body that starts with one more copied line. */
    function Copying(l: Line): Outcome {
      if Removed? then Removed([l] + body) else this
    }
  }

  /** What a scan that is in state `st` makes of the rest of the body. */
  function Remove(body: seq<Line>, st: UpdateState, n: nat): Outcome {
    if body == [] then
      if st.COPYING? then Removed([]) else UnexpectedEof
    else match body[0]
      case Text(_) => if st.INSERTING? then Remove(body[1..], st, n) else Remove(body[1..], st, n).Copying(body[0])
      case Ins(k) =>
        if k == n then (if st.COPYING? then Remove(body[1..], INSERTING, n) else UnexpectedControl)
        else if st.INSERTING? then NonTerminal else Remove(body[1..], st, n).Copying(body[0])
      case Del(k) =>
        if k == n then (if st.COPYING? then Remove(body[1..], DELETING, n) else UnexpectedControl)
        else if st.INSERTING? then NonTerminal else Remove(body[1..], st, n).Copying(body[0])
      case End(k) =>
        if k == n then (if st.COPYING? then UnexpectedControl else Remove(body[1..], COPYING, n))
        else if st.INSERTING? then NonTerminal else Remove(body[1..], st, n).Copying(body[0])
  }

  // ---------------------------------------------------------------- exact undo

  function StateFor(mode: Mode): UpdateState {
    match mode
    case Out => COPYING
    case InDrop => DELETING
    case InAdd => INSERTING
  }

  lemma RemoveCons(l: Line, rest: seq<Line>, st: UpdateState, n: nat)
    ensures l.Text? && st.INSERTING? ==> Remove([l] + rest, st, n) == Remove(rest, st, n)
    ensures l.Text? && !st.INSERTING? ==> Remove([l] + rest, st, n) == Remove(rest, st, n).Copying(l)
    ensures l == Ins(n) && st.COPYING? ==> Remove([l] + rest, st, n) == Remove(rest, INSERTING, n)
    ensures l == Del(n) && st.COPYING? ==> Remove([l] + rest, st, n) == Remove(rest, DELETING, n)
    ensures l == End(n) && !st.COPYING? ==> Remove([l] + rest, st, n) == Remove(rest, COPYING, n)
    ensures !l.Text? && l.n != n && !st.INSERTING? ==> Remove([l] + rest, st, n) == Remove(rest, st, n).Copying(l)
  {
    assert ([l] + rest)[1..] == rest;
  }

  lemma ClosingRemoved(mode: Mode, rest: seq<Line>, n: nat)
    ensures Remove(Closing(mode, n) + rest, StateFor(mode), n) == Remove(rest, COPYING, n)
  {
    assert [] + rest == rest;
    RemoveCons(End(n), rest, StateFor(mode), n);
  }

  lemma OpeningRemoved(mode: Mode, l: Line, rest: seq<Line>, n: nat)
    requires l == Ins(n) || l == Del(n)
    ensures Remove(Opening(mode, n, l) + rest, StateFor(mode), n)
         == Remove(rest, if l.Ins? then INSERTING else DELETING, n)
  {
    assert Opening(mode, n, l) + rest == Closing(mode, n) + ([l] + rest);
    ClosingRemoved(mode, [l] + rest, n);
    RemoveCons(l, rest, COPYING, n);
  }

  lemma AddRemoved(mode: Mode, s: string, out: seq<Line>, rest: seq<Line>, n: nat)
    ensures Remove((if mode.InAdd? then [] else Opening(mode, n, Ins(n))) + [Text(s)] + out + rest, StateFor(mode), n)
         == Remove(out + rest, INSERTING, n)
  {
    var open := if mode.InAdd? then [] else Opening(mode, n, Ins(n));
    ConcatAssoc(open + [Text(s)], out, rest);
    ConcatAssoc(open, [Text(s)], out + rest);
    RemoveCons(Text(s), out + rest, INSERTING, n);
    if mode.InAdd? {
      assert open + [Text(s)] == [Text(s)];
    } else {
      OpeningRemoved(mode, Ins(n), [Text(s)] + (out + rest), n);
    }
  }

  /** Everything that settling writes disappears again. */
  lemma {:induction false} SettleRemoved(mode: Mode, sc: Script, rest: seq<Line>, n: nat)
    ensures var t := Settle(mode, sc, n);
            Remove(t.out + rest, StateFor(mode), n) == Remove(rest, StateFor(t.mode), n)
    decreases sc
  {
    var t := Settle(mode, sc, n);
    assert [] + rest == rest;
    match sc
    case Done => ClosingRemoved(mode, rest, n);
    case Keep(_) => ClosingRemoved(mode, rest, n);
    case Drop(_) =>
      if !mode.InDrop? {
        OpeningRemoved(mode, Del(n), rest, n);
      }
    case Add(s, r) =>
      SettleRemoved(InAdd, r, rest, n);
      AddRemoved(mode, s, Settle(InAdd, r, n).out, rest, n);
    case Cut(r) =>
      var u := Settle(Out, r, n);
      SettleRemoved(Out, r, rest, n);
      ConcatAssoc(Closing(mode, n), u.out, rest);
      ClosingRemoved(mode, u.out + rest, n);
  }

  /** Removing n from the body written for n gives back the old body, line for line. */
  lemma {:induction false} RemoveUndoesWeaveIn(body: seq<Line>, b: Blocks, mode: Mode, sc: Script, sel: set<nat>, n: nat)
    requires n !in Numbers(body) && !mode.InAdd?
    requires Fits(sc, |View(body, b, sel)|)
    ensures Remove(WeaveIn(body, b, mode, sc, sel, n), StateFor(mode), n) == Removed(body)
    decreases |body|
  {
    var t := Settle(mode, sc, n);
    SettleModes(mode, sc, n);
    if body == [] {
      SettleAtEnd(mode, sc, n);
      SettleRemoved(mode, sc, [], n);
      assert t.out + [] == t.out;
    } else {
      assert !body[0].Text? ==> body[0].n in Numbers(body);
      assert Numbers(body[1..]) <= Numbers(body);
      assert [body[0]] + body[1..] == body;
      if body[0].Text? && Visible(b, sel) {
        SettlePatch(mode, sc, Owned(Top(b.ins), body[0].s), View(body[1..], b, sel), n);
        var rest := WeaveIn(body[1..], b, t.mode, t.sc, sel, n);
        RemoveUndoesWeaveIn(body[1..], b, t.mode, t.sc, sel, n);
        SettleRemoved(mode, sc, [body[0]] + rest, n);
        RemoveCons(body[0], rest, StateFor(t.mode), n);
      } else {
        var b' := Step(b, body[0]);
        RemoveUndoesWeaveIn(body[1..], b', mode, sc, sel, n);
        RemoveCons(body[0], WeaveIn(body[1..], b', mode, sc, sel, n), StateFor(mode), n);
      }
    }
  }

  lemma {:induction false} SettleModes(mode: Mode, sc: Script, n: nat)
    ensures var t := Settle(mode, sc, n); t.mode == (if t.action.Dropped? then InDrop else Out) && !t.action.Inserted?
    decreases sc
  {
    match sc
    case Add(_, r) => SettleModes(InAdd, r, n);
    case Cut(r) => SettleModes(Out, r, n);
    case _ =>
  }

  // ---------------------------------------------------------------- removal from any weave

  /** No other delta has a control line inside an insert block of n. */
  predicate Terminal(body: seq<Line>, b: Blocks, n: nat) {
    body != [] ==>
      && (n in b.ins && !body[0].Text? ==> body[0].n == n)
      && Terminal(body[1..], Step(b, body[0]), n)
  }

  function Without(b: Blocks, n: nat): Blocks {
    Blocks(b.ins - {n}, b.del - {n})
  }

  /** The scan state that belongs to the open blocks. */
  ghost predicate Agrees(st: UpdateState, b: Blocks, n: nat) {
    match st
    case COPYING => n !in b.ins && n !in b.del
    case DELETING => n !in b.ins && n in b.del
    case INSERTING => n in b.ins && n !in b.del && Top(b.ins) == n
  }

  /** On a legal body, removal succeeds exactly when n is terminal; the only failure is "non-terminal". */
  lemma {:induction false} RemoveSucceedsIffTerminal(body: seq<Line>, b: Blocks, st: UpdateState, n: nat)
    requires LegalAll(body, b) && Agrees(st, b, n)
    requires n !in StepAll(b, body).ins && n !in StepAll(b, body).del
    ensures Remove(body, st, n).Removed? <==> Terminal(body, b, n)
    ensures Remove(body, st, n).Removed? || Remove(body, st, n).NonTerminal?
  {
    if body != [] {
      var b' := Step(b, body[0]);
      match body[0]
      case Text(_) => RemoveSucceedsIffTerminal(body[1..], b', st, n);
      case Ins(k) =>
        if k == n {
          RemoveSucceedsIffTerminal(body[1..], b', INSERTING, n);
        } else if !st.INSERTING? {
          RemoveSucceedsIffTerminal(body[1..], b', st, n);
        }
      case Del(k) =>
        if k == n {
          RemoveSucceedsIffTerminal(body[1..], b', DELETING, n);
        } else if !st.INSERTING? {
          RemoveSucceedsIffTerminal(body[1..], b', st, n);
        }
      case End(k) =>
        if k == n {
          RemoveSucceedsIffTerminal(body[1..], b', COPYING, n);
        } else if !st.INSERTING? {
          RemoveSucceedsIffTerminal(body[1..], b', st, n);
        }
    }
  }

  /** How many lines start or end a block of n. */
  function Starts(body: seq<Line>, n: nat): nat {
    if body == [] then 0 else (if body[0] == Ins(n) || body[0] == Del(n) then 1 else 0) + Starts(body[1..], n)
  }

  function Ends(body: seq<Line>, n: nat): nat {
    if body == [] then 0 else (if body[0] == End(n) then 1 else 0) + Ends(body[1..], n)
  }

  /** The lines of a body that are no control lines of n. */
  function Remainder(body: seq<Line>, n: nat): seq<Line> {
    if body == [] then []
    else if !body[0].Text? && body[0].n == n then Remainder(body[1..], n) else [body[0]] + Remainder(body[1..], n)
  }

  /** On any body, well-formed or not: removal succeeds only if every start of n has its end; what is left has no
      control line of n; and if n inserts nothing, exactly its control lines are gone. */
  lemma {:induction false} RemoveOnAnyBody(body: seq<Line>, st: UpdateState, n: nat)
    requires Remove(body, st, n).Removed?
    ensures Ends(body, n) == Starts(body, n) + if st.COPYING? then 0 else 1
    ensures n !in Numbers(Remove(body, st, n).body)
    ensures Ins(n) !in body && !st.INSERTING? ==> Remove(body, st, n).body == Remainder(body, n)
  {
    if body != [] {
      var st' := NextState(st, body[0], n);
      assert Remove(body[1..], st', n).Removed?;
      RemoveOnAnyBody(body[1..], st', n);
      var r := Remove(body[1..], st', n).body;
      assert ([body[0]] + r)[1..] == r;
      assert body == [body[0]] + body[1..];
    }
  }

  /** The errors: a block of n still open at the end, a start inside a block of n, an end outside one. */
  lemma RemoveErrors(rest: seq<Line>, st: UpdateState, n: nat)
    ensures Remove([], DELETING, n) == UnexpectedEof && Remove([], INSERTING, n) == UnexpectedEof && Remove([], COPYING, n) == Removed([])
    ensures Remove([End(n)] + rest, COPYING, n) == UnexpectedControl
    ensures !st.COPYING? ==> Remove([Ins(n)] + rest, st, n) == UnexpectedControl && Remove([Del(n)] + rest, st, n) == UnexpectedControl
    ensures forall l: Line :: !l.Text? && l.n != n ==> Remove([l] + rest, INSERTING, n) == NonTerminal
  {
  }

  lemma VisibleWithout(b: Blocks, n: nat, sel: set<nat>)
    requires n !in sel
    requires n in b.ins ==> Top(b.ins) == n
    ensures n in b.ins ==> !Visible(b, sel)
    ensures n !in b.ins ==> (Visible(b, sel) <==> Visible(Without(b, n), sel)) && Top(Without(b, n).ins) == Top(b.ins)
  {
    if n !in b.ins {
      assert Without(b, n).ins == b.ins;
    }
  }

  lemma LegalWithout(l: Line, b: Blocks, n: nat)
    requires Legal(l, b) && !l.Text? && l.n != n
    ensures Legal(l, Without(b, n))
    ensures Step(Without(b, n), l) == Without(Step(b, l), n)
  {
    var rest := b.ins - {n};
    assert rest == {} || Top(rest) in b.ins;
    assert l.End? && l.n in b.ins ==> l.n in rest;
  }

  /** The scan state after one line. */
  function NextState(st: UpdateState, l: Line, n: nat): UpdateState {
    match l
    case Text(_) => st
    case Ins(k) => if k == n then INSERTING else st
    case Del(k) => if k == n then DELETING else st
    case End(k) => if k == n then COPYING else st
  }

  lemma RemoveStep(body: seq<Line>, b: Blocks, st: UpdateState, n: nat)
    requires body != [] && LegalAll(body, b) && Agrees(st, b, n)
    requires Remove(body, st, n).Removed?
    ensures var st' := NextState(st, body[0], n);
            && Agrees(st', Step(b, body[0]), n)
            && Remove(body[1..], st', n).Removed?
            && var r := Remove(body[1..], st', n).body;
               Remove(body, st, n).body
               == if (if body[0].Text? then st.INSERTING? else body[0].n == n) then r else [body[0]] + r
    ensures !body[0].Text? && body[0].n != n ==> !st.INSERTING?
  {
  }

  /** What is left is a legal body without n, and every selection without n sees what it saw before. */
  lemma {:induction false} RemoveKeepsTheRest(body: seq<Line>, b: Blocks, st: UpdateState, n: nat, sel: set<nat>)
    requires LegalAll(body, b) && Agrees(st, b, n)
    requires Remove(body, st, n).Removed?
    ensures var r := Remove(body, st, n).body;
            && LegalAll(r, Without(b, n))
            && StepAll(Without(b, n), r) == Without(StepAll(b, body), n)
            && Numbers(r) == Numbers(body) - {n}
            && (n !in sel ==> View(r, Without(b, n), sel) == View(body, b, sel))
  {
    if body != [] {
      var l, b', st' := body[0], Step(b, body[0]), NextState(st, body[0], n);
      RemoveStep(body, b, st, n);
      RemoveKeepsTheRest(body[1..], b', st', n, sel);
      var r := Remove(body[1..], st', n).body;
      if n !in sel {
        VisibleWithout(b, n, sel);
      }
      if !l.Text? && l.n == n {
        assert Without(b', n) == Without(b, n);
      } else if l.Text? && st.INSERTING? {
      } else {
        if !l.Text? {
          LegalWithout(l, b, n);
        }
        Peel(l, r, Without(b, n), sel);
        NumbersConcat([l], r);
      }
    }
  }

  // ---------------------------------------------------------------- whole bodies

  /** Check-in correctness: under the old selection plus n the woven body shows exactly the new
      version; kept lines keep their owner and new lines belong to n. */
  lemma CheckInCorrect(body: seq<Line>, hs: seq<Hunk>, sel: set<nat>, n: nat)
    requires Fresh(n, body, sel) && Matches(hs, GetText(body, sel))
    ensures View(Woven(body, hs, sel, n), NONE_OPEN, sel + {n}) == NewVersion(hs, View(body, NONE_OPEN, sel), n)
    ensures GetText(Woven(body, hs, sel, n), sel + {n}) == NewText(hs, GetText(body, sel))
  {
    CompileMeansNewVersion(hs, View(body, NONE_OPEN, sel), n);
    WeaveInView(body, NONE_OPEN, Out, Compile(hs), sel, n);
  }

  /** The weave invariant: a check-in keeps the body well-formed. */
  lemma CheckInWellFormed(body: seq<Line>, hs: seq<Hunk>, sel: set<nat>, n: nat)
    requires WellFormed(body) && Fresh(n, body, sel) && Matches(hs, GetText(body, sel))
    ensures WellFormed(Woven(body, hs, sel, n))
    ensures Numbers(body) <= Numbers(Woven(body, hs, sel, n)) <= Numbers(body) + {n}
  {
    CompileMeansNewVersion(hs, View(body, NONE_OPEN, sel), n);
    WeaveInLegal(body, NONE_OPEN, Out, Compile(hs), sel, n);
    WeaveInNumbers(body, NONE_OPEN, Out, Compile(hs), sel, n);
  }

  /** Exact undo: removing n from what its check-in wrote gives the old body back. */
  lemma ExactUndo(body: seq<Line>, hs: seq<Hunk>, sel: set<nat>, n: nat)
    requires Fresh(n, body, sel) && Matches(hs, GetText(body, sel))
    ensures Remove(Woven(body, hs, sel, n), COPYING, n) == Removed(body)
  {
    CompileMeansNewVersion(hs, View(body, NONE_OPEN, sel), n);
    RemoveUndoesWeaveIn(body, NONE_OPEN, Out, Compile(hs), sel, n);
  }

  /** Safe removal: what is left is well-formed, and no selection without n sees a difference. */
  lemma SafeRemoval(body: seq<Line>, n: nat, sel: set<nat>)
    requires WellFormed(body) && Terminal(body, NONE_OPEN, n)
    ensures Remove(body, COPYING, n).Removed?
    ensures var r := Remove(body, COPYING, n).body;
            && WellFormed(r) && Numbers(r) == Numbers(body) - {n}
            && (n !in sel ==> View(r, NONE_OPEN, sel) == View(body, NONE_OPEN, sel))
  {
    RemoveSucceedsIffTerminal(body, NONE_OPEN, COPYING, n);
    RemoveKeepsTheRest(body, NONE_OPEN, COPYING, n, sel);
    assert Without(NONE_OPEN, n) == NONE_OPEN;
  }

  /** Non-interference: a selection without n sees the same lines, with the same owners, before and
      after the check-in of n. */
  lemma NonInterference(body: seq<Line>, hs: seq<Hunk>, sel: set<nat>, n: nat, other: set<nat>)
    requires WellFormed(body) && Fresh(n, body, sel) && Matches(hs, GetText(body, sel))
    requires n !in other
    ensures View(Woven(body, hs, sel, n), NONE_OPEN, other) == View(body, NONE_OPEN, other)
  {
    var woven := Woven(body, hs, sel, n);
    CheckInWellFormed(body, hs, sel, n);
    ExactUndo(body, hs, sel, n);
    RemoveSucceedsIffTerminal(woven, NONE_OPEN, COPYING, n);
    SafeRemoval(woven, n, other);
  }

  /** The same for any script that fits the old text, whether or not a diff describes it: what it writes is
      well-formed, shows the patched version, hides it from every other selection, and can be undone. */
  lemma FittingScriptIsSafe(body: seq<Line>, sc: Script, sel: set<nat>, n: nat, other: set<nat>)
    requires WellFormed(body) && Fresh(n, body, sel) && Fits(sc, |View(body, NONE_OPEN, sel)|)
    ensures var out := WeaveIn(body, NONE_OPEN, Out, sc, sel, n);
            && WellFormed(out) && Remove(out, COPYING, n) == Removed(body)
            && View(out, NONE_OPEN, sel + {n}) == Patch(View(body, NONE_OPEN, sel), sc, n)
            && (n !in other ==> View(out, NONE_OPEN, other) == View(body, NONE_OPEN, other))
  {
    var out := WeaveIn(body, NONE_OPEN, Out, sc, sel, n);
    WeaveInView(body, NONE_OPEN, Out, sc, sel, n);
    WeaveInLegal(body, NONE_OPEN, Out, sc, sel, n);
    RemoveUndoesWeaveIn(body, NONE_OPEN, Out, sc, sel, n);
    RemoveSucceedsIffTerminal(out, NONE_OPEN, COPYING, n);
    SafeRemoval(out, n, other);
  }
}
