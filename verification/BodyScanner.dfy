/** The three passes over the body of an s-file: retrieve, check in, remove. */
module BodyScanner {
  import opened Basics
  import opened Weave
  import opened DiffScript
  import opened Moves
  import opened DiffCursor
  import opened DiffFormat
  import opened SequenceState
  import opened CheckIn
  import opened Removal

  // ---------------------------------------------------------------- get

  /** The blocks open after the first line, which must be `^AI`: its number is not checked, and one
      that is out of range is passed over in silence. */
  function AfterFirst(body: seq<Line>, last: nat): Blocks
    requires body != [] && body[0].Ins?
  {
    if body[0].n <= last then Blocks({body[0].n}, {}) else NONE_OPEN
  }

  predicate Gettable(body: seq<Line>, last: nat) {
    && body != [] && body[0].Ins?
    && ReadableAll(body[1..], AfterFirst(body, last), last)
  }

  /** One line further on. */
  lemma ReadOn(body: seq<Line>, i: nat, b: Blocks, sel: set<nat>, last: nat, lines: seq<Owned>)
    requires i < |body|
    ensures ReadableAll(body[i..], b, last)
       <==> Readable(body[i], b, last) && ReadableAll(body[i + 1..], Step(b, body[i]), last)
    ensures StepAll(b, body[i..]) == StepAll(Step(b, body[i]), body[i + 1..])
    ensures lines + View(body[i..], b, sel)
         == if body[i].Text? && Visible(b, sel)
            then lines + [Owned(Top(b.ins), body[i].s)] + View(body[i + 1..], Step(b, body[i]), sel)
            else lines + View(body[i + 1..], Step(b, body[i]), sel)
  {
    var rest := body[i..];
    assert rest[0] == body[i] && rest[1..] == body[i + 1..];
    if body[i].Text? && Visible(b, sel) {
      ConcatAssoc(lines, [Owned(Top(b.ins), body[i].s)], View(body[i + 1..], b, sel));
    }
  }

  lemma NothingToRead(rest: seq<Line>, b: Blocks, sel: set<nat>, last: nat)
    requires rest == []
    ensures ReadableAll(rest, b, last) && View(rest, b, sel) == [] && StepAll(b, rest) == b
  {
  }

  /** Hands one control line to the reader; false when the file is corrupt. */
  method Feed(l: Line, st: SeqState) returns (ok: bool)
    requires !l.Text? && st.Valid() && st.Settled()
    modifies st`activeSeq, st`inserting, st.states
    ensures st.Valid() && st.Settled()
    ensures ok <==> Readable(l, old(st.Sense()).open, st.states.Length - 1)
    ensures ok <==> 1 <= l.n < st.states.Length && (l.End? <==> l.n in old(st.Sense()).open.ins || l.n in old(st.Sense()).open.del)
    ensures ok ==> st.Sense() == old(st.Sense()).(open := Step(old(st.Sense()).open, l))
  {
    ghost var ss := st.states[..];
    if l.n < 1 || l.n >= st.states.Length {
      return false;
    }
    match l {
      case End(k) => ok := st.End(k);
      case Ins(k) => ok := st.Start(k, 'I');
      case Del(k) => ok := st.Start(k, 'D');
    }
  }

  /** Reads one line: what it adds to the output, with the delta to blame. */
  method ReadLine(l: Line, st: SeqState) returns (ok: bool, seen: seq<Owned>)
    requires st.Valid() && st.Settled()
    modifies st`activeSeq, st`inserting, st.states
    ensures st.Valid() && st.Settled()
    ensures ok <==> Readable(l, old(st.Sense()).open, st.states.Length - 1)
    ensures ok ==> st.Sense() == old(st.Sense()).(open := Step(old(st.Sense()).open, l))
    ensures seen == if l.Text? && Visible(old(st.Sense()).open, old(st.Sense()).included)
                    then [Owned(Top(old(st.Sense()).open.ins), l.s)] else []
  {
    ok, seen := true, [];
    if !l.Text? {
      ok := Feed(l, st);
    } else if st.inserting {
      seen := [Owned(st.activeSeq, l.s)];
    }
  }

  /** The main loop: reads on from line `start` and collects the visible lines. */
  method ReadFrom(body: seq<Line>, start: nat, st: SeqState) returns (r: Option<seq<Owned>>)
    requires start <= |body| && st.Valid() && st.Settled()
    modifies st`activeSeq, st`inserting, st.states
    ensures r.Some? <==> ReadableAll(body[start..], old(st.Sense()).open, st.states.Length - 1)
    ensures r.Some? ==> r.value == View(body[start..], old(st.Sense()).open, old(st.Sense()).included)
  {
    hide View, ReadableAll, Readable, Visible, Step, Top;
    ghost var m, last := st.Sense(), st.states.Length - 1;
    ghost var open := m.open;
    var lines: seq<Owned>, i := [], start;
    assert [] + View(body[start..], open, m.included) == View(body[start..], open, m.included);
    while i < |body|
      invariant start <= i <= |body|
      invariant st.Valid() && st.Settled() && st.Sense() == m.(open := open)
      invariant ReadableAll(body[start..], m.open, last) <==> ReadableAll(body[i..], open, last)
      invariant lines + View(body[i..], open, m.included) == View(body[start..], m.open, m.included)
    {
      ReadOn(body, i, open, m.included, last, lines);
      var ok, seen := ReadLine(body[i], st);
      if !ok {
        return None;
      }
      assert lines + [] == lines;
      lines, open, i := lines + seen, Step(open, body[i]), i + 1;
    }
    NothingToRead(body[i..], open, m.included, last);
    return Some(lines);
  }

  /** Retrieves the version that the reader's selection sees. */
  method Get(body: seq<Line>, st: SeqState) returns (r: Option<seq<Owned>>)
    requires st.Valid() && st.Settled() && st.Sense().open == NONE_OPEN
    modifies st`activeSeq, st`inserting, st.states
    ensures r.Some? <==> Gettable(body, st.states.Length - 1)
    ensures r.Some? <==> body != [] && body[0].Ins?
                         && ReadableAll(body[1..], if body[0].n < st.states.Length then Blocks({body[0].n}, {}) else NONE_OPEN, st.states.Length - 1)
    ensures r.Some? ==> r.value == View(body[1..], AfterFirst(body, st.states.Length - 1), old(st.Sense()).included)
  {
    if body == [] || !body[0].Ins? {
      return None;
    }
    var _ := st.Start(body[0].n, 'I');
    assert {} + {body[0].n} == {body[0].n};
    assert st.Sense().open == AfterFirst(body, st.states.Length - 1);
    r := ReadFrom(body, 1, st);
  }

  // ---------------------------------------------------------------- remove

  /** Cuts n out of the body, line by line. */
  method RemoveDelta(body: seq<Line>, n: nat) returns (r: Outcome)
    ensures r == Remove(body, COPYING, n)
  {
    var st, kept, i := COPYING, [], 0;
    while i < |body|
      invariant 0 <= i <= |body|
      invariant Remove(body, COPYING, n) == Prefixed(kept, Remove(body[i..], st, n))
    {
      ghost var rest := body[i..];
      assert rest[0] == body[i] && rest[1..] == body[i + 1..];
      if !body[i].Text? {
        if body[i].n == n {
          if st == COPYING {
            match body[i] {
              case Ins(_) => st := INSERTING;
              case Del(_) => st := DELETING;
              case End(_) => return UnexpectedControl;
            }
          } else if body[i].End? {
            st := COPYING;
          } else {
            return UnexpectedControl;
          }
        } else if st == INSERTING {
          return NonTerminal;
        } else {
          KeepOne(kept, body[i], Remove(body[i + 1..], st, n));
          kept := kept + [body[i]];
        }
      } else if st != INSERTING {
        KeepOne(kept, body[i], Remove(body[i + 1..], st, n));
        kept := kept + [body[i]];
      }
      i := i + 1;
    }
    if st != COPYING {
      return UnexpectedEof;
    }
    return Removed(kept);
  }

  function Prefixed(kept: seq<Line>, o: Outcome): Outcome {
    if o.Removed? then Removed(kept + o.body) else o
  }

  lemma KeepOne(kept: seq<Line>, l: Line, o: Outcome)
    ensures Prefixed(kept, o.Copying(l)) == Prefixed(kept + [l], o)
  {
    if o.Removed? {
      ConcatAssoc(kept, [l], o.body);
    }
  }

  // ---------------------------------------------------------------- delta

  /** The verdicts still to come once `written` is out, given where the cursor stands. */
  ghost function Onwards(written: seq<Line>, inserted: nat, mode: Mode, sc: Script, n: nat): (Turn, nat) {
    var t := Settle(mode, sc, n);
    (t.(out := written + t.out), inserted + |Pending(sc, n)|)
  }

  lemma {:induction false} ProcOnwards(written: seq<Line>, inserted: nat, mode: Mode, sc: Script, n: nat)
    ensures var t := Proc(mode, sc, n);
            Onwards(written, inserted, mode, sc, n)
            == if t.action.Inserted? then Onwards(written + t.out + [Text(t.action.s)], inserted + 1, t.mode, t.sc, n)
               else (t.(out := written + t.out), inserted)
    decreases sc
  {
    var t := Proc(mode, sc, n);
    SettleIsRepeatedProc(mode, sc, n);
    if sc.Cut? {
      ProcOnwards(written, inserted, Out, sc.rest, n);
    }
    if t.action.Inserted? {
      var w := Settle(t.mode, t.sc, n);
      ConcatAssoc(written, t.out + [Text(t.action.s)], w.out);
      ConcatAssoc(written, t.out, [Text(t.action.s)]);
    }
  }

  /** The moves made since the last old line, the lines they wrote, and the block open then. */
  datatype Trail = Trail(lead: seq<Move>, out: seq<Line>, mode: Mode) {
    ghost predicate From(mode0: Mode, n: nat) {
      IsLead(lead) && Led(mode0, lead, out, mode, n)
    }

    function Turned(turned: bool, n: nat): Trail {
      if turned then Trail(lead + [OneCut], out + Closing(mode, n), Out) else this
    }

    function Added(s: string, n: nat): Trail {
      Trail(lead + [OneAdd(s)], out + ((if mode.InAdd? then [] else [Ins(n)]) + [Text(s)]), InAdd)
    }
  }

  /** What is written so far is the trail, and the marker of the phase that the cursor is in. */
  ghost predicate OnTrail(mode0: Mode, tr: Trail, written: seq<Line>, inserted: nat, phase: Phase, n: nat) {
    && tr.From(mode0, n) && inserted == AddCount(tr.lead)
    && (tr.mode == ModeAt(phase) || tr.mode.Out?)
    && written == tr.out + MarkerFrom(tr.mode, phase, n)
  }

  lemma TrailStarts(mode0: Mode, n: nat)
    ensures Trail([], [], mode0).From(mode0, n) && AddCount([]) == 0
  {
    LedNothing(mode0, n);
  }

  lemma TrailTurns(mode0: Mode, tr: Trail, written: seq<Line>, inserted: nat, before: Phase, phase: Phase, turned: bool, more: seq<Line>, n: nat)
    requires tr.From(mode0, n) && inserted == AddCount(tr.lead) && tr.mode == ModeAt(before) && written == tr.out
    requires if turned then more == Closing(ModeAt(before), n) + MarkerFrom(Out, phase, n) else more == [] && phase == before
    ensures OnTrail(mode0, tr.Turned(turned, n), written + more, inserted, phase, n)
  {
    hide Led, Closing;
    if turned {
      LedCut(tr.mode, n);
      LedOn(mode0, tr.lead, tr.out, tr.mode, [OneCut], Closing(tr.mode, n), Out, n);
      AddCountConcat(tr.lead, [OneCut]);
      ConcatAssoc(tr.out, Closing(tr.mode, n), MarkerFrom(Out, phase, n));
    }
  }

  lemma TrailAdds(mode0: Mode, tr: Trail, written: seq<Line>, inserted: nat, s: string, n: nat)
    requires OnTrail(mode0, tr, written, inserted, INSERT, n)
    ensures tr.Added(s, n).From(mode0, n) && inserted + 1 == AddCount(tr.Added(s, n).lead)
    ensures written + [Text(s)] == tr.Added(s, n).out
  {
    hide Led;
    LedAdd(tr.mode, s, n);
    LedOn(mode0, tr.lead, tr.out, tr.mode, [OneAdd(s)], (if tr.mode.InAdd? then [] else [Ins(n)]) + [Text(s)], InAdd, n);
    AddCountConcat(tr.lead, [OneAdd(s)]);
  }

  lemma TrailEnds(mode0: Mode, tr: Trail, written: seq<Line>, inserted: nat, phase: Phase, n: nat)
    requires OnTrail(mode0, tr, written, inserted, phase, n) && !phase.INSERT?
    ensures IsLead(tr.lead) && inserted == AddCount(tr.lead)
    ensures written == Settle(mode0, Then(tr.lead, Verdict(phase.DELETE?, Done)), n).out
  {
    assert Settle(mode0, Then(tr.lead, Verdict(phase.DELETE?, Done)), n) == Before(tr.out, Settle(tr.mode, Verdict(phase.DELETE?, Done), n));
  }

  /** Calls process() until it stops inserting, copying the inserted lines out.  Whatever the diff, what it
      writes is what settling some additions and one verdict writes. */
  method SettleLine(ds: DiffState, n: nat) returns (ok: bool, written: seq<Line>, inserted: nat, ghost lead: seq<Move>)
    requires ds.Valid()
    modifies ds
    ensures ok ==> ds.Valid() && !ds.phase.INSERT?
    ensures ok ==> IsLead(lead) && inserted == AddCount(lead)
    ensures ok ==> written == Settle(ModeAt(old(ds.phase)), Then(lead, Verdict(ds.phase.DELETE?, Done)), n).out
    ensures !old(ds.plan).Lost? ==>
              var t := Settle(ModeOf(old(ds.plan)), ScriptOf(old(ds.plan)), n);
              && ok && !ds.plan.Lost? && written == t.out
              && ModeOf(ds.plan) == t.mode && ScriptOf(ds.plan) == t.sc
              && (t.action.Dropped? <==> ds.phase.DELETE?)
              && inserted == |Pending(ScriptOf(old(ds.plan)), n)|
  {
    hide Proc, Settle, Pending, ScriptOf, ModeOf, OnTrail, Then, Expects;
    ghost var p, mode0 := ds.plan, ModeAt(ds.phase);
    ghost var goal := Onwards([], 0, ModeOf(p), ScriptOf(p), n);
    ProcOnwards([], 0, ModeOf(p), ScriptOf(p), n);
    ghost var tr, before, turned := Trail([], [], mode0), ds.phase, false;
    TrailStarts(mode0, n);
    ok, written, turned := ds.Process(n);
    inserted := 0;
    assert [] + written == written;
    if ok {
      TrailTurns(mode0, tr, [], 0, before, ds.phase, turned, written, n);
      tr := tr.Turned(turned, n);
    }
    while ok && ds.phase.INSERT?
      invariant ok ==> ds.Valid()
      invariant ok && ds.phase.INSERT? ==> ds.buffered.NewLine?
      invariant ok ==> OnTrail(mode0, tr, written, inserted, ds.phase, n)
      invariant !p.Lost? ==> ok && !ds.plan.Lost?
      invariant !p.Lost? && ds.phase.INSERT? ==>
                  Onwards(written + [Text(ds.buffered.s)], inserted + 1, ModeOf(ds.plan), ScriptOf(ds.plan), n) == goal
      invariant !p.Lost? && !ds.phase.INSERT? ==>
                  && goal == (Turn(written, goal.0.action, ModeOf(ds.plan), ScriptOf(ds.plan)), inserted)
                  && (goal.0.action.Dropped? <==> ds.phase.DELETE?)
      decreases |ds.input| + if ok && ds.phase.INSERT? then 1 else 0
    {
      TrailAdds(mode0, tr, written, inserted, ds.buffered.s, n);
      tr := tr.Added(ds.buffered.s, n);
      written := written + [Text(ds.buffered.s)];
      inserted := inserted + 1;
      ProcOnwards(written, inserted, ModeOf(ds.plan), ScriptOf(ds.plan), n);
      var more;
      ok, more, turned := ds.Process(n);
      if ok {
        TrailTurns(mode0, tr, written, inserted, INSERT, ds.phase, turned, more, n);
        tr := tr.Turned(turned, n);
      }
      written := written + more;
    }
    assert [] + goal.0.out == goal.0.out;
    lead := tr.lead;
    if ok {
      TrailEnds(mode0, tr, written, inserted, ds.phase, n);
    }
  }

  function Plus(c: Counts, d: Counts): Counts {
    Counts(c.inserted + d.inserted, c.deleted + d.deleted, c.same + d.same)
  }

  /** The counts for one old line, or for the end of the file. */
  function Ticks(sc: Script, mode: Mode, n: nat, line: bool): Counts {
    var dropped := Settle(mode, sc, n).action.Dropped?;
    Counts(|Pending(sc, n)|, if line && dropped then 1 else 0, if line && !dropped then 1 else 0)
  }

  lemma {:induction false} TallySettle(mode: Mode, sc: Script, m: nat, n: nat)
    requires Fits(sc, m + 1)
    ensures var t := Settle(mode, sc, n);
            Fits(t.sc, m) && Tally(sc, m + 1) == Plus(Ticks(sc, mode, n, true), Tally(t.sc, m))
    decreases sc
  {
    match sc
    case Add(_, r) => TallySettle(InAdd, r, m, n);
    case Cut(r) => TallySettle(Out, r, m, n);
    case _ =>
  }

  lemma {:induction false} TallyAtEnd(mode: Mode, sc: Script, n: nat)
    requires Fits(sc, 0)
    ensures Tally(sc, 0) == Ticks(sc, mode, n, false)
    decreases sc
  {
    match sc
    case Add(_, r) => TallyAtEnd(InAdd, r, n);
    case Cut(r) => TallyAtEnd(Out, r, n);
    case _ =>
  }

  /** What a check-in has still to write and to count, from line i on. */
  datatype Rest = Rest(out: seq<Line>, counts: Counts)

  ghost function ToCome(out: seq<Line>, c: Counts, body: seq<Line>, i: nat, b: Blocks, p: Plan, sel: set<nat>, n: nat): Rest
    requires i <= |body| && Fits(ScriptOf(p), |View(body[i..], b, sel)|)
  {
    Rest(out + WeaveIn(body[i..], b, ModeOf(p), ScriptOf(p), sel, n),
         Plus(c, Tally(ScriptOf(p), |View(body[i..], b, sel)|)))
  }

  lemma CopyOn(out: seq<Line>, c: Counts, body: seq<Line>, i: nat, b: Blocks, p: Plan, sel: set<nat>, n: nat)
    requires i < |body| && Fits(ScriptOf(p), |View(body[i..], b, sel)|)
    requires !(body[i].Text? && Visible(b, sel))
    ensures Fits(ScriptOf(p), |View(body[i + 1..], Step(b, body[i]), sel)|)
    ensures ToCome(out, c, body, i, b, p, sel, n) == ToCome(out + [body[i]], c, body, i + 1, Step(b, body[i]), p, sel, n)
  {
    var rest := body[i..];
    assert rest[0] == body[i] && rest[1..] == body[i + 1..];
    ConcatAssoc(out, [body[i]], WeaveIn(body[i + 1..], Step(b, body[i]), ModeOf(p), ScriptOf(p), sel, n));
  }

  lemma WeaveOn(out: seq<Line>, c: Counts, body: seq<Line>, i: nat, b: Blocks, p: Plan, q: Plan, sel: set<nat>, n: nat)
    requires i < |body| && Fits(ScriptOf(p), |View(body[i..], b, sel)|)
    requires body[i].Text? && Visible(b, sel)
    requires var t := Settle(ModeOf(p), ScriptOf(p), n); ModeOf(q) == t.mode && ScriptOf(q) == t.sc
    ensures Fits(ScriptOf(q), |View(body[i + 1..], b, sel)|)
    ensures ToCome(out, c, body, i, b, p, sel, n)
         == ToCome(out + (Settle(ModeOf(p), ScriptOf(p), n).out + [body[i]]), Plus(c, Ticks(ScriptOf(p), ModeOf(p), n, true)),
                   body, i + 1, b, q, sel, n)
  {
    var rest, t := body[i..], Settle(ModeOf(p), ScriptOf(p), n);
    assert rest[0] == body[i] && rest[1..] == body[i + 1..];
    TallySettle(ModeOf(p), ScriptOf(p), |View(body[i + 1..], b, sel)|, n);
    var w := WeaveIn(body[i + 1..], b, t.mode, t.sc, sel, n);
    ConcatAssoc(t.out, [body[i]], w);
    ConcatAssoc(out, t.out + [body[i]], w);
  }

  /** What is written and counted so far, plus what is to come from line i on, is the whole check-in. */
  ghost predicate OnCourse(out: seq<Line>, c: Counts, body: seq<Line>, i: nat, b: Blocks, p: Plan, p0: Plan, sel: set<nat>, n: nat)
    requires i <= |body|
  {
    && !p.Lost? && Fits(ScriptOf(p), |View(body[i..], b, sel)|) && Fits(ScriptOf(p0), |View(body, NONE_OPEN, sel)|)
    && ToCome(out, c, body, i, b, p, sel, n)
       == Rest(WeaveIn(body, NONE_OPEN, ModeOf(p0), ScriptOf(p0), sel, n), Tally(ScriptOf(p0), |View(body, NONE_OPEN, sel)|))
  }

  lemma StayOnCourse(out: seq<Line>, c: Counts, body: seq<Line>, i: nat, b: Blocks, p: Plan, q: Plan,
                     written: seq<Line>, d: Counts, p0: Plan, sel: set<nat>, n: nat)
    requires i < |body| && OnCourse(out, c, body, i, b, p, p0, sel, n)
    requires if body[i].Text? && Visible(b, sel) then
               var t := Settle(ModeOf(p), ScriptOf(p), n);
               && !q.Lost? && ModeOf(q) == t.mode && ScriptOf(q) == t.sc
               && written == t.out + [body[i]] && d == Ticks(ScriptOf(p), ModeOf(p), n, true)
             else q == p && written == [body[i]] && d == Counts(0, 0, 0)
    ensures OnCourse(out + written, Plus(c, d), body, i + 1, Step(b, body[i]), q, p0, sel, n)
  {
    if body[i].Text? && Visible(b, sel) {
      WeaveOn(out, c, body, i, b, p, q, sel, n);
    } else {
      CopyOn(out, c, body, i, b, p, sel, n);
    }
  }

  lemma CourseEnds(out: seq<Line>, c: Counts, body: seq<Line>, b: Blocks, p: Plan, p0: Plan, sel: set<nat>, n: nat)
    requires OnCourse(out, c, body, |body|, b, p, p0, sel, n)
    ensures out + Settle(ModeOf(p), ScriptOf(p), n).out == WeaveIn(body, NONE_OPEN, ModeOf(p0), ScriptOf(p0), sel, n)
    ensures Plus(c, Counts(|Pending(ScriptOf(p), n)|, 0, 0)) == Tally(ScriptOf(p0), |View(body, NONE_OPEN, sel)|)
  {
    TallyAtEnd(ModeOf(p), ScriptOf(p), n);
  }

  /** The moves made so far account for what is written and counted so far, and whatever moves follow
      account for the rest. */
  ghost predicate Performs(out: seq<Line>, c: Counts, body: seq<Line>, i: nat, b: Blocks, mode: Mode, ms: seq<Move>,
                           mode0: Mode, sel: set<nat>, n: nat, r: Script)
    requires i <= |body|
  {
    var k, m := |View(body, NONE_OPEN, sel)|, |View(body[i..], b, sel)|;
    && WeaveIn(body, NONE_OPEN, mode0, Then(ms, r), sel, n) == out + WeaveIn(body[i..], b, mode, r, sel, n)
    && (Fits(Then(ms, r), k) <==> Fits(r, m))
    && (EndsOpen(Then(ms, r), k) <==> EndsOpen(r, m))
    && (Fits(r, m) ==> Tally(Then(ms, r), k) == Plus(c, Tally(r, m)))
  }

  ghost predicate Performed(out: seq<Line>, c: Counts, body: seq<Line>, i: nat, b: Blocks, mode: Mode, ms: seq<Move>,
                            mode0: Mode, sel: set<nat>, n: nat)
    requires i <= |body|
  {
    forall r :: Performs(out, c, body, i, b, mode, ms, mode0, sel, n, r)
  }

  lemma PerformStart(body: seq<Line>, mode0: Mode, sel: set<nat>, n: nat)
    ensures Performed([], Counts(0, 0, 0), body, 0, NONE_OPEN, mode0, [], mode0, sel, n)
  {
    hide WeaveIn, View, Tally, Fits, EndsOpen;
    assert body[0..] == body;
    forall r
      ensures Performs([], Counts(0, 0, 0), body, 0, NONE_OPEN, mode0, [], mode0, sel, n, r)
    {
      var w := WeaveIn(body, NONE_OPEN, mode0, r, sel, n);
      assert [] + w == w;
    }
  }

  lemma PerformCopy(out: seq<Line>, c: Counts, body: seq<Line>, i: nat, b: Blocks, mode: Mode, ms: seq<Move>,
                    mode0: Mode, sel: set<nat>, n: nat)
    requires i < |body| && Performed(out, c, body, i, b, mode, ms, mode0, sel, n)
    requires !(body[i].Text? && Visible(b, sel))
    ensures Performed(out + [body[i]], c, body, i + 1, Step(b, body[i]), mode, ms, mode0, sel, n)
  {
    hide Tally, Fits, EndsOpen, Then, Visible;
    var rest := body[i..];
    assert rest[0] == body[i] && rest[1..] == body[i + 1..];
    var out', j, b' := out + [body[i]], i + 1, Step(b, body[i]);
    forall r
      ensures Performs(out', c, body, j, b', mode, ms, mode0, sel, n, r)
    {
      assert Performs(out, c, body, i, b, mode, ms, mode0, sel, n, r);
      ConcatAssoc(out, [body[i]], WeaveIn(body[i + 1..], Step(b, body[i]), mode, r, sel, n));
    }
  }

  lemma VisibleLine(body: seq<Line>, i: nat, b: Blocks, mode: Mode, sc: Script, sel: set<nat>, n: nat)
    requires i < |body| && body[i].Text? && Visible(b, sel)
    ensures |View(body[i..], b, sel)| == |View(body[i + 1..], b, sel)| + 1
    ensures var t := Settle(mode, sc, n);
            WeaveIn(body[i..], b, mode, sc, sel, n) == t.out + ([body[i]] + WeaveIn(body[i + 1..], b, t.mode, t.sc, sel, n))
  {
    var rest := body[i..];
    assert rest[0] == body[i] && rest[1..] == body[i + 1..];
  }

  lemma PerformSettle(out: seq<Line>, c: Counts, body: seq<Line>, i: nat, b: Blocks, mode: Mode, ms: seq<Move>,
                      mode0: Mode, sel: set<nat>, n: nat, lead: seq<Move>, drop: bool)
    requires i < |body| && Performed(out, c, body, i, b, mode, ms, mode0, sel, n)
    requires body[i].Text? && Visible(b, sel) && IsLead(lead)
    ensures Performed(out + (Settle(mode, Then(lead, Verdict(drop, Done)), n).out + [body[i]]),
                      Plus(c, Counts(AddCount(lead), if drop then 1 else 0, if drop then 0 else 1)),
                      body, i + 1, b, if drop then InDrop else Out, ms + (lead + [VerdictMove(drop)]), mode0, sel, n)
  {
    hide View, WeaveIn, Visible, Settle, Tally, Fits, EndsOpen, Then;
    var w, mode' := Settle(mode, Then(lead, Verdict(drop, Done)), n).out, if drop then InDrop else Out;
    var c' := Plus(c, Counts(AddCount(lead), if drop then 1 else 0, if drop then 0 else 1));
    var ms', m := ms + (lead + [VerdictMove(drop)]), |View(body[i + 1..], b, sel)|;
    var out', j := out + (w + [body[i]]), i + 1;
    forall r
      ensures Performs(out', c', body, j, b, mode', ms', mode0, sel, n, r)
    {
      var r' := Then(lead, Verdict(drop, r));
      assert Performs(out, c, body, i, b, mode, ms, mode0, sel, n, r');
      ThenConcat(ms, lead + [VerdictMove(drop)], r);
      ThenConcat(lead, [VerdictMove(drop)], r);
      OneMove(VerdictMove(drop), r);
      SettleVerdict(mode, lead, drop, r, n);
      LeadCounts(lead, drop, r, m);
      VisibleLine(body, i, b, mode, r', sel, n);
      var rest := WeaveIn(body[i + 1..], b, mode', r, sel, n);
      ConcatAssoc(w, [body[i]], rest);
      ConcatAssoc(out, w + [body[i]], rest);
    }
  }

  /** The script made of all moves: a verdict at the end of the file counts only if it is to delete. */
  function WholeScript(ms: seq<Move>, lead: seq<Move>, drop: bool): Script {
    Then(ms, Then(lead, if drop then Drop(Done) else Done))
  }

  lemma PerformEnd(out: seq<Line>, c: Counts, body: seq<Line>, b: Blocks, mode: Mode, ms: seq<Move>,
                   mode0: Mode, sel: set<nat>, n: nat, lead: seq<Move>, drop: bool)
    requires Performed(out, c, body, |body|, b, mode, ms, mode0, sel, n) && IsLead(lead)
    ensures var sc, k := WholeScript(ms, lead, drop), |View(body, NONE_OPEN, sel)|;
            && out + Settle(mode, Then(lead, Verdict(drop, Done)), n).out == WeaveIn(body, NONE_OPEN, mode0, sc, sel, n)
            && (Fits(sc, k) <==> !drop) && (EndsOpen(sc, k) <==> drop)
            && (Fits(sc, k) ==> Tally(sc, k) == Plus(c, Counts(AddCount(lead), 0, 0)))
  {
    hide Settle, Tally, Fits, EndsOpen, Then;
    var r := Then(lead, if drop then Drop(Done) else Done);
    assert Performs(out, c, body, |body|, b, mode, ms, mode0, sel, n, r);
    SettleVerdict(mode, lead, drop, Done, n);
    LeadAtEnd(lead);
    if !drop {
      FittingEndsClosed(r, 0);
    }
  }

  /** One line of the old body. */
  method WeaveLine(l: Line, ds: DiffState, n: nat, st: SeqState)
    returns (ok: bool, written: seq<Line>, c: Counts, ghost lead: seq<Move>)
    requires ds.Valid() && st.Valid() && st.Settled()
    modifies ds, st`activeSeq, st`inserting, st.states
    ensures ok ==> ds.Valid() && st.Valid() && st.Settled()
    ensures ok ==> Readable(l, old(st.Sense()).open, st.states.Length - 1)
    ensures ok ==> st.Sense() == old(st.Sense()).(open := Step(old(st.Sense()).open, l))
    ensures !(l.Text? && Visible(old(st.Sense()).open, old(st.Sense()).included)) ==>
              && (ok <==> Readable(l, old(st.Sense()).open, st.states.Length - 1))
              && written == [l] && c == Counts(0, 0, 0) && ds.plan == old(ds.plan) && ds.phase == old(ds.phase)
    ensures ok && l.Text? && Visible(old(st.Sense()).open, old(st.Sense()).included) ==>
              && IsLead(lead) && !ds.phase.INSERT?
              && c == Counts(AddCount(lead), if ds.phase.DELETE? then 1 else 0, if ds.phase.DELETE? then 0 else 1)
              && written == Settle(ModeAt(old(ds.phase)), Then(lead, Verdict(ds.phase.DELETE?, Done)), n).out + [l]
    ensures l.Text? && Visible(old(st.Sense()).open, old(st.Sense()).included) && !old(ds.plan).Lost? ==>
              var mode, sc := ModeOf(old(ds.plan)), ScriptOf(old(ds.plan));
              var t := Settle(mode, sc, n);
              && ok && !ds.plan.Lost? && ModeOf(ds.plan) == t.mode && ScriptOf(ds.plan) == t.sc
              && written == t.out + [l] && c == Ticks(sc, mode, n, true)
  {
    lead := [];
    if !l.Text? {
      ok := Feed(l, st);
      return ok, [l], Counts(0, 0, 0), [];
    }
    if !st.inserting {
      return true, [l], Counts(0, 0, 0), [];
    }
    var inserted;
    ok, written, inserted, lead := SettleLine(ds, n);
    written := written + [l];
    c := if ds.phase.DELETE? then Counts(inserted, 1, 0) else Counts(inserted, 0, 1);
  }

  /** The loop over the old body: settles the diff before each visible line and at end of file, where
      a balanced body shows nothing. */
  method WeaveBody(body: seq<Line>, ds: DiffState, n: nat, st: SeqState)
    returns (ok: bool, out: seq<Line>, counts: Counts, ghost sc: Script)
    requires ds.Valid() && !ds.phase.INSERT? && st.Valid() && st.Settled() && st.Sense().open == NONE_OPEN
    requires !Visible(StepAll(NONE_OPEN, body), st.Sense().included)
    modifies ds, st`activeSeq, st`inserting, st.states
    ensures ok ==> ReadableAll(body, NONE_OPEN, st.states.Length - 1)
    ensures ok ==> var sel, k := old(st.Sense()).included, |View(body, NONE_OPEN, old(st.Sense()).included)|;
                   && out == WeaveIn(body, NONE_OPEN, ModeAt(old(ds.phase)), sc, sel, n)
                   && (Fits(sc, k) <==> !EndsOpen(sc, k)) && (Fits(sc, k) ==> counts == Tally(sc, k))
    ensures var p, sel := old(ds.plan), old(st.Sense()).included;
            && !p.Lost? && Fits(ScriptOf(p), |View(body, NONE_OPEN, sel)|)
            && ReadableAll(body, NONE_OPEN, st.states.Length - 1)
            ==> && ok && out == WeaveIn(body, NONE_OPEN, ModeOf(p), ScriptOf(p), sel, n)
                && counts == Tally(ScriptOf(p), |View(body, NONE_OPEN, sel)|)
  {
    hide View, ReadableAll, Readable, StepAll, Step, Top, Visible, OnCourse, WeaveIn, Tally, Fits, Settle, Ticks, Plus, Pending, ScriptOf, ModeOf, Expects, PlanProper, MeaningOf, Performed, Then, EndsOpen, IsLead, AddCount, Verdict, VerdictMove, WholeScript, PhaseOf, LinesLeft, ChangeLeft;
    ghost var sel, last, p0 := st.Sense().included, st.states.Length - 1, ds.plan;
    ghost var good := !p0.Lost? && Fits(ScriptOf(p0), |View(body, NONE_OPEN, sel)|) && ReadableAll(body, NONE_OPEN, last);
    ghost var open, mode0, ms := NONE_OPEN, ModeAt(ds.phase), [];
    out, counts, sc := [], Counts(0, 0, 0), Done;
    PerformStart(body, mode0, sel, n);
    assert body[0..] == body;
    if good {
      CourseStarts(body, p0, sel, n);
    }
    var i := 0;
    while i < |body|
      invariant 0 <= i <= |body|
      invariant ds.Valid() && st.Valid() && st.Settled() && st.Sense().included == sel && st.Sense().open == open
      invariant ReadableAll(body, NONE_OPEN, last) <==> ReadableAll(body[i..], open, last)
      invariant StepAll(open, body[i..]) == StepAll(NONE_OPEN, body)
      invariant !ds.phase.INSERT? && Performed(out, counts, body, i, open, ModeAt(ds.phase), ms, mode0, sel, n)
      invariant good ==> OnCourse(out, counts, body, i, open, ds.plan, p0, sel, n)
    {
      ghost var p, before := ds.plan, ds.phase;
      ReadOn(body, i, open, sel, last, []);
      if good {
        CourseHolds(out, counts, body, i, open, p, p0, sel, n);
      }
      var written, c;
      ghost var lead;
      ok, written, c, lead := WeaveLine(body[i], ds, n, st);
      if !ok {
        return;
      }
      if body[i].Text? && Visible(open, sel) {
        PerformSettle(out, counts, body, i, open, ModeAt(before), ms, mode0, sel, n, lead, ds.phase.DELETE?);
        ms := ms + (lead + [VerdictMove(ds.phase.DELETE?)]);
        SameBlocks(open, body[i]);
      } else {
        PerformCopy(out, counts, body, i, open, ModeAt(before), ms, mode0, sel, n);
        NothingCounted(counts);
      }
      if good {
        StayOnCourse(out, counts, body, i, open, p, ds.plan, written, c, p0, sel, n);
      }
      out, counts := out + written, Plus(counts, c);
      open, i := Step(open, body[i]), i + 1;
    }
    NothingToRead(body[i..], open, sel, last);
    assert !st.inserting;
    if good {
      CourseHolds(out, counts, body, i, open, ds.plan, p0, sel, n);
      CourseEnds(out, counts, body, open, ds.plan, p0, sel, n);
    }
    var written, inserted;
    ghost var before, lead := ds.phase, [];
    ok, written, inserted, lead := SettleLine(ds, n);
    if ok {
      PerformEnd(out, counts, body, open, ModeAt(before), ms, mode0, sel, n, lead, ds.phase.DELETE?);
      sc := WholeScript(ms, lead, ds.phase.DELETE?);
    }
    out := out + written;
    counts := Plus(counts, Counts(inserted, 0, 0));
  }

  lemma SameBlocks(b: Blocks, l: Line)
    requires l.Text?
    ensures Step(b, l) == b
  {
  }

  lemma NothingCounted(c: Counts)
    ensures Plus(c, Counts(0, 0, 0)) == c
  {
  }

  lemma CourseStarts(body: seq<Line>, p0: Plan, sel: set<nat>, n: nat)
    requires !p0.Lost? && Fits(ScriptOf(p0), |View(body, NONE_OPEN, sel)|)
    ensures OnCourse([], Counts(0, 0, 0), body, 0, NONE_OPEN, p0, p0, sel, n)
  {
    hide Tally, Fits, WeaveIn, View;
    assert body[0..] == body;
    assert [] + WeaveIn(body, NONE_OPEN, ModeOf(p0), ScriptOf(p0), sel, n) == WeaveIn(body, NONE_OPEN, ModeOf(p0), ScriptOf(p0), sel, n);
  }

  lemma CourseHolds(out: seq<Line>, c: Counts, body: seq<Line>, i: nat, b: Blocks, p: Plan, p0: Plan, sel: set<nat>, n: nat)
    requires i <= |body| && OnCourse(out, c, body, i, b, p, p0, sel, n)
    ensures !p.Lost?
  {
  }

  /** Checks a version in.  Whatever the diff, a body that it writes is the old one with some script woven
      in; unless the script fits the old text, it goes on to delete past the end.  On a readable, balanced
      body and diff output that applies to the old text it cannot fail, weaves the change in, counts the
      quoted lines, and its totals are the lengths of the old and the new text. */
  method Delta(body: seq<Line>, diff: seq<DiffLine>, n: nat, st: SeqState)
    returns (ok: bool, out: seq<Line>, counts: Counts, ghost sc: Script, ghost hs: seq<Hunk>)
    requires st.Valid() && st.Settled() && st.Sense().open == NONE_OPEN
    requires !Visible(StepAll(NONE_OPEN, body), st.Sense().included)
    modifies st`activeSeq, st`inserting, st.states
    ensures ok ==> ReadableAll(body, NONE_OPEN, st.states.Length - 1)
    ensures ok ==> var v := View(body, NONE_OPEN, old(st.Sense()).included);
                   && out == WeaveIn(body, NONE_OPEN, Out, sc, old(st.Sense()).included, n)
                   && (Fits(sc, |v|) <==> !EndsOpen(sc, |v|)) && (Fits(sc, |v|) ==> counts == Tally(sc, |v|))
    ensures var v := View(body, NONE_OPEN, old(st.Sense()).included);
            var new_ := Applied(diff, Texts(v));
            ReadableAll(body, NONE_OPEN, st.states.Length - 1) && new_.Some?
            ==> && ok && Proper(hs) && Matches(hs, Texts(v)) && NewText(hs, Texts(v)) == new_.value
                && out == Woven(body, hs, old(st.Sense()).included, n)
                && counts.inserted == NewCount(diff) && counts.deleted == OldCount(diff)
                && counts.deleted + counts.same == |v| && counts.inserted + counts.same == |new_.value|
  {
    hide Apply, Compile, Tally, Proper, Matches, NewText, View, Render;
    ghost var v := View(body, NONE_OPEN, st.Sense().included);
    hs := [];
    if Applied(diff, Texts(v)).Some? {
      hs := AppliesIsRender(diff, Texts(v), 0, 0);
      assert Texts(v)[0..] == Texts(v);
      CompileMeansNewVersion(hs, v, n);
      TallyBalances(v, Compile(hs), n);
      TallyIsQuoted(hs, 0, 0, |v|);
    }
    var ds := new DiffState(diff, hs);
    ok, out, counts, sc := WeaveBody(body, ds, n, st);
  }
}
