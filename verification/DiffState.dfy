/** The cursor over the output of `diff`, in normal format ("Diff Default Output Format", STDOUT
    section of the diff utility page in POSIX.1-2017 XCU). */
module DiffCursor {
  import opened Basics
  import opened Weave
  import opened DiffScript

  /** A line of diff output: a change command `l1[,l2]{a|d|c}l3[,l4]`, `< s`, `---` or `> s`. */
  datatype DiffLine =
    | Command(l1: int, l2: Option<int>, op: char, l3: int, l4: Option<int>)
    | OldLine(s: string)
    | Divider
    | NewLine(s: string)

  // ---------------------------------------------------------------- valid diff output

  function OldLines(ls: seq<string>, rest: seq<DiffLine>): seq<DiffLine> {
    if ls == [] then rest else [OldLine(ls[0])] + OldLines(ls[1..], rest)
  }

  function NewLines(ls: seq<string>, rest: seq<DiffLine>): seq<DiffLine> {
    if ls == [] then rest else [NewLine(ls[0])] + NewLines(ls[1..], rest)
  }

  function Upper(first: int, count: int): Option<int> {
    if count <= 1 then None else Some(first + count - 1)
  }

  /** The command for a hunk whose change comes after i old lines and o new lines. */
  function CommandFor(h: Hunk, i: nat, o: nat): DiffLine {
    if h.del == [] then Command(i, None, 'a', o + 1, Upper(o + 1, |h.ins|))
    else if h.ins == [] then Command(i + 1, Upper(i + 1, |h.del|), 'd', o, None)
    else Command(i + 1, Upper(i + 1, |h.del|), 'c', o + 1, Upper(o + 1, |h.ins|))
  }

  function Divided(ins: seq<string>, rest: seq<DiffLine>): seq<DiffLine> {
    if ins == [] then rest else [Divider] + NewLines(ins, rest)
  }

  /** The lines of a change, followed by the rest of the output. */
  function Lines(h: Hunk, rest: seq<DiffLine>): seq<DiffLine> {
    if h.del == [] then NewLines(h.ins, rest) else OldLines(h.del, Divided(h.ins, rest))
  }

  /** The diff output for a list of hunks, after i old lines and o new lines. */
  function Render(hs: seq<Hunk>, i: nat, o: nat): seq<DiffLine> {
    if hs == [] then []
    else
      var h := hs[0];
      [CommandFor(h, i + h.keep, o + h.keep)]
      + Lines(h, Render(hs[1..], i + h.keep + |h.del|, o + h.keep + |h.ins|))
  }

  // ---------------------------------------------------------------- where the cursor stands

  datatype Plan =
    | Beginning(hs: seq<Hunk>)
    | Keeping(k: nat, h: Hunk, hs: seq<Hunk>)
    | Deleting(del: seq<string>, ins: seq<string>, hs: seq<Hunk>)
    | Inserting(ins: seq<string>, hs: seq<Hunk>)
    | Finished
    | Lost  // the input is not a valid diff

  function ModeOf(p: Plan): Mode {
    match p
    case Deleting(_, _, _) => InDrop
    case Inserting(_, _) => InAdd
    case _ => Out
  }

  function ScriptOf(p: Plan): Script {
    match p
    case Beginning(hs) => Compile(hs)
    case Keeping(k, h, hs) => Keeps(k, Change(h, Compile(hs)))
    case Deleting(del, ins, hs) => Drops(|del|, Adds(ins, Cut(Compile(hs))))
    case Inserting(ins, hs) => Adds(ins, Cut(Compile(hs)))
    case _ => Done
  }

  ghost predicate PlanProper(p: Plan) {
    match p
    case Beginning(hs) => Proper(hs)
    case Keeping(_, h, hs) => (h.del != [] || h.ins != []) && Proper(hs)
    case Deleting(_, _, hs) => Proper(hs)
    case Inserting(_, hs) => Proper(hs)
    case _ => true
  }

  /** The current run of lines is used up. */
  predicate Spent(p: Plan) {
    match p
    case Beginning(_) => true
    case Keeping(k, _, _) => k == 0
    case Deleting(del, _, _) => del == []
    case Inserting(ins, _) => ins == []
    case _ => false
  }

  function StartChange(h: Hunk, hs: seq<Hunk>): Plan {
    if h.del == [] then Inserting(h.ins, hs) else Deleting(h.del, h.ins, hs)
  }

  function StartHunk(hs: seq<Hunk>): Plan {
    if hs == [] then Finished
    else if hs[0].keep > 0 then Keeping(hs[0].keep, hs[0], hs[1..])
    else StartChange(hs[0], hs[1..])
  }

  /** The run that follows a spent one. */
  function NextPlan(p: Plan): Plan
    requires Spent(p)
  {
    match p
    case Beginning(hs) => StartHunk(hs)
    case Keeping(_, h, hs) => StartChange(h, hs)
    case Deleting(_, ins, hs) => if ins != [] then Inserting(ins, hs) else StartHunk(hs)
    case Inserting(_, hs) => StartHunk(hs)
  }

  /** The hunk whose command comes next, and how many lines away it is. */
  function NextHunk(p: Plan): (Hunk, nat) {
    if p.Keeping? then (p.h, 0)
    else if p.Lost? || p.Finished? || p.hs == [] then (Hunk(0, [], []), 0)
    else (p.hs[0], p.hs[0].keep)
  }

  /** One line of a run that is not spent. */
  function Consume(p: Plan): Plan
    requires !Spent(p)
  {
    match p
    case Keeping(k, h, hs) => Keeping(k - 1, h, hs)
    case Deleting(del, ins, hs) => Deleting(del[1..], ins, hs)
    case Inserting(ins, hs) => Inserting(ins[1..], hs)
    case _ => p
  }

  function ActionOf(p: Plan): Action
    requires !Spent(p)
  {
    match p
    case Deleting(_, _, _) => Dropped
    case Inserting(ins, _) => Inserted(ins[0])
    case _ => Kept
  }

  function Marker(p: Plan, n: nat): seq<Line> {
    match p
    case Deleting(_, _, _) => [Del(n)]
    case Inserting(_, _) => [Ins(n)]
    case _ => []
  }

  lemma NextPlanMoves(p: Plan)
    requires Spent(p) && PlanProper(p)
    ensures !Spent(NextPlan(p)) && PlanProper(NextPlan(p))
  {
    var hs := p.hs;
    if hs != [] {
      assert hs[0].del != [] || hs[0].ins != [];
      assert forall i :: 0 <= i < |hs[1..]| ==> hs[1..][i] == hs[i + 1];
    }
  }

  lemma StartHunkScript(hs: seq<Hunk>)
    requires Proper(hs)
    ensures ScriptOf(StartHunk(hs)) == Compile(hs)
  {
  }

  /** The plan moves exactly as the script says. */
  lemma {:induction false} PlanFollowsScript(p: Plan, n: nat)
    requires !p.Lost? && PlanProper(p)
    ensures var t := Proc(ModeOf(p), ScriptOf(p), n);
            if Spent(p) then
              var q := NextPlan(p);
              !Spent(q) && t == Turn(Closing(ModeOf(p), n) + Marker(q, n), ActionOf(q), ModeOf(Consume(q)), ScriptOf(Consume(q)))
            else
              t == Turn([], ActionOf(p), ModeOf(Consume(p)), ScriptOf(Consume(p)))
  {
    if Spent(p) {
      NextPlanMoves(p);
      if !(p.Keeping? || (p.Deleting? && p.ins != [])) {
        StartHunkScript(p.hs);
      }
    }
  }

  // ---------------------------------------------------------------- the cursor itself

  datatype Phase = START | NOCHANGE | DELETE | INSERT | END

  function PhaseOf(p: Plan): Phase {
    match p
    case Keeping(_, _, _) => NOCHANGE
    case Deleting(_, _, _) => DELETE
    case Inserting(_, _) => INSERT
    case Finished => END
    case _ => START
  }

  /** The block of the new delta that is open in the output. */
  function ModeAt(phase: Phase): Mode {
    match phase
    case DELETE => InDrop
    case INSERT => InAdd
    case _ => Out
  }

  /** What is written between a block that was closed, or none, and a line in a phase. */
  function MarkerFrom(mode: Mode, phase: Phase, n: nat): seq<Line> {
    if mode == ModeAt(phase) then [] else if phase.INSERT? then [Ins(n)] else if phase.DELETE? then [Del(n)] else []
  }

  /** The unread input and the buffered command that belong to a plan, after i old and o new lines. */
  ghost predicate Expects(p: Plan, input: seq<DiffLine>, buffered: DiffLine, i: nat, o: nat) {
    match p
    case Beginning(hs) => input == Render(hs, i, o)
    case Keeping(k, h, hs) =>
      && buffered == CommandFor(h, i + k, o + k)
      && input == Lines(h, Render(hs, i + k + |h.del|, o + k + |h.ins|))
    case Deleting(del, ins, hs) => input == OldLines(del, Divided(ins, Render(hs, i + |del|, o + |ins|)))
    case Inserting(ins, hs) => input == NewLines(ins, Render(hs, i, o + |ins|))
    case _ => true
  }

  lemma ExpectsDivider(ins: seq<string>, hs: seq<Hunk>, input: seq<DiffLine>, buffered: DiffLine, i: nat, o: nat)
    requires ins != [] && Expects(Deleting([], ins, hs), input, buffered, i, o)
    ensures input != [] && input[0] == Divider && Expects(Inserting(ins, hs), input[1..], Divider, i, o)
  {
  }

  lemma ExpectsChange(h: Hunk, hs: seq<Hunk>, input: seq<DiffLine>, buffered: DiffLine, i: nat, o: nat)
    requires input == Lines(h, Render(hs, i + |h.del|, o + |h.ins|))
    ensures Expects(StartChange(h, hs), input, buffered, i, o)
  {
  }

  lemma ExpectsResume(p: Plan, input: seq<DiffLine>, buffered: DiffLine, i: nat, o: nat)
    requires Spent(p) && p.Keeping? && Expects(p, input, buffered, i, o)
    ensures buffered == CommandFor(p.h, i, o) && Expects(NextPlan(p), input, buffered, i, o)
  {
    hide CommandFor, Lines, Render;
    ExpectsChange(p.h, p.hs, input, buffered, i, o);
  }

  lemma ExpectsHunk(hs: seq<Hunk>, input: seq<DiffLine>, buffered: DiffLine, i: nat, o: nat)
    requires hs != []
    requires buffered == CommandFor(hs[0], i + hs[0].keep, o + hs[0].keep)
    requires input == Lines(hs[0], Render(hs[1..], i + hs[0].keep + |hs[0].del|, o + hs[0].keep + |hs[0].ins|))
    ensures Expects(StartHunk(hs), input, buffered, i, o)
  {
    hide Lines, Render, CommandFor;
    if hs[0].keep == 0 {
      ExpectsChange(hs[0], hs[1..], input, buffered, i, o);
    }
  }

  lemma ExpectsCommand(p: Plan, input: seq<DiffLine>, buffered: DiffLine, i: nat, o: nat)
    requires Spent(p) && !p.Keeping? && (p.Deleting? ==> p.ins == [])
    requires Expects(p, input, buffered, i, o)
    ensures p.hs == [] ==> input == [] && Expects(Finished, input, buffered, i, o)
    ensures p.hs != [] ==> input != [] && input[0] == CommandFor(p.hs[0], i + p.hs[0].keep, o + p.hs[0].keep)
    ensures p.hs != [] ==> Expects(StartHunk(p.hs), input[1..], input[0], i, o)
  {
    assert input == Render(p.hs, i, o);
    if p.hs != [] {
      ExpectsHunk(p.hs, input[1..], input[0], i, o);
    }
  }

  lemma ExpectsConsume(p: Plan, input: seq<DiffLine>, buffered: DiffLine, i: nat, o: nat)
    requires !Spent(p) && !p.Lost? && Expects(p, input, buffered, i, o)
    ensures p.Keeping? || p.Finished? ==> Expects(Consume(p), input, buffered, i + 1, o + 1)
    ensures p.Deleting? ==> input != [] && input[0].OldLine? && Expects(Consume(p), input[1..], input[0], i + 1, o)
    ensures p.Inserting? ==> input != [] && input[0] == NewLine(p.ins[0]) && Expects(Consume(p), input[1..], input[0], i, o + 1)
  {
    hide Render, CommandFor, Lines, Divided;
    if p.Deleting? {
      assert i + |p.del| == i + 1 + |p.del[1..]|;
    } else if p.Inserting? {
      assert o + |p.ins| == o + 1 + |p.ins[1..]|;
    } else if p.Keeping? {
      assert i + p.k == i + 1 + (p.k - 1) && o + p.k == o + 1 + (p.k - 1);
    }
  }

  function LinesLeft(p: Plan): int {
    match p
    case Keeping(k, _, _) => k
    case Deleting(del, _, _) => |del|
    case Inserting(ins, _) => |ins|
    case _ => 0
  }

  function ChangeLeft(p: Plan): int {
    match p
    case Deleting(_, ins, _) => |ins|
    case _ => 0
  }

  class DiffState {
    var phase: Phase
    var inLine: int
    var outLine: int
    var linesLeft: int
    var changeLeft: int
    var input: seq<DiffLine>
    var buffered: DiffLine
    ghost var plan: Plan

    /** Old lines dealt with so far: while inserting, the current one is still to come. */
    function Consumed(): int
      reads this
    {
      if phase.INSERT? then inLine - 1 else inLine
    }

    ghost predicate Valid()
      reads this
    {
      && 0 <= Consumed() && 0 <= outLine && 0 <= changeLeft
      && (phase.START? ==> linesLeft == 0) && (phase != END ==> 0 <= linesLeft)
      && (plan.Lost? || Tracks(plan, Consumed()))
    }

    /** The fields are those of a plan that has dealt with i old lines. */
    ghost predicate Tracks(p: Plan, i: int)
      reads this
    {
      && 0 <= i && 0 <= outLine
      && !p.Lost? && PlanProper(p)
      && phase == PhaseOf(p)
      && (!p.Finished? ==> linesLeft == LinesLeft(p) && changeLeft == ChangeLeft(p))
      && Expects(p, input, buffered, i, outLine)
    }

    constructor (diff: seq<DiffLine>, ghost hs: seq<Hunk>)
      ensures Valid() && phase.START? && inLine == 0 && outLine == 0 && input == diff
      ensures plan == if Proper(hs) && diff == Render(hs, 0, 0) then Beginning(hs) else Lost
    {
      phase, inLine, outLine, linesLeft, changeLeft := START, 0, 0, 0, 0;
      input, buffered := diff, Divider;
      plan := if Proper(hs) && diff == Render(hs, 0, 0) then Beginning(hs) else Lost;
    }

    method ReadLine() returns (ok: bool)
      modifies this`input, this`buffered
      ensures ok <==> old(input) != []
      ensures ok ==> buffered == old(input)[0] && input == old(input)[1..]
      ensures !ok ==> input == [] && buffered == old(buffered)
    {
      if input == [] {
        return false;
      }
      buffered, input := input[0], input[1..];
      return true;
    }

    /** The buffered command addresses a later old line than the current one. */
    predicate IsAhead()
      reads this
    {
      buffered.Command? && (buffered.l1 > inLine || (buffered.op == 'a' && buffered.l1 == inLine))
    }

    /** The buffered command addresses the current old line, or for an addition the one before it, and the
        next new line, or for a deletion the last one. */
    predicate IsDue()
      reads this
    {
      && buffered.Command?
      && (if buffered.op == 'a' then buffered.l1 == inLine - 1 else buffered.l1 == inLine)
      && (if buffered.op == 'd' then buffered.l3 == outLine else buffered.l3 == outLine + 1)
    }

    /** Acts on the buffered command; false when the output of diff is corrupt.  For the command
        of a hunk h that is still k lines away, it starts a run of k unchanged lines or the change. */
    method ObeyCommand(ghost h: Hunk, ghost k: nat) returns (ok: bool)
      requires 1 <= inLine && 0 <= outLine && 0 <= changeLeft
      modifies this`phase, this`linesLeft, this`changeLeft
      ensures 0 <= changeLeft
      ensures ok ==> (phase.NOCHANGE? || phase.DELETE? || phase.INSERT?) && 0 < linesLeft
      ensures ok <==> buffered.Command? && (buffered.l2.Some? ==> buffered.l2.value > buffered.l1)
                      && (IsAhead() || (IsDue() && (buffered.l4.Some? ==> buffered.l4.value > buffered.l3) && buffered.op in {'a', 'c', 'd'}))
      ensures ok && IsAhead() ==> phase == NOCHANGE && changeLeft == old(changeLeft)
                                  && linesLeft == buffered.l1 - inLine + if buffered.op == 'a' then 1 else 0
      ensures ok && !IsAhead() ==>
                var olds := if buffered.l2.Some? then buffered.l2.value - buffered.l1 + 1 else 1;
                var news := if buffered.l4.Some? then buffered.l4.value - buffered.l3 + 1 else 1;
                && (buffered.op == 'a' ==> phase == INSERT && linesLeft == news && changeLeft == old(changeLeft))
                && (buffered.op == 'd' ==> phase == DELETE && linesLeft == olds && changeLeft == old(changeLeft))
                && (buffered.op == 'c' ==> phase == DELETE && linesLeft == olds && changeLeft == news)
      ensures buffered == CommandFor(h, inLine - 1 + k, outLine + k) && (h.del != [] || h.ins != []) ==>
                var q := if k > 0 then Keeping(k, h, []) else StartChange(h, []);
                && ok && phase == PhaseOf(q) && linesLeft == LinesLeft(q)
                && changeLeft == if q.Deleting? && q.ins != [] then |q.ins| else old(changeLeft)
    {
      if !buffered.Command? {
        return false;
      }
      var line1, op, line3 := buffered.l1, buffered.op, buffered.l3;
      var line2 := if buffered.l2.Some? then buffered.l2.value else line1;
      if buffered.l2.Some? && line2 <= line1 {
        return false;
      }
      if op == 'a' {
        if line1 >= inLine {
          phase, linesLeft := NOCHANGE, line1 - inLine + 1;
          return true;
        }
        if line1 + 1 != inLine {
          return false;
        }
      } else {
        if line1 > inLine {
          phase, linesLeft := NOCHANGE, line1 - inLine;
          return true;
        }
        if line1 != inLine {
          return false;
        }
      }
      if line3 != (if op == 'd' then outLine else outLine + 1) {
        return false;
      }
      var line4 := if buffered.l4.Some? then buffered.l4.value else line3;
      if buffered.l4.Some? && line4 <= line3 {
        return false;
      }
      match op {
        case 'a' => phase, linesLeft := INSERT, line4 - line3 + 1;
        case 'd' => phase, linesLeft := DELETE, line2 - line1 + 1;
        case 'c' => phase, linesLeft, changeLeft := DELETE, line2 - line1 + 1, line4 - line3 + 1;
        case _ => return false;
      }
      return true;
    }

    /** Moves from the deleted lines of a change to the inserted ones. */
    method PassDivider() returns (ok: bool)
      requires phase == DELETE && 0 < changeLeft
      requires !plan.Lost? ==> Spent(plan) && Tracks(plan, inLine - 1)
      modifies this`phase, this`linesLeft, this`changeLeft, this`input, this`buffered, this`plan
      ensures |input| <= |old(input)| && 0 <= changeLeft
      ensures ok <==> old(input) != [] && old(input)[0] == Divider
      ensures ok ==> phase.INSERT? && 0 < linesLeft == old(changeLeft) && changeLeft == 0 && input == old(input)[1..]
      ensures old(plan).Lost? ==> plan.Lost?
      ensures !old(plan).Lost? ==> ok && plan == NextPlan(old(plan)) && Tracks(plan, inLine - 1)
    {
      hide Expects;
      if !plan.Lost? {
        ExpectsDivider(plan.ins, plan.hs, input, buffered, inLine - 1, outLine);
        plan := NextPlan(plan);
      }
      ok := ReadLine();
      if !ok || buffered != Divider {
        return false;
      }
      linesLeft, changeLeft, phase := changeLeft, 0, INSERT;
      return true;
    }

    /** Acts on the command that was kept in the buffer during a run of unchanged lines. */
    method ResumeCommand() returns (ok: bool)
      requires 1 <= inLine && 0 <= outLine && phase == NOCHANGE && 0 <= changeLeft
      requires !plan.Lost? ==> Spent(plan) && Tracks(plan, inLine - 1)
      modifies this`phase, this`linesLeft, this`changeLeft, this`plan
      ensures 0 <= changeLeft
      ensures ok ==> !phase.START? && !phase.END? && 0 < linesLeft
      ensures old(plan).Lost? ==> plan.Lost?
      ensures !old(plan).Lost? ==> ok && plan == NextPlan(old(plan)) && Tracks(plan, inLine - 1)
    {
      hide Expects, CommandFor, Lines, Render;
      ghost var p := plan;
      if !p.Lost? {
        NextPlanMoves(p);
        ExpectsResume(p, input, buffered, inLine - 1, outLine);
        plan := NextPlan(p);
      }
      ghost var next := NextHunk(p);
      ok := ObeyCommand(next.0, next.1);
    }

    /** Reads the next command and acts on it. */
    method NextCommand() returns (ok: bool)
      requires 1 <= inLine && 0 <= outLine && 0 <= changeLeft
      requires phase != END && phase != NOCHANGE && (phase == DELETE ==> changeLeft == 0)
      requires !plan.Lost? ==> Spent(plan) && Tracks(plan, inLine - 1)
      modifies this`phase, this`linesLeft, this`changeLeft, this`input, this`buffered, this`plan
      ensures |input| <= |old(input)| && 0 <= changeLeft
      ensures ok ==> !phase.START? && (phase != END ==> 0 < linesLeft)
      ensures old(plan).Lost? ==> plan.Lost?
      ensures !old(plan).Lost? ==> ok && plan == NextPlan(old(plan)) && Tracks(plan, inLine - 1)
    {
      hide Expects, CommandFor, Render;
      ghost var p := plan;
      if !p.Lost? {
        NextPlanMoves(p);
        ExpectsCommand(p, input, buffered, inLine - 1, outLine);
        plan := NextPlan(p);
      }
      ok := ReadLine();
      if !ok {
        phase := END;
        return true;
      }
      ghost var next := NextHunk(p);
      ok := ObeyCommand(next.0, next.1);
    }

    /** The next run, once the current one is spent and the current old line has been counted;
        false when the output of diff is corrupt. */
    method NextState() returns (ok: bool)
      requires 1 <= inLine && 0 <= outLine
      requires phase != END && 0 <= changeLeft
      requires !plan.Lost? ==> Spent(plan) && Tracks(plan, inLine - 1)
      modifies this`phase, this`linesLeft, this`changeLeft, this`input, this`buffered, this`plan
      ensures |input| <= |old(input)| && 0 <= changeLeft
      ensures ok ==> !phase.START? && (phase != END ==> 0 < linesLeft)
      ensures old(plan).Lost? ==> plan.Lost?
      ensures !old(plan).Lost? ==> ok && plan == NextPlan(old(plan)) && Tracks(plan, inLine - 1)
    {
      hide Expects;
      if phase == DELETE && changeLeft != 0 {
        ok := PassDivider();
      } else if phase != NOCHANGE {
        ok := NextCommand();
      } else {
        ok := ResumeCommand();
      }
    }

    /** Uses up one line of a run: the current old line, or one line to insert. */
    method TakeLine() returns (ok: bool)
      requires 1 <= inLine && 0 <= outLine && 0 <= changeLeft && !phase.START?
      requires phase != END ==> 0 < linesLeft
      requires !plan.Lost? ==> !Spent(plan) && Tracks(plan, inLine - 1)
      modifies this`linesLeft, this`outLine, this`input, this`buffered, this`plan
      ensures |input| <= |old(input)| && (phase != END ==> 0 <= linesLeft == old(linesLeft) - 1)
      ensures phase.DELETE? ==> (ok <==> old(input) != [] && old(input)[0].OldLine?)
      ensures phase.INSERT? ==> (ok <==> old(input) != [] && old(input)[0].NewLine?)
      ensures phase.NOCHANGE? || phase.END? ==> ok && input == old(input) && buffered == old(buffered)
      ensures ok && (phase.DELETE? || phase.INSERT?) ==> buffered == old(input)[0] && input == old(input)[1..]
      ensures ok ==> outLine == old(outLine) + if phase.DELETE? then 0 else 1
      ensures ok && phase.INSERT? ==> buffered.NewLine? && |input| < |old(input)|
      ensures old(plan).Lost? ==> plan.Lost?
      ensures !old(plan).Lost? ==> ok && plan == Consume(old(plan)) && Tracks(plan, if phase.INSERT? then inLine - 1 else inLine)
      ensures !old(plan).Lost? && phase.INSERT? ==> ActionOf(old(plan)) == Inserted(buffered.s)
    {
      hide Expects;
      if !plan.Lost? {
        ExpectsConsume(plan, input, buffered, inLine - 1, outLine);
        plan := Consume(plan);
      }
      if phase != END {
        linesLeft := linesLeft - 1;
      }
      if phase == DELETE {
        ok := ReadLine();
        return ok && buffered.OldLine?;
      }
      if phase == INSERT {
        ok := ReadLine();
        if !ok || !buffered.NewLine? {
          return false;
        }
      }
      outLine := outLine + 1;
      return true;
    }

    /** Counts the current old line and, if the current run is spent, closes it and opens the next. */
    method Refill(n: nat) returns (ok: bool, written: seq<Line>, ghost turned: bool)
      requires Valid()
      modifies this`phase, this`linesLeft, this`changeLeft, this`input, this`buffered, this`plan, this`inLine
      ensures |input| <= |old(input)| && inLine == old(Consumed()) + 1 && 0 <= changeLeft
      ensures ok ==> !phase.START? && (phase != END ==> 0 < linesLeft)
      ensures old(plan).Lost? ==> plan.Lost?
      ensures !old(plan).Lost? ==> ok && plan == (if Spent(old(plan)) then NextPlan(old(plan)) else old(plan))
      ensures !plan.Lost? ==> !Spent(plan) && Tracks(plan, inLine - 1)
      ensures !plan.Lost? && Spent(old(plan)) ==> written == Closing(ModeOf(old(plan)), n) + Marker(plan, n)
      ensures !plan.Lost? && !Spent(old(plan)) ==> written == []
      ensures ok && turned ==> written == Closing(ModeAt(old(phase)), n) + MarkerFrom(Out, phase, n)
      ensures ok && !turned ==> written == [] && phase == old(phase)
    {
      hide Expects;
      if !plan.Lost? && Spent(plan) {
        NextPlanMoves(plan);
      }
      written, turned := [], phase != END && linesLeft == 0;
      if phase != INSERT {
        inLine := inLine + 1;
      }
      if phase != END && linesLeft == 0 {
        if phase == DELETE || phase == INSERT {
          written := [End(n)];
        }
        ok := NextState();
        if !ok {
          return;
        }
        if phase == INSERT {
          written := written + [Ins(n)];
        } else if phase == DELETE {
          written := written + [Del(n)];
        }
      }
      ok := true;
    }

    /** Decides whether a line is inserted, deleted or left unchanged, and writes the control lines
        of n: whatever the diff, the end of the last run and the start of the next, or nothing within a run.
        On a valid diff it never fails and makes exactly the moves of the script; the counters
        always follow the old and new lines, and inserting always uses up input. */
    method Process(n: nat) returns (ok: bool, written: seq<Line>, ghost turned: bool)
      requires Valid()
      modifies this
      ensures ok ==> Valid() && !phase.START?
      ensures |input| <= |old(input)|
      ensures ok ==> Consumed() == old(Consumed()) + if phase.INSERT? then 0 else 1
      ensures ok ==> outLine == old(outLine) + if phase.DELETE? then 0 else 1
      ensures ok && phase.INSERT? ==> buffered.NewLine? && |input| < |old(input)|
      ensures ok && turned ==> written == Closing(ModeAt(old(phase)), n) + MarkerFrom(Out, phase, n)
      ensures ok && !turned ==> written == [] && phase == old(phase)
      ensures !old(plan).Lost? ==>
                var t := Proc(ModeOf(old(plan)), ScriptOf(old(plan)), n);
                && ok && !plan.Lost? && written == t.out
                && ModeOf(plan) == t.mode && ScriptOf(plan) == t.sc
                && (t.action.Dropped? <==> phase.DELETE?)
                && (t.action.Inserted? <==> phase.INSERT?)
                && (phase.INSERT? ==> t.action == Inserted(buffered.s))
    {
      if !plan.Lost? {
        PlanFollowsScript(plan, n);
      }
      ok, written, turned := Refill(n);
      if ok {
        ok := TakeLine();
      }
    }
  }
}
