/** The interleaved body of an s-file: what its lines mean to a reader.

    A body is a sequence of text lines and control lines `^AI n`, `^AD n`, `^AE n`.
    A reader keeps the blocks that are open and shows the text lines that a chosen
    set of deltas can see.
 */
module Weave {

  datatype Line = Text(s: string) | Ins(n: nat) | Del(n: nat) | End(n: nat)

  /** A line of a retrieved version together with the delta that inserted it. */
  datatype Owned = Owned(owner: nat, s: string)

  /** The sequence numbers with an open insert block, and those with an open delete block. */
  datatype Blocks = Blocks(ins: set<nat>, del: set<nat>)

  const NONE_OPEN := Blocks({}, {})

  /** The open blocks after reading one line. */
  function Step(b: Blocks, l: Line): Blocks {
    match l
    case Text(_) => b
    case Ins(n) => b.(ins := b.ins + {n})
    case Del(n) => b.(del := b.del + {n})
    case End(n) => Blocks(b.ins - {n}, b.del - {n})
  }

  function StepAll(b: Blocks, body: seq<Line>): Blocks
    decreases |body|
  {
    if body == [] then b else StepAll(Step(b, body[0]), body[1..])
  }

  /** The largest element, and 0 for the empty set. */
  ghost function Top(s: set<nat>): (t: nat)
    ensures s == {} ==> t == 0
    ensures s != {} ==> t in s
    ensures forall x :: x in s ==> x <= t
  {
    if s == {} then 0
    else
      var x :| x in s;
      assert s == {x} + (s - {x});
      var t := Top(s - {x});
      if t < x then x else t
  }

  /** A text line is visible to a selection when the innermost open insert belongs to it
      and no selected delta with a larger number has an open delete. */
  ghost predicate Visible(b: Blocks, sel: set<nat>) {
    && 0 < Top(b.ins)
    && Top(b.ins) in sel
    && forall d :: d in b.del && d in sel ==> d <= Top(b.ins)
  }

  /** The version seen by a selection: its visible lines, each with its owner. */
  ghost function View(body: seq<Line>, b: Blocks, sel: set<nat>): seq<Owned> {
    if body == [] then []
    else if body[0].Text? && Visible(b, sel) then
      [Owned(Top(b.ins), body[0].s)] + View(body[1..], b, sel)
    else
      View(body[1..], Step(b, body[0]), sel)
  }

  function Texts(v: seq<Owned>): (t: seq<string>)
    ensures |t| == |v|
    ensures forall i :: 0 <= i < |v| ==> t[i] == v[i].s
  {
    seq(|v|, i requires 0 <= i < |v| => v[i].s)
  }

  /** The text retrieved from a whole body. */
  ghost function GetText(body: seq<Line>, sel: set<nat>): seq<string> {
    Texts(View(body, NONE_OPEN, sel))
  }

  // ---------------------------------------------------------------- well-formed bodies

  /** A line a reader accepts: no number is opened while active, none is ended while idle. */
  predicate Readable(l: Line, b: Blocks, last: nat) {
    match l
    case Text(_) => true
    case Ins(n) => 1 <= n <= last && n !in b.ins && n !in b.del
    case Del(n) => 1 <= n <= last && n !in b.ins && n !in b.del
    case End(n) => 1 <= n <= last && (n in b.ins || n in b.del)
  }

  predicate ReadableAll(body: seq<Line>, b: Blocks, last: nat) {
    body == [] || (Readable(body[0], b, last) && ReadableAll(body[1..], Step(b, body[0]), last))
  }

  /** The weave discipline for one line: readable, and inserts open only inside inserts with
      smaller numbers and close innermost first. */
  ghost predicate Legal(l: Line, b: Blocks) {
    match l
    case Text(_) => true
    case Ins(n) => 0 < n && n !in b.ins && n !in b.del && Top(b.ins) < n
    case Del(n) => 0 < n && n !in b.ins && n !in b.del
    case End(n) => n in b.del || (n in b.ins && n == Top(b.ins))
  }

  ghost predicate LegalAll(body: seq<Line>, b: Blocks) {
    body == [] || (Legal(body[0], b) && LegalAll(body[1..], Step(b, body[0])))
  }

  /** A well-formed body: every line legal and every block closed. */
  ghost predicate WellFormed(body: seq<Line>) {
    LegalAll(body, NONE_OPEN) && StepAll(NONE_OPEN, body) == NONE_OPEN
  }

  /** The numbers on the control lines of a body. */
  function Numbers(body: seq<Line>): set<nat> {
    if body == [] then {}
    else (if body[0].Text? then {} else {body[0].n}) + Numbers(body[1..])
  }

  ghost predicate Below(b: Blocks, n: nat) {
    forall k :: k in b.ins || k in b.del ==> 0 < k < n
  }

  // ---------------------------------------------------------------- splitting a body

  lemma {:induction false} StepAllConcat(b: Blocks, xs: seq<Line>, ys: seq<Line>)
    ensures StepAll(b, xs + ys) == StepAll(StepAll(b, xs), ys)
    decreases |xs|
  {
    if xs == [] {
      assert xs + ys == ys;
    } else {
      assert (xs + ys)[1..] == xs[1..] + ys;
      StepAllConcat(Step(b, xs[0]), xs[1..], ys);
    }
  }

  lemma {:induction false} ViewConcat(xs: seq<Line>, ys: seq<Line>, b: Blocks, sel: set<nat>)
    ensures View(xs + ys, b, sel) == View(xs, b, sel) + View(ys, StepAll(b, xs), sel)
  {
    if xs == [] {
      assert xs + ys == ys;
    } else {
      assert (xs + ys)[1..] == xs[1..] + ys;
      ViewConcat(xs[1..], ys, Step(b, xs[0]), sel);
    }
  }

  lemma {:induction false} LegalConcat(xs: seq<Line>, ys: seq<Line>, b: Blocks)
    ensures LegalAll(xs + ys, b) <==> LegalAll(xs, b) && LegalAll(ys, StepAll(b, xs))
  {
    if xs == [] {
      assert xs + ys == ys;
    } else {
      assert (xs + ys)[1..] == xs[1..] + ys;
      LegalConcat(xs[1..], ys, Step(b, xs[0]));
    }
  }

  lemma {:induction false} NumbersConcat(xs: seq<Line>, ys: seq<Line>)
    ensures Numbers(xs + ys) == Numbers(xs) + Numbers(ys)
  {
    if xs == [] {
      assert xs + ys == ys;
    } else {
      assert (xs + ys)[1..] == xs[1..] + ys;
      NumbersConcat(xs[1..], ys);
    }
  }

  lemma TextsConcat(xs: seq<Owned>, ys: seq<Owned>)
    ensures Texts(xs + ys) == Texts(xs) + Texts(ys)
  {
  }

  /** Every well-formed body can be re-read: start and end never fail on it. */
  lemma {:induction false} LegalIsReadable(body: seq<Line>, b: Blocks, last: nat)
    requires LegalAll(body, b)
    requires forall k :: k in Numbers(body) ==> k <= last
    requires forall k :: k in b.ins || k in b.del ==> 0 < k
    ensures ReadableAll(body, b, last)
  {
    if body != [] {
      assert Numbers(body[1..]) <= Numbers(body);
      assert !body[0].Text? ==> body[0].n in Numbers(body);
      LegalIsReadable(body[1..], Step(b, body[0]), last);
    }
  }

  // ---------------------------------------------------------------- nesting order

  /** The open inserts in the order in which they were opened. */
  function Nesting(stack: seq<nat>, body: seq<Line>): seq<nat>
    decreases |body|
  {
    if body == [] then stack
    else match body[0]
      case Ins(n) => Nesting(stack + [n], body[1..])
      case End(n) =>
        Nesting(if stack != [] && stack[|stack| - 1] == n then stack[..|stack| - 1] else stack, body[1..])
      case _ => Nesting(stack, body[1..])
  }

  ghost predicate Stacked(stack: seq<nat>, ins: set<nat>) {
    && (forall i :: 0 <= i < |stack| ==> stack[i] in ins)
    && (forall k :: k in ins ==> k in stack)
    && (forall i, j :: 0 <= i < j < |stack| ==> stack[i] < stack[j])
    && (forall i :: 0 <= i < |stack| ==> 0 < stack[i])
  }

  function Innermost(stack: seq<nat>): nat {
    if stack == [] then 0 else stack[|stack| - 1]
  }

  lemma StackedTop(stack: seq<nat>, ins: set<nat>)
    requires Stacked(stack, ins)
    ensures Top(ins) == Innermost(stack)
  {
    if stack != [] {
      assert stack[|stack| - 1] in ins;
      assert Top(ins) in stack;
    }
  }

  lemma StackedPop(stack: seq<nat>, ins: set<nat>)
    requires Stacked(stack, ins) && stack != []
    ensures Stacked(stack[..|stack| - 1], ins - {Innermost(stack)})
  {
    forall k | k in ins - {Innermost(stack)}
      ensures k in stack[..|stack| - 1]
    {
      var i :| 0 <= i < |stack| && stack[i] == k;
      assert stack[..|stack| - 1][i] == k;
    }
  }

  /** In a legal body the largest open insert is the innermost one. */
  lemma {:induction false} InnermostIsTop(stack: seq<nat>, body: seq<Line>, b: Blocks)
    requires LegalAll(body, b) && Stacked(stack, b.ins) && b.ins !! b.del
    ensures Stacked(Nesting(stack, body), StepAll(b, body).ins)
    ensures Top(StepAll(b, body).ins) == Innermost(Nesting(stack, body))
    decreases |body|
  {
    StackedTop(stack, b.ins);
    if body != [] {
      var b' := Step(b, body[0]);
      match body[0]
      case Ins(n) =>
        InnermostIsTop(stack + [n], body[1..], b');
      case End(n) =>
        if n in b.ins {
          StackedPop(stack, b.ins);
          InnermostIsTop(stack[..|stack| - 1], body[1..], b');
        } else {
          assert b'.ins == b.ins;
          InnermostIsTop(stack, body[1..], b');
        }
      case _ =>
        InnermostIsTop(stack, body[1..], b');
    }
  }

  /** The disposition rule, line by line: a text line of a legal body is shown exactly when the innermost
      open insert is selected and no selected delta with a larger number has an open delete; the line
      then belongs to that insert. */
  lemma DispositionRule(body: seq<Line>, i: nat, sel: set<nat>)
    requires LegalAll(body, NONE_OPEN) && i < |body| && body[i].Text?
    ensures var b, owner := StepAll(NONE_OPEN, body[..i]), Innermost(Nesting([], body[..i]));
            View(body, NONE_OPEN, sel)
            == View(body[..i], NONE_OPEN, sel)
             + (if 0 < owner && owner in sel && forall d :: d in b.del && d in sel ==> d <= owner
                then [Owned(owner, body[i].s)] else [])
             + View(body[i + 1..], b, sel)
  {
    hide View, LegalAll, Stacked, Nesting;
    var b, before, after := StepAll(NONE_OPEN, body[..i]), body[..i], body[i + 1..];
    assert body == before + ([body[i]] + after);
    LegalConcat(before, [body[i]] + after, NONE_OPEN);
    NothingStacked();
    InnermostIsTop([], before, NONE_OPEN);
    ViewConcat(before, [body[i]] + after, NONE_OPEN, sel);
    ViewOfText(body[i], after, b, sel);
    var shown := if Visible(b, sel) then [Owned(Top(b.ins), body[i].s)] else [];
    assert View(before, NONE_OPEN, sel) + (shown + View(after, b, sel)) == View(before, NONE_OPEN, sel) + shown + View(after, b, sel);
  }

  lemma NothingStacked()
    ensures Stacked([], NONE_OPEN.ins)
  {
  }

  lemma ViewOfText(l: Line, rest: seq<Line>, b: Blocks, sel: set<nat>)
    requires l.Text?
    ensures View([l] + rest, b, sel) == (if Visible(b, sel) then [Owned(Top(b.ins), l.s)] else []) + View(rest, b, sel)
  {
    assert ([l] + rest)[1..] == rest;
  }
}
