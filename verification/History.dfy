/** Whole histories: create, check in, add null deltas and remove, in any order. */
module History {
  import opened Weave
  import opened DiffScript
  import opened CheckIn
  import opened Removal
  import opened SequenceState

  /** An s-file: the predecessor of every delta ever made, the deltas that are not removed, the body,
      and (for the record) the version that was checked in as each delta, with the delta that first
      brought in each line.  The record is kept without a look at the body. */
  datatype SFile = SFile(prev: map<nat, nat>, live: set<nat>, body: seq<Line>, versions: map<nat, seq<Owned>>) {
    function Version(d: nat): seq<Owned> {
      if d in versions then versions[d] else []
    }
  }

  const EMPTY := SFile(map[], {}, [], map[])

  /** A delta and its predecessors: the selection that retrieves it. */
  function Chain(prev: map<nat, nat>, d: nat): set<nat> {
    if d !in prev || prev[d] >= d then {} else {d} + Chain(prev, prev[d])
  }

  function TextLines(text: seq<string>): seq<Line> {
    if text == [] then [] else [Text(text[0])] + TextLines(text[1..])
  }

  ghost function NextSeq(h: SFile): nat {
    Top(h.prev.Keys) + 1
  }

  datatype Event =
    | Create(text: seq<string>)
    | CheckedIn(pred: nat, hs: seq<Hunk>, text: seq<string>)
    | NullDelta(pred: nat)
    | Rmdel(seqNo: nat)

  /** What the programs check before they act.  A check-in needs a valid diff from the retrieved
      predecessor to the new text; a removal needs a live delta without live successors. */
  ghost predicate Allowed(h: SFile, e: Event) {
    match e
    case Create(_) => h == EMPTY
    case CheckedIn(pred, hs, text) =>
      && pred in h.live && NextSeq(h) < SEQ_LIMIT
      && Proper(hs) && Matches(hs, GetText(h.body, Chain(h.prev, pred)))
      && text == NewText(hs, GetText(h.body, Chain(h.prev, pred)))
    case NullDelta(pred) => pred in h.live && NextSeq(h) < SEQ_LIMIT
    case Rmdel(d) => d in h.live && forall k :: k in h.live && k in h.prev ==> h.prev[k] != d
  }

  /** The version that a diff makes of another one: kept lines keep their owner, new ones belong to n. */
  function Revised(hs: seq<Hunk>, v: seq<Owned>, n: nat): seq<Owned> {
    if Matches(hs, Texts(v)) then NewVersion(hs, v, n) else []
  }

  /** The number given to the delta that an event makes. */
  ghost function Made(h: SFile, e: Event): nat {
    if e.Create? then 1 else NextSeq(h)
  }

  /** The version that an event checks in. */
  ghost function MadeVersion(h: SFile, e: Event): seq<Owned> {
    match e
    case Create(text) => Own(text, 1)
    case CheckedIn(pred, hs, _) => Revised(hs, h.Version(pred), NextSeq(h))
    case NullDelta(pred) => h.Version(pred)
    case Rmdel(_) => []
  }

  ghost function Next(h: SFile, e: Event): SFile
    requires Allowed(h, e)
  {
    match e
    case Create(text) =>
      SFile(map[1 := 0], {1}, [Ins(1)] + TextLines(text) + [End(1)], map[1 := MadeVersion(h, e)])
    case CheckedIn(pred, hs, text) =>
      var n := NextSeq(h);
      SFile(h.prev[n := pred], h.live + {n}, Woven(h.body, hs, Chain(h.prev, pred), n), h.versions[n := MadeVersion(h, e)])
    case NullDelta(pred) =>
      var n := NextSeq(h);
      SFile(h.prev[n := pred], h.live + {n}, h.body, h.versions[n := MadeVersion(h, e)])
    case Rmdel(d) =>
      var r := Remove(h.body, COPYING, d);
      if r.Removed? then h.(live := h.live - {d}, body := r.body) else h
  }

  // ---------------------------------------------------------------- ancestor chains

  /** The table: predecessors are older, and live deltas are closed under predecessor. */
  ghost predicate TableOk(prev: map<nat, nat>, live: set<nat>) {
    && (forall d :: d in prev ==> 0 < d < SEQ_LIMIT && prev[d] < d && (prev[d] == 0 || prev[d] in prev))
    && (forall d :: d in prev && prev[d] == 0 ==> d == 1)
    && live <= prev.Keys
    && (forall d :: d in live && prev[d] != 0 ==> prev[d] in live)
  }

  lemma {:induction false} ChainBounded(prev: map<nat, nat>, d: nat)
    ensures forall k :: k in Chain(prev, d) ==> k <= d && k in prev
  {
    if d in prev && prev[d] < d {
      ChainBounded(prev, prev[d]);
    }
  }

  lemma {:induction false} ChainClosed(prev: map<nat, nat>, d: nat, k: nat)
    requires k in Chain(prev, d)
    ensures Chain(prev, k) <= Chain(prev, d) && k in Chain(prev, k)
  {
    if k != d {
      ChainClosed(prev, prev[d], k);
    }
  }

  lemma {:induction false} ChainStable(prev: map<nat, nat>, n: nat, p: nat, d: nat)
    requires d < n
    ensures Chain(prev[n := p], d) == Chain(prev, d)
  {
    if d in prev && prev[d] < d {
      ChainStable(prev, n, p, prev[d]);
    }
  }

  /** Only descendants of d have d on their chain; a live one implies a live successor. */
  lemma {:induction false} ChainAvoids(prev: map<nat, nat>, live: set<nat>, k: nat, d: nat)
    requires TableOk(prev, live) && k in live && k != d
    requires forall c :: c in live ==> prev[c] != d
    ensures d !in Chain(prev, k)
  {
    assert prev[k] != d;
    if prev[k] != 0 {
      ChainAvoids(prev, live, prev[k], d);
    }
  }

  // ---------------------------------------------------------------- nesting follows ancestry

  /** A control line of delta k lies only inside inserts of k's own ancestors. */
  predicate Nested(l: Line, b: Blocks, prev: map<nat, nat>) {
    l.Text? || b.ins - {l.n} <= Chain(prev, l.n)
  }

  predicate NestedAll(body: seq<Line>, b: Blocks, prev: map<nat, nat>) {
    body == [] || (Nested(body[0], b, prev) && NestedAll(body[1..], Step(b, body[0]), prev))
  }

  /** Every open insert is an ancestor of every larger one. */
  ghost predicate Linked(b: Blocks, prev: map<nat, nat>) {
    forall i, j :: i in b.ins && j in b.ins && i < j ==> i in Chain(prev, j)
  }

  lemma {:induction false} NestedConcat(xs: seq<Line>, ys: seq<Line>, b: Blocks, prev: map<nat, nat>)
    ensures NestedAll(xs + ys, b, prev) <==> NestedAll(xs, b, prev) && NestedAll(ys, StepAll(b, xs), prev)
  {
    if xs == [] {
      assert xs + ys == ys;
    } else {
      assert (xs + ys)[1..] == xs[1..] + ys;
      NestedConcat(xs[1..], ys, Step(b, xs[0]), prev);
    }
  }

  /** Lines of n alone are nested wherever the open inserts are ancestors of n. */
  lemma {:induction false} NestedOwn(xs: seq<Line>, b: Blocks, prev: map<nat, nat>, n: nat)
    requires Numbers(xs) <= {n} && b.ins - {n} <= Chain(prev, n)
    ensures NestedAll(xs, b, prev)
  {
    if xs != [] {
      assert !xs[0].Text? ==> xs[0].n in Numbers(xs);
      NestedOwn(xs[1..], Step(b, xs[0]), prev, n);
    }
  }

  lemma VisibleLinked(b: Blocks, prev: map<nat, nat>, p: nat)
    requires Linked(b, prev) && Visible(b, Chain(prev, p))
    ensures b.ins <= Chain(prev, p)
  {
    var t := Top(b.ins);
    ChainClosed(prev, p, t);
    assert forall i :: i in b.ins ==> i in Chain(prev, t) || i == t;
  }

  lemma LinkedStep(l: Line, b: Blocks, prev: map<nat, nat>)
    requires Linked(b, prev) && Legal(l, b) && Nested(l, b, prev)
    ensures Linked(Step(b, l), prev)
  {
  }

  /** A check-in writes its control lines only inside inserts of its own ancestors. */
  lemma {:induction false} WeaveInNested(body: seq<Line>, b: Blocks, mode: Mode, sc: Script, p: nat, n: nat, prev: map<nat, nat>)
    requires Fresh(n, body, Chain(prev, p)) && Below(b, n) && !mode.InAdd?
    requires LegalAll(body, b) && NestedAll(body, b, prev) && Linked(b, prev)
    requires StepAll(b, body).ins == {}
    requires Chain(prev, p) <= Chain(prev, n)
    ensures NestedAll(WeaveIn(body, b, mode, sc, Chain(prev, p), n), With(b, mode, n), prev)
    decreases |body|
  {
    var sel := Chain(prev, p);
    var t := Settle(mode, sc, n);
    SettleReads(mode, sc, b, sel, n);
    SettleNumbers(mode, sc, n);
    if body == [] {
      NestedOwn(t.out, With(b, mode, n), prev, n);
    } else {
      FreshTail(n, body, sel, b);
      LinkedStep(body[0], b, prev);
      if body[0].Text? && Visible(b, sel) {
        VisibleLinked(b, prev, p);
        WeaveInNested(body[1..], b, t.mode, t.sc, p, n, prev);
        NestedOwn(t.out, With(b, mode, n), prev, n);
        NestedLater(t.out, body[0], WeaveIn(body[1..], b, t.mode, t.sc, sel, n), With(b, mode, n), prev);
      } else {
        var b' := Step(b, body[0]);
        StepWith(body[0], b, mode, n);
        WeaveInNested(body[1..], b', mode, sc, p, n, prev);
        assert Nested(body[0], With(b, mode, n), prev);
        NestedLater([], body[0], WeaveIn(body[1..], b', mode, sc, sel, n), With(b, mode, n), prev);
      }
    }
  }

  /** Nested lines, one more line and nested lines. */
  lemma NestedLater(xs: seq<Line>, l: Line, ys: seq<Line>, b: Blocks, prev: map<nat, nat>)
    requires NestedAll(xs, b, prev) && Nested(l, StepAll(b, xs), prev)
    requires NestedAll(ys, Step(StepAll(b, xs), l), prev)
    ensures NestedAll(xs + ([l] + ys), b, prev)
    ensures xs == [] ==> NestedAll([l] + ys, b, prev)
  {
    assert ([l] + ys)[1..] == ys;
    NestedConcat(xs, [l] + ys, b, prev);
    assert xs == [] ==> xs + ([l] + ys) == [l] + ys;
  }

  /** A removal keeps the nesting of what is left. */
  lemma {:induction false} RemoveNested(body: seq<Line>, b: Blocks, st: UpdateState, n: nat, prev: map<nat, nat>)
    requires LegalAll(body, b) && Agrees(st, b, n) && NestedAll(body, b, prev)
    requires Remove(body, st, n).Removed?
    ensures NestedAll(Remove(body, st, n).body, Without(b, n), prev)
  {
    if body != [] {
      var l, st' := body[0], NextState(st, body[0], n);
      RemoveStep(body, b, st, n);
      RemoveNested(body[1..], Step(b, l), st', n, prev);
      var r := Remove(body[1..], st', n).body;
      if !l.Text? && l.n == n {
        assert Without(Step(b, l), n) == Without(b, n);
      } else {
        assert Step(Without(b, n), l) == Without(Step(b, l), n);
        assert ([l] + r)[1..] == r;
      }
    }
  }

  /** A delta that is nobody's ancestor is terminal in the body. */
  lemma {:induction false} NestedTerminal(body: seq<Line>, b: Blocks, n: nat, prev: map<nat, nat>)
    requires NestedAll(body, b, prev)
    requires forall k :: k in Numbers(body) && k != n ==> n !in Chain(prev, k)
    ensures Terminal(body, b, n)
  {
    if body != [] {
      assert Numbers(body[1..]) <= Numbers(body);
      assert !body[0].Text? ==> body[0].n in Numbers(body);
      NestedTerminal(body[1..], Step(b, body[0]), n, prev);
    }
  }

  lemma {:induction false} NestedStable(body: seq<Line>, b: Blocks, prev: map<nat, nat>, n: nat, p: nat)
    requires NestedAll(body, b, prev) && forall k :: k in Numbers(body) ==> k < n
    ensures NestedAll(body, b, prev[n := p])
  {
    if body != [] {
      assert Numbers(body[1..]) <= Numbers(body);
      if !body[0].Text? {
        assert body[0].n in Numbers(body);
        ChainStable(prev, n, p, body[0].n);
      }
      NestedStable(body[1..], Step(b, body[0]), prev, n, p);
    }
  }

  // ---------------------------------------------------------------- the invariant

  /** Every live delta is retrieved as it was checked in, and every line is blamed on the delta that
      brought it in. */
  ghost predicate AllRetrievable(h: SFile) {
    forall d :: d in h.live ==> View(h.body, NONE_OPEN, Chain(h.prev, d)) == h.Version(d)
  }

  ghost predicate Inv(h: SFile) {
    && TableOk(h.prev, h.live)
    && h.versions.Keys == h.prev.Keys
    && Numbers(h.body) <= h.live
    && WellFormed(h.body)
    && NestedAll(h.body, NONE_OPEN, h.prev)
    && (1 in h.live ==> h.body != [] && h.body[0] == Ins(1))
    && AllRetrievable(h)
  }

  lemma {:induction false} TextLinesRead(text: seq<string>, b: Blocks, sel: set<nat>, prev: map<nat, nat>)
    requires Visible(b, sel)
    ensures StepAll(b, TextLines(text)) == b && LegalAll(TextLines(text), b) && Numbers(TextLines(text)) == {}
    ensures NestedAll(TextLines(text), b, prev)
    ensures View(TextLines(text), b, sel) == Own(text, Top(b.ins))
  {
    if text != [] {
      TextLinesRead(text[1..], b, sel, prev);
      assert TextLines(text)[1..] == TextLines(text[1..]);
    }
  }

  /** What follows `^AI 1` in a new body. */
  lemma CreatedRest(text: seq<string>, b: Blocks, prev: map<nat, nat>)
    requires b == Blocks({1}, {})
    ensures var rest := TextLines(text) + [End(1)];
            && LegalAll(rest, b) && StepAll(b, rest) == NONE_OPEN && Numbers(rest) == {1} && NestedAll(rest, b, prev)
            && View(rest, b, {1}) == Own(text, 1)
  {
    var mid := TextLines(text);
    assert Top({1}) == 1;
    TextLinesRead(text, b, {1}, prev);
    assert Step(b, End(1)) == NONE_OPEN;
    LegalConcat(mid, [End(1)], b);
    StepAllConcat(b, mid, [End(1)]);
    ViewConcat(mid, [End(1)], b, {1});
    NestedConcat(mid, [End(1)], b, prev);
    NumbersConcat(mid, [End(1)]);
    assert Numbers([End(1)]) == {1};
    assert View([End(1)], b, {1}) == [];
  }

  lemma CreatedBody(text: seq<string>, prev: map<nat, nat>)
    ensures var body := [Ins(1)] + TextLines(text) + [End(1)];
            && WellFormed(body) && Numbers(body) == {1} && NestedAll(body, NONE_OPEN, prev)
            && View(body, NONE_OPEN, {1}) == Own(text, 1)
  {
    hide TextLines, View, LegalAll, StepAll;
    var rest, body := TextLines(text) + [End(1)], [Ins(1)] + TextLines(text) + [End(1)];
    assert body == [Ins(1)] + rest && body[1..] == rest;
    assert Step(NONE_OPEN, Ins(1)) == Blocks({1}, {});
    CreatedRest(text, Blocks({1}, {}), prev);
    Peel(Ins(1), rest, NONE_OPEN, {1});
  }

  lemma CreateKeepsInv(text: seq<string>)
    ensures Inv(Next(EMPTY, Create(text)))
  {
    hide WellFormed, Numbers, NestedAll, View, TextLines;
    var h := Next(EMPTY, Create(text));
    assert Chain(h.prev, 1) == {1};
    CreatedBody(text, h.prev);
  }

  /** The number of a new delta is larger than every number in use. */
  lemma NextIsFresh(h: SFile, pred: nat)
    requires Inv(h) && pred in h.live
    ensures pred < NextSeq(h) && NextSeq(h) !in h.prev
    ensures Fresh(NextSeq(h), h.body, Chain(h.prev, pred))
    ensures forall d :: d in h.live ==> d < NextSeq(h)
  {
    var n := NextSeq(h);
    ChainBounded(h.prev, pred);
    assert forall d :: d in h.prev.Keys ==> d <= Top(h.prev.Keys);
  }

  lemma ChainOfNew(h: SFile, pred: nat)
    requires Inv(h) && pred in h.live
    ensures var n := NextSeq(h);
            && Chain(h.prev[n := pred], n) == Chain(h.prev, pred) + {n}
            && Chain(h.prev[n := pred], pred) == Chain(h.prev, pred)
            && forall d :: d in h.live ==> Chain(h.prev[n := pred], d) == Chain(h.prev, d) && n !in Chain(h.prev, d)
  {
    var n := NextSeq(h);
    NextIsFresh(h, pred);
    forall d | d in h.live
      ensures Chain(h.prev[n := pred], d) == Chain(h.prev, d) && n !in Chain(h.prev, d)
    {
      ChainStable(h.prev, n, pred, d);
      ChainBounded(h.prev, d);
    }
  }

  lemma CheckInKeepsRetrievable(h: SFile, pred: nat, hs: seq<Hunk>, text: seq<string>)
    requires Inv(h) && Allowed(h, CheckedIn(pred, hs, text))
    ensures AllRetrievable(Next(h, CheckedIn(pred, hs, text)))
  {
    var n, h' := NextSeq(h), Next(h, CheckedIn(pred, hs, text));
    var sel := Chain(h.prev, pred);
    NextIsFresh(h, pred);
    ChainOfNew(h, pred);
    CheckInCorrect(h.body, hs, sel, n);
    forall d | d in h'.live
      ensures View(h'.body, NONE_OPEN, Chain(h'.prev, d)) == h'.Version(d)
    {
      if d != n {
        NonInterference(h.body, hs, sel, n, Chain(h.prev, d));
      }
    }
  }

  lemma TableAdd(prev: map<nat, nat>, live: set<nat>, n: nat, pred: nat)
    requires TableOk(prev, live) && pred in live && pred < n < SEQ_LIMIT && n !in prev
    ensures TableOk(prev[n := pred], live + {n})
  {
  }

  lemma CheckInBody(h: SFile, pred: nat, hs: seq<Hunk>)
    requires Inv(h) && pred in h.live && Matches(hs, GetText(h.body, Chain(h.prev, pred)))
    ensures var n := NextSeq(h);
            var woven := Woven(h.body, hs, Chain(h.prev, pred), n);
            && WellFormed(woven) && NestedAll(woven, NONE_OPEN, h.prev[n := pred])
            && Numbers(woven) <= h.live + {n}
  {
    var n, sel := NextSeq(h), Chain(h.prev, pred);
    NextIsFresh(h, pred);
    ChainOfNew(h, pred);
    CheckInWellFormed(h.body, hs, sel, n);
    NestedStable(h.body, NONE_OPEN, h.prev, n, pred);
    WeaveInNested(h.body, NONE_OPEN, Out, Compile(hs), pred, n, h.prev[n := pred]);
  }

  lemma WovenStarts(body: seq<Line>, hs: seq<Hunk>, sel: set<nat>, n: nat)
    ensures body != [] && !body[0].Text? ==> Woven(body, hs, sel, n) != [] && Woven(body, hs, sel, n)[0] == body[0]
  {
  }

  lemma {:induction false} CheckInKeepsInv(h: SFile, pred: nat, hs: seq<Hunk>, text: seq<string>)
    requires Inv(h) && Allowed(h, CheckedIn(pred, hs, text))
    ensures Inv(Next(h, CheckedIn(pred, hs, text)))
  {
    hide WellFormed, NestedAll, AllRetrievable, Matches, NewText, GetText, Chain, Woven, Numbers;
    WovenStarts(h.body, hs, Chain(h.prev, pred), NextSeq(h));
    NextIsFresh(h, pred);
    TableAdd(h.prev, h.live, NextSeq(h), pred);
    CheckInKeepsRetrievable(h, pred, hs, text);
    CheckInBody(h, pred, hs);
  }

  lemma {:induction false} NullDeltaKeepsInv(h: SFile, pred: nat)
    requires Inv(h) && Allowed(h, NullDelta(pred))
    ensures Inv(Next(h, NullDelta(pred)))
  {
    var n, h' := NextSeq(h), Next(h, NullDelta(pred));
    NextIsFresh(h, pred);
    ChainOfNew(h, pred);
    TableAdd(h.prev, h.live, n, pred);
    NestedStable(h.body, NONE_OPEN, h.prev, n, pred);
    SameSelection(h.body, NONE_OPEN, Chain(h.prev, pred), Chain(h.prev, pred) + {n});
  }

  /** Selections that agree on the numbers in the body see the same version. */
  lemma {:induction false} SameSelection(body: seq<Line>, b: Blocks, sel: set<nat>, other: set<nat>)
    requires forall k :: k in Numbers(body) || k in b.ins || k in b.del ==> (k in sel <==> k in other)
    ensures View(body, b, sel) == View(body, b, other)
  {
    if body != [] {
      assert Numbers(body[1..]) <= Numbers(body);
      assert !body[0].Text? ==> body[0].n in Numbers(body);
      assert Visible(b, sel) <==> Visible(b, other);
      SameSelection(body[1..], Step(b, body[0]), sel, other);
    }
  }

  /** A delta that passes rmdel's checks can always be cut out. */
  lemma {:induction false} RmdelNeverFails(h: SFile, d: nat)
    requires Inv(h) && Allowed(h, Rmdel(d))
    ensures Terminal(h.body, NONE_OPEN, d) && Remove(h.body, COPYING, d).Removed?
    ensures forall k :: k in h.live && k != d ==> d !in Chain(h.prev, k)
  {
    forall k | k in h.live && k != d
      ensures d !in Chain(h.prev, k)
    {
      ChainAvoids(h.prev, h.live, k, d);
    }
    NestedTerminal(h.body, NONE_OPEN, d, h.prev);
    SafeRemoval(h.body, d, {});
  }

  lemma {:induction false} RmdelKeepsInv(h: SFile, d: nat)
    requires Inv(h) && Allowed(h, Rmdel(d))
    ensures Inv(Next(h, Rmdel(d)))
  {
    var h' := Next(h, Rmdel(d));
    RmdelNeverFails(h, d);
    SafeRemoval(h.body, d, {});
    RemoveNested(h.body, NONE_OPEN, COPYING, d, h.prev);
    assert Without(NONE_OPEN, d) == NONE_OPEN;
    forall k | k in h'.live
      ensures View(h'.body, NONE_OPEN, Chain(h.prev, k)) == h.Version(k)
    {
      SafeRemoval(h.body, d, Chain(h.prev, k));
    }
  }

  lemma {:induction false} NextKeepsInv(h: SFile, e: Event)
    requires Inv(h) && Allowed(h, e)
    ensures Inv(Next(h, e))
  {
    match e
    case Create(text) => CreateKeepsInv(text);
    case CheckedIn(pred, hs, text) => CheckInKeepsInv(h, pred, hs, text);
    case NullDelta(pred) => NullDeltaKeepsInv(h, pred);
    case Rmdel(d) => RmdelKeepsInv(h, d);
  }

  lemma NextRecords(h: SFile, e: Event)
    requires Inv(h) && Allowed(h, e) && !e.Rmdel?
    ensures Made(h, e) in Next(h, e).versions && Next(h, e).Version(Made(h, e)) == MadeVersion(h, e)
    ensures e.Create? || e.CheckedIn? ==> Texts(MadeVersion(h, e)) == e.text
  {
    if e.CheckedIn? {
      assert View(h.body, NONE_OPEN, Chain(h.prev, e.pred)) == h.Version(e.pred);
    }
  }

  /** Dropping all old lines and adding all new ones is a valid diff. */
  lemma WholeDiff(old_: seq<string>, text: seq<string>) returns (hs: seq<Hunk>)
    ensures Proper(hs) && Matches(hs, old_) && NewText(hs, old_) == text
  {
    hs := if old_ == [] && text == [] then [] else [Hunk(0, old_, text)];
    if hs != [] {
      assert hs[1..] == [] && old_[0..|old_|] == old_ && old_[|old_|..] == [];
      assert NewText(hs, old_) == old_[..0] + text + NewText([], []);
    }
  }

  /** Nothing stands in the way of a check-in: for every live delta and every text there is a valid diff,
      and the file that results has the text as its newest delta. */
  lemma AnyTextCanBeCheckedIn(h: SFile, pred: nat, text: seq<string>) returns (hs: seq<Hunk>)
    requires Inv(h) && pred in h.live && NextSeq(h) < 65535
    ensures Allowed(h, CheckedIn(pred, hs, text))
    ensures var h' := Next(h, CheckedIn(pred, hs, text));
            NextSeq(h) in h'.live && GetText(h'.body, Chain(h'.prev, NextSeq(h))) == text
  {
    hide Inv, Matches, NewText, Proper, View, Chain, Woven, MadeVersion;
    hs := WholeDiff(GetText(h.body, Chain(h.prev, pred)), text);
    CheckInKeepsRetrievable(h, pred, hs, text);
    NextRecords(h, CheckedIn(pred, hs, text));
  }

  // ---------------------------------------------------------------- runs

  ghost predicate Run(h: SFile, es: seq<Event>)
    decreases |es|
  {
    es == [] || (Allowed(h, es[0]) && Run(Next(h, es[0]), es[1..]))
  }

  ghost function After(h: SFile, es: seq<Event>): SFile
    requires Run(h, es)
    decreases |es|
  {
    if es == [] then h else After(Next(h, es[0]), es[1..])
  }

  /** Every reachable file satisfies the invariant. */
  lemma {:induction false} RunKeepsInv(h: SFile, es: seq<Event>)
    requires Inv(h) && Run(h, es)
    ensures Inv(After(h, es))
    decreases |es|
  {
    if es != [] {
      NextKeepsInv(h, es[0]);
      RunKeepsInv(Next(h, es[0]), es[1..]);
    }
  }

  lemma NextKeepsRecord(h: SFile, e: Event, d: nat)
    requires Inv(h) && Allowed(h, e) && d in h.versions
    ensures d in Next(h, e).versions && Next(h, e).Version(d) == h.Version(d)
  {
    if e.CheckedIn? || e.NullDelta? {
      NextIsFresh(h, e.pred);
    }
  }

  /** The record of what was checked in is never rewritten. */
  lemma {:induction false} RecordIsPermanent(h: SFile, es: seq<Event>, d: nat)
    requires Inv(h) && Run(h, es) && d in h.versions
    ensures d in After(h, es).versions && After(h, es).Version(d) == h.Version(d)
    decreases |es|
  {
    if es != [] {
      NextKeepsInv(h, es[0]);
      NextKeepsRecord(h, es[0], d);
      RecordIsPermanent(Next(h, es[0]), es[1..], d);
    }
  }

  lemma {:induction false} RunSplits(h: SFile, xs: seq<Event>, ys: seq<Event>)
    requires Run(h, xs + ys)
    ensures Run(h, xs) && Run(After(h, xs), ys) && After(h, xs + ys) == After(After(h, xs), ys)
    decreases |xs|
  {
    if xs == [] {
      assert xs + ys == ys;
    } else {
      assert (xs + ys)[1..] == xs[1..] + ys;
      RunSplits(Next(h, xs[0]), xs[1..], ys);
    }
  }

  /** The history theorem: whatever happens later, a delta that is still there is retrieved as exactly
      the text that was checked in, and every line is blamed on the delta that brought it in. */
  lemma {:induction false} HistoryTheorem(es: seq<Event>, i: nat)
    requires Run(EMPTY, es) && i < |es| && !es[i].Rmdel?
    ensures Run(EMPTY, es[..i])
    ensures var before, h := After(EMPTY, es[..i]), After(EMPTY, es);
            var d := Made(before, es[i]);
            d in h.live ==>
              && View(h.body, NONE_OPEN, Chain(h.prev, d)) == MadeVersion(before, es[i])
              && (es[i].Create? || es[i].CheckedIn? ==> GetText(h.body, Chain(h.prev, d)) == es[i].text)
  {
    hide Next, MadeVersion, View, Chain, Allowed;
    assert es == es[..i] + es[i..];
    RunSplits(EMPTY, es[..i], es[i..]);
    EmptyInv();
    RunKeepsInv(EMPTY, es[..i]);
    var h := After(EMPTY, es[..i]);
    NextKeepsInv(h, es[i]);
    NextRecords(h, es[i]);
    assert es[i..][1..] == es[i + 1..];
    RecordIsPermanent(Next(h, es[i]), es[i + 1..], Made(h, es[i]));
    RunKeepsInv(EMPTY, es);
  }

  lemma EmptyInv()
    ensures Inv(EMPTY)
  {
  }

  /** In every reachable file the live deltas are closed under predecessor, and a delta that passes
      rmdel's checks can be cut out without anyone else noticing. */
  lemma {:induction false} RmdelIsSafe(es: seq<Event>, d: nat, sel: set<nat>)
    requires Run(EMPTY, es) && Allowed(After(EMPTY, es), Rmdel(d))
    ensures var h := After(EMPTY, es);
            && (forall k :: k in h.live ==> k in h.prev && (h.prev[k] == 0 || h.prev[k] in h.live))
            && Remove(h.body, COPYING, d).Removed?
            && (d !in sel ==> View(Next(h, Rmdel(d)).body, NONE_OPEN, sel) == View(h.body, NONE_OPEN, sel))
  {
    RunKeepsInv(EMPTY, es);
    RmdelNeverFails(After(EMPTY, es), d);
    SafeRemoval(After(EMPTY, es).body, d, sel);
  }

  // ---------------------------------------------------------------- blame

  /** Every recorded line is owned by an ancestor in whose own version it stands. */
  ghost predicate Blameable(h: SFile) {
    forall d, x :: d in h.versions && x in h.versions[d] ==> Blames(h, d, x)
  }

  ghost predicate Blames(h: SFile, d: nat, x: Owned) {
    x.owner in Chain(h.prev, d) && x in h.Version(x.owner)
  }

  lemma {:induction false} OwnOwners(ls: seq<string>, n: nat)
    ensures forall x :: x in Own(ls, n) ==> x.owner == n && x.s in ls
  {
    if ls != [] {
      OwnOwners(ls[1..], n);
    }
  }

  /** The line is among those that a diff adds. */
  predicate AddsLine(hs: seq<Hunk>, s: string) {
    exists i :: 0 <= i < |hs| && s in hs[i].ins
  }

  /** A revision keeps lines of the old version or brings in its own. */
  lemma {:induction false} NewVersionOwners(hs: seq<Hunk>, v: seq<Owned>, n: nat)
    requires Matches(hs, Texts(v))
    ensures forall x :: x in NewVersion(hs, v, n) ==> x in v || (x.owner == n && AddsLine(hs, x.s))
  {
    if hs != [] {
      var k := hs[0].keep + |hs[0].del|;
      MatchesRest(hs, v);
      OwnOwners(hs[0].ins, n);
      NewVersionOwners(hs[1..], v[k..], n);
      forall s | AddsLine(hs[1..], s)
        ensures AddsLine(hs, s)
      {
        var i :| 0 <= i < |hs[1..]| && s in hs[1..][i].ins;
        assert s in hs[i + 1].ins;
      }
    }
  }

  /** The event adds the line: it is in the first text, or in the added lines of the diff. */
  predicate Brings(e: Event, s: string) {
    match e
    case Create(text) => s in text
    case CheckedIn(_, hs, _) => AddsLine(hs, s)
    case _ => false
  }

  lemma MadeOwners(h: SFile, e: Event)
    requires Allowed(h, e)
    ensures forall x :: x in MadeVersion(h, e) ==>
              (x.owner == Made(h, e) && Brings(e, x.s)) || (!e.Create? && !e.Rmdel? && x in h.Version(e.pred))
  {
    match e
    case Create(text) => OwnOwners(text, 1);
    case CheckedIn(pred, hs, _) =>
      if Matches(hs, Texts(h.Version(pred))) {
        NewVersionOwners(hs, h.Version(pred), NextSeq(h));
      }
    case _ =>
  }

  lemma NextBlameable(h: SFile, e: Event)
    requires Inv(h) && Allowed(h, e) && Blameable(h)
    ensures Blameable(Next(h, e))
  {
    hide Inv, Allowed, Woven, Remove, MadeVersion;
    var h', n := Next(h, e), Made(h, e);
    MadeOwners(h, e);
    forall d, x | d in h'.versions && x in h'.versions[d]
      ensures Blames(h', d, x)
    {
      if e.Rmdel? {
        assert Blames(h, d, x);
      } else if e.Create? {
        assert Chain(h'.prev, 1) == {1} && d == 1;
      } else {
        BlameStep(h, e, d, x);
      }
    }
  }

  lemma BlameStep(h: SFile, e: Event, d: nat, x: Owned)
    requires Inv(h) && Allowed(h, e) && Blameable(h) && (e.CheckedIn? || e.NullDelta?)
    requires d in Next(h, e).versions && x in Next(h, e).versions[d]
    ensures Blames(Next(h, e), d, x)
  {
    hide Woven, MadeVersion;
    var h', n := Next(h, e), NextSeq(h);
    NextIsFresh(h, e.pred);
    ChainOfNew(h, e.pred);
    MadeOwners(h, e);
    var from := if d == n then e.pred else d;
    if d == n && x.owner == n {
      assert n in Chain(h'.prev, n);
    } else {
      assert Blames(h, from, x);
      ChainBounded(h.prev, from);
      assert from in h.prev.Keys;
      ChainStable(h.prev, n, e.pred, from);
    }
  }

  lemma {:induction false} RunBlameable(h: SFile, es: seq<Event>)
    requires Inv(h) && Run(h, es) && Blameable(h)
    ensures Blameable(After(h, es))
    decreases |es|
  {
    if es != [] {
      NextKeepsInv(h, es[0]);
      NextBlameable(h, es[0]);
      RunBlameable(Next(h, es[0]), es[1..]);
    }
  }

  lemma {:induction false} ChainLive(prev: map<nat, nat>, live: set<nat>, d: nat)
    requires TableOk(prev, live) && d in live
    ensures Chain(prev, d) <= live
  {
    if prev[d] != 0 {
      ChainLive(prev, live, prev[d]);
    }
  }

  /** One of the events made the owner of the line, and added the line. */
  ghost predicate BroughtIn(es: seq<Event>, x: Owned) {
    exists k: nat :: k < |es| && Run(EMPTY, es[..k]) && Made(After(EMPTY, es[..k]), es[k]) == x.owner && Brings(es[k], x.s)
  }

  lemma LastEvent(es: seq<Event>)
    requires es != [] && Run(EMPTY, es)
    ensures var m := |es| - 1;
            && Run(EMPTY, es[..m]) && Allowed(After(EMPTY, es[..m]), es[m])
            && After(EMPTY, es) == Next(After(EMPTY, es[..m]), es[m])
  {
    hide Allowed, Next;
    var m := |es| - 1;
    assert es == es[..m] + [es[m]];
    RunSplits(EMPTY, es[..m], [es[m]]);
    assert [es[m]][1..] == [];
  }

  /** Every line on record was added by the event that made its owner. */
  lemma {:induction false} RecordBroughtIn(es: seq<Event>, d: nat, x: Owned)
    requires Run(EMPTY, es) && x in After(EMPTY, es).Version(d)
    ensures BroughtIn(es, x)
    decreases |es|
  {
    hide Allowed, Woven, Remove, MadeVersion, Made, Brings;
    if es != [] {
      var m := |es| - 1;
      LastEvent(es);
      var before, e := After(EMPTY, es[..m]), es[m];
      MadeOwners(before, e);
      RecordOrigin(before, e, d, x);
      if x.owner == Made(before, e) && Brings(e, x.s) {
        assert m < |es|;
      } else {
        var from :| x in before.Version(from);
        RecordBroughtIn(es[..m], from, x);
        var k: nat :| k < m && Run(EMPTY, es[..m][..k]) && Made(After(EMPTY, es[..m][..k]), es[..m][k]) == x.owner && Brings(es[..m][k], x.s);
        assert es[..m][..k] == es[..k];
      }
    }
  }

  lemma RecordOrigin(h: SFile, e: Event, d: nat, x: Owned)
    requires Allowed(h, e) && x in Next(h, e).Version(d)
    ensures (x.owner == Made(h, e) && Brings(e, x.s)) || exists from :: x in h.Version(from)
  {
    hide Woven, Brings, MadeVersion;
    MadeOwners(h, e);
    assert x in MadeVersion(h, e) || x in h.Version(d);
  }

  /** The blame theorem: in every reachable file, each line of a retrieved version is blamed on a live
      ancestor.  The line was added by the event that made that ancestor; the ancestor's own version
      shows it, and the version before it shows no line of that owner. */
  lemma {:induction false} BlameTheorem(es: seq<Event>, d: nat, x: Owned)
    requires Run(EMPTY, es)
    requires var h := After(EMPTY, es); d in h.live && x in View(h.body, NONE_OPEN, Chain(h.prev, d))
    ensures var h := After(EMPTY, es);
            && x.owner in Chain(h.prev, d) && x.owner in h.live && x.owner in h.prev
            && x in View(h.body, NONE_OPEN, Chain(h.prev, x.owner))
            && BroughtIn(es, x)
            && (forall y :: y in View(h.body, NONE_OPEN, Chain(h.prev, h.prev[x.owner])) ==> y.owner != x.owner)
  {
    hide Next, View, Allowed, BroughtIn;
    var h := After(EMPTY, es);
    EmptyInv();
    RunKeepsInv(EMPTY, es);
    RunBlameable(EMPTY, es);
    assert Blames(h, d, x);
    RecordBroughtIn(es, d, x);
    ChainLive(h.prev, h.live, d);
    OlderVersion(h, x.owner);
  }

  lemma OlderVersion(h: SFile, d: nat)
    requires Inv(h) && Blameable(h) && d in h.live
    ensures forall y :: y in View(h.body, NONE_OPEN, Chain(h.prev, h.prev[d])) ==> y.owner != d
  {
    var p := h.prev[d];
    if p == 0 {
      assert Chain(h.prev, p) == {};
      NothingSelected(h.body, NONE_OPEN);
    } else {
      assert p in h.prev.Keys;
      ChainBounded(h.prev, p);
      forall y | y in View(h.body, NONE_OPEN, Chain(h.prev, p))
        ensures y.owner != d
      {
        assert Blames(h, p, y);
      }
    }
  }

  lemma {:induction false} NothingSelected(body: seq<Line>, b: Blocks)
    ensures View(body, b, {}) == []
  {
    if body != [] {
      NothingSelected(body[1..], Step(b, body[0]));
    }
  }
}
