/** The reader's state: which deltas are wanted, which blocks are open, and whether the
    current text line belongs to the version being read. */
module SequenceState {
  import opened Weave

  /** Sequence numbers are 16 bits wide, and a reader of a table whose highest number is the
      largest one never leaves its first loop; the highest usable number is one less. */
  const SEQ_LIMIT := 65535

  datatype OneState = OneState(
    included: bool, excluded: bool, ignored: bool,
    nonRecursive: bool, isExplicit: bool,
    active: bool, command: char)

  const INITIAL := OneState(false, false, false, false, false, false, '\0')

  /** No number carries two of the tags included, excluded and ignored. */
  predicate OneTag(s: OneState) {
    !(s.included && s.excluded) && !(s.included && s.ignored) && !(s.excluded && s.ignored)
  }

  predicate IsCommand(c: char) {
    c == 'I' || c == 'D'
  }

  /** What the table of states stands for. */
  datatype Meaning = Meaning(included: set<nat>, excluded: set<nat>, ignored: set<nat>, open: Blocks)

  ghost function MeaningOf(ss: seq<OneState>): Meaning {
    Meaning(
      (set s: nat | s < |ss| && ss[s].included),
      (set s: nat | s < |ss| && ss[s].excluded),
      (set s: nat | s < |ss| && ss[s].ignored),
      Blocks((set s: nat | s < |ss| && ss[s].active && ss[s].command == 'I'),
             (set s: nat | s < |ss| && ss[s].active && ss[s].command != 'I')))
  }

  function Put(s: set<nat>, n: nat, b: bool): set<nat> {
    if b then s + {n} else s - {n}
  }

  lemma MeaningOfUpdate(ss: seq<OneState>, n: nat, x: OneState)
    requires n < |ss|
    ensures var m := MeaningOf(ss);
            MeaningOf(ss[n := x]) == Meaning(
              Put(m.included, n, x.included), Put(m.excluded, n, x.excluded), Put(m.ignored, n, x.ignored),
              Blocks(Put(m.open.ins, n, x.active && x.command == 'I'), Put(m.open.del, n, x.active && x.command != 'I')))
  {
    var m, t := MeaningOf(ss), ss[n := x];
    var m' := MeaningOf(t);
    assert m'.included == Put(m.included, n, x.included);
    assert m'.excluded == Put(m.excluded, n, x.excluded);
    assert m'.ignored == Put(m.ignored, n, x.ignored);
    assert m'.open.ins == Put(m.open.ins, n, x.active && x.command == 'I');
    assert m'.open.del == Put(m.open.del, n, x.active && x.command != 'I');
  }

  class SeqState {
    const states: array<OneState>
    var activeSeq: nat
    var inserting: bool

    ghost predicate Valid()
      reads this, states
    {
      && 0 < states.Length <= SEQ_LIMIT
      && (forall s :: 0 <= s < states.Length ==> OneTag(states[s]))
      && (forall s :: 0 <= s < states.Length && states[s].active ==> IsCommand(states[s].command))
    }

    ghost function Sense(): Meaning
      reads this, states
    {
      MeaningOf(states[..])
    }

    /** The flag and the blamed delta are up to date. */
    ghost predicate Settled()
      reads this, states
    {
      && (inserting <==> Visible(Sense().open, Sense().included))
      && (inserting ==> activeSeq == Top(Sense().open.ins))
    }

    constructor (last: nat)
      requires last < 65535
      ensures Valid() && Settled() && fresh(states) && states.Length == last + 1
      ensures Sense() == Meaning({}, {}, {}, NONE_OPEN)
    {
      states := new OneState[last + 1](i => INITIAL);
      activeSeq, inserting := 0, false;
      new;
      DecideDisposition();
    }

    constructor Copy(s: SeqState)
      requires s.Valid()
      ensures Valid() && Settled() && fresh(states) && states.Length == s.states.Length
      ensures Sense() == s.Sense()
    {
      var from := s.states;
      states := new OneState[from.Length](i requires 0 <= i < from.Length reads from => from[i]);
      activeSeq, inserting := s.activeSeq, false;
      new;
      assert states[..] == s.states[..];
      DecideDisposition();
    }

    /** One pass over the table: the highest active insert that is selected, the highest that is
        not, and the highest active delete that is selected. */
    method RunningMaxima() returns (ourInsert: nat, owner: nat, ourDelete: nat)
      requires Valid()
      ensures ourInsert == Top(Sense().open.ins * Sense().included)
      ensures owner == Top(Sense().open.ins - Sense().included)
      ensures ourDelete == Top(Sense().open.del * Sense().included)
    {
      ghost var ss := states[..];
      ourInsert, owner, ourDelete := 0, 0, 0;
      for s := 0 to states.Length
        invariant ourInsert == Highest(ss, s, true, true)
        invariant owner == Highest(ss, s, true, false)
        invariant ourDelete == Highest(ss, s, false, true)
      {
        var current := states[s];
        if current.active {
          if current.command == 'I' {
            if current.included {
              if ourInsert < s { ourInsert := s; }
            } else {
              if owner < s { owner := s; }
            }
          } else if current.included {
            if ourDelete < s { ourDelete := s; }
          }
        }
      }
      HighestIsTop(ss, |ss|);
    }

    /** The flag comes out as "the innermost open insert is selected and no selected delta with
        a larger number has an open delete". */
    method DecideDisposition()
      requires Valid()
      modifies this`activeSeq, this`inserting
      ensures Valid() && Settled()
    {
      var ourHighestInsert, ownerOfCurrentInsertion, ourHighestDelete := RunningMaxima();
      DispositionIsVisibility(Sense().open, Sense().included);
      if ourHighestDelete > ourHighestInsert {
        inserting := false;
      } else if ourHighestInsert > ownerOfCurrentInsertion {
        activeSeq := ourHighestInsert;
        inserting := !states[activeSeq].ignored;
      } else {
        inserting := false;
      }
    }

    method SetState(n: nat, x: OneState)
      requires Valid() && n < states.Length && OneTag(x) && (x.active ==> IsCommand(x.command))
      modifies states
      ensures Valid() && states[..] == old(states[..])[n := x]
    {
      states[n] := x;
    }

    /** `^AI` or `^AD`: fails, and changes nothing, on a bad letter, a number out of range or one
        that is already active. */
    method Start(seqNo: nat, letter: char) returns (ok: bool)
      requires Valid() && Settled()
      modifies this`activeSeq, this`inserting, states
      ensures Valid() && Settled()
      ensures ok <==> (letter == 'I' || letter == 'D') && seqNo < states.Length
                      && seqNo !in old(Sense()).open.ins && seqNo !in old(Sense()).open.del
      ensures Sense() == if ok then old(Sense()).(open := Step(old(Sense()).open, if letter == 'I' then Ins(seqNo) else Del(seqNo)))
                         else old(Sense())
    {
      if !IsCommand(letter) || seqNo >= states.Length || states[seqNo].active {
        return false;
      }
      MeaningOfUpdate(states[..], seqNo, states[seqNo].(active := true, command := letter));
      SetState(seqNo, states[seqNo].(active := true, command := letter));
      DecideDisposition();
      return true;
    }

    /** `^AE`: fails, and changes nothing, on a number out of range or one that is not active. */
    method End(seqNo: nat) returns (ok: bool)
      requires Valid() && Settled()
      modifies this`activeSeq, this`inserting, states
      ensures Valid() && Settled()
      ensures ok <==> seqNo in old(Sense()).open.ins || seqNo in old(Sense()).open.del
      ensures Sense() == if ok then old(Sense()).(open := Step(old(Sense()).open, Line.End(seqNo))) else old(Sense())
    {
      if seqNo >= states.Length || !states[seqNo].active {
        return false;
      }
      MeaningOfUpdate(states[..], seqNo, states[seqNo].(active := false, command := '\0'));
      SetState(seqNo, states[seqNo].(active := false, command := '\0'));
      DecideDisposition();
      return true;
    }

    // -------------------------------------------------------------- tagging

    method SetIncluded(n: nat, nonRecursive: bool)
      requires Valid() && n < states.Length
      modifies states
      ensures Valid()
      ensures var m := old(Sense());
              Sense() == Meaning(m.included + {n}, m.excluded - {n}, m.ignored - {n}, m.open)
    {
      var x := states[n].(included := true, ignored := false, excluded := false, nonRecursive := nonRecursive);
      MeaningOfUpdate(states[..], n, x);
      SetState(n, x);
    }

    method SetExcluded(n: nat)
      requires Valid() && n < states.Length
      modifies states
      ensures Valid()
      ensures var m := old(Sense());
              Sense() == Meaning(m.included - {n}, m.excluded + {n}, m.ignored - {n}, m.open)
    {
      var x := states[n].(excluded := true, included := false, ignored := false);
      MeaningOfUpdate(states[..], n, x);
      SetState(n, x);
    }

    method SetIgnored(n: nat)
      requires Valid() && n < states.Length
      modifies states
      ensures Valid()
      ensures var m := old(Sense());
              Sense() == Meaning(m.included - {n}, m.excluded - {n}, m.ignored + {n}, m.open)
    {
      var x := states[n].(ignored := true, included := false, excluded := false, nonRecursive := true);
      MeaningOfUpdate(states[..], n, x);
      SetState(n, x);
    }
  }

  // ---------------------------------------------------------------- the disposition

  /** The active numbers below s: inserts or deletes, selected or not. */
  ghost function Upto(ss: seq<OneState>, s: nat, insert: bool, included: bool): set<nat>
    requires s <= |ss|
  {
    set i: nat | i < s && Counted(ss[i], insert, included)
  }

  predicate Counted(x: OneState, insert: bool, included: bool) {
    x.active && (x.command == 'I') == insert && x.included == included
  }

  /** The running maximum after looking at the numbers below s. */
  function Highest(ss: seq<OneState>, s: nat, insert: bool, included: bool): (h: nat)
    requires s <= |ss|
    ensures h == 0 || h < s
  {
    if s == 0 then 0
    else if Counted(ss[s - 1], insert, included) then s - 1
    else Highest(ss, s - 1, insert, included)
  }

  lemma {:induction false} HighestIsTopOfUpto(ss: seq<OneState>, s: nat, insert: bool, included: bool)
    requires s <= |ss|
    ensures Highest(ss, s, insert, included) == Top(Upto(ss, s, insert, included))
  {
    hide Top, Counted;
    if s > 0 {
      HighestIsTopOfUpto(ss, s - 1, insert, included);
      var before, after := Upto(ss, s - 1, insert, included), Upto(ss, s, insert, included);
      if Counted(ss[s - 1], insert, included) {
        assert s - 1 in after;
      } else {
        assert after == before;
      }
    }
  }

  lemma HighestIsTop(ss: seq<OneState>, s: nat)
    requires s == |ss|
    ensures var m := MeaningOf(ss);
            && Highest(ss, s, true, true) == Top(m.open.ins * m.included)
            && Highest(ss, s, true, false) == Top(m.open.ins - m.included)
            && Highest(ss, s, false, true) == Top(m.open.del * m.included)
  {
    HighestIsTopOfUpto(ss, s, true, true);
    HighestIsTopOfUpto(ss, s, true, false);
    HighestIsTopOfUpto(ss, s, false, true);
    UptoAll(ss);
  }

  lemma UptoAll(ss: seq<OneState>)
    ensures var m := MeaningOf(ss);
            && Upto(ss, |ss|, true, true) == m.open.ins * m.included
            && Upto(ss, |ss|, true, false) == m.open.ins - m.included
            && Upto(ss, |ss|, false, true) == m.open.del * m.included
  {
  }

  /** The three maxima taken together amount to visibility. */
  lemma DispositionIsVisibility(b: Blocks, sel: set<nat>)
    ensures var hi, owner, hd := Top(b.ins * sel), Top(b.ins - sel), Top(b.del * sel);
            && (Visible(b, sel) <==> hd <= hi && owner < hi)
            && (owner < hi ==> Top(b.ins) == hi && hi in sel && hi in b.ins)
  {
    var hi, owner, hd := Top(b.ins * sel), Top(b.ins - sel), Top(b.del * sel);
    forall k | k in b.ins
      ensures k <= hi || k <= owner
    {
      assert k in b.ins * sel || k in b.ins - sel;
    }
    assert b.ins * sel != {} ==> hi in b.ins && hi in sel;
    assert b.ins - sel != {} ==> owner in b.ins && owner !in sel;
    assert b.del * sel != {} ==> hd in b.del && hd in sel;
    assert forall d :: d in b.del && d in sel ==> d in b.del * sel;
  }
}
