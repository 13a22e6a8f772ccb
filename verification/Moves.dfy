/** The moves that a check-in makes, whatever the diff says. */
module Moves {
  import opened Basics
  import opened Weave
  import opened DiffScript

  datatype Move = OneKeep | OneDrop | OneAdd(s: string) | OneCut

  /** The script that makes these moves and then goes on. */
  function Then(ms: seq<Move>, r: Script): Script {
    if ms == [] then r
    else match ms[0]
      case OneKeep => Keep(Then(ms[1..], r))
      case OneDrop => Drop(Then(ms[1..], r))
      case OneAdd(s) => Add(s, Then(ms[1..], r))
      case OneCut => Cut(Then(ms[1..], r))
  }

  lemma {:induction false} ThenConcat(xs: seq<Move>, ys: seq<Move>, r: Script)
    ensures Then(xs + ys, r) == Then(xs, Then(ys, r))
  {
    if xs == [] {
      assert xs + ys == ys;
    } else {
      assert (xs + ys)[1..] == xs[1..] + ys;
      ThenConcat(xs[1..], ys, r);
    }
  }

  /** The moves that come before the verdict on an old line. */
  predicate IsLead(ms: seq<Move>) {
    forall i :: 0 <= i < |ms| ==> ms[i].OneAdd? || ms[i].OneCut?
  }

  function AddCount(ms: seq<Move>): nat {
    if ms == [] then 0 else (if ms[0].OneAdd? then 1 else 0) + AddCount(ms[1..])
  }

  function VerdictMove(drop: bool): Move {
    if drop then OneDrop else OneKeep
  }

  function Verdict(drop: bool, r: Script): Script {
    if drop then Drop(r) else Keep(r)
  }

  lemma {:induction false} AddCountConcat(xs: seq<Move>, ys: seq<Move>)
    ensures AddCount(xs + ys) == AddCount(xs) + AddCount(ys)
  {
    if xs == [] {
      assert xs + ys == ys;
    } else {
      assert (xs + ys)[1..] == xs[1..] + ys;
      AddCountConcat(xs[1..], ys);
    }
  }

  /** What a lead and a verdict write does not depend on what follows. */
  lemma {:induction false} SettleVerdict(mode: Mode, lead: seq<Move>, drop: bool, r: Script, n: nat)
    requires IsLead(lead)
    ensures var t := Settle(mode, Then(lead, Verdict(drop, Done)), n);
            && Settle(mode, Then(lead, Verdict(drop, r)), n) == t.(sc := r)
            && t.mode == (if drop then InDrop else Out) && t.action == (if drop then Dropped else Kept)
            && (!drop ==> Settle(mode, Then(lead, Done), n).out == t.out)
    decreases |lead|
  {
    if lead != [] {
      SettleVerdict(if lead[0].OneAdd? then InAdd else Out, lead[1..], drop, r, n);
    }
  }

  /** Lead and verdict use up one old line. */
  lemma {:induction false} LeadCounts(lead: seq<Move>, drop: bool, r: Script, m: nat)
    requires IsLead(lead)
    ensures Fits(Then(lead, Verdict(drop, r)), m + 1) <==> Fits(r, m)
    ensures EndsOpen(Then(lead, Verdict(drop, r)), m + 1) <==> EndsOpen(r, m)
    ensures Fits(r, m) ==>
              var c := Tally(r, m);
              Tally(Then(lead, Verdict(drop, r)), m + 1)
              == Counts(AddCount(lead) + c.inserted, (if drop then 1 else 0) + c.deleted, (if drop then 0 else 1) + c.same)
    decreases |lead|
  {
    if lead != [] {
      LeadCounts(lead[1..], drop, r, m);
    }
  }

  /** At the end of the old text the script fits unless its verdict is to delete. */
  lemma {:induction false} LeadAtEnd(lead: seq<Move>)
    requires IsLead(lead)
    ensures Fits(Then(lead, Done), 0) && Tally(Then(lead, Done), 0) == Counts(AddCount(lead), 0, 0)
    ensures EndsOpen(Then(lead, Drop(Done)), 0) && !Fits(Then(lead, Drop(Done)), 0)
    decreases |lead|
  {
    if lead != [] {
      LeadAtEnd(lead[1..]);
    }
  }

  /** Making the moves in one mode writes these lines and goes on in another mode. */
  ghost predicate Led(mode: Mode, ms: seq<Move>, out: seq<Line>, mode': Mode, n: nat) {
    forall r :: Settle(mode, Then(ms, r), n) == Before(out, Settle(mode', r, n))
  }

  function Before(out: seq<Line>, t: Turn): Turn {
    t.(out := out + t.out)
  }

  lemma LedNothing(mode: Mode, n: nat)
    ensures Led(mode, [], [], mode, n)
  {
    forall r
      ensures Settle(mode, Then([], r), n) == Before([], Settle(mode, r, n))
    {
      assert [] + Settle(mode, r, n).out == Settle(mode, r, n).out;
    }
  }

  lemma LedOn(mode: Mode, xs: seq<Move>, a: seq<Line>, mode': Mode, ys: seq<Move>, b: seq<Line>, mode'': Mode, n: nat)
    requires Led(mode, xs, a, mode', n) && Led(mode', ys, b, mode'', n)
    ensures Led(mode, xs + ys, a + b, mode'', n)
  {
    forall r
      ensures Settle(mode, Then(xs + ys, r), n) == Before(a + b, Settle(mode'', r, n))
    {
      ThenConcat(xs, ys, r);
      ConcatAssoc(a, b, Settle(mode'', r, n).out);
    }
  }

  lemma OneMove(m: Move, r: Script)
    ensures Then([m], r) == match m
                            case OneKeep => Keep(r)
                            case OneDrop => Drop(r)
                            case OneAdd(s) => Add(s, r)
                            case OneCut => Cut(r)
  {
    assert [m][1..] == [];
  }

  lemma SettleCut(mode: Mode, r: Script, n: nat)
    ensures Settle(mode, Cut(r), n) == Before(Closing(mode, n), Settle(Out, r, n))
  {
  }

  lemma LedCut(mode: Mode, n: nat)
    ensures Led(mode, [OneCut], Closing(mode, n), Out, n)
  {
    hide Closing;
    forall r
      ensures Settle(mode, Then([OneCut], r), n) == Before(Closing(mode, n), Settle(Out, r, n))
    {
      OneMove(OneCut, r);
      SettleCut(mode, r, n);
    }
  }

  lemma LedAdd(mode: Mode, s: string, n: nat)
    requires !mode.InDrop?
    ensures Led(mode, [OneAdd(s)], (if mode.InAdd? then [] else [Ins(n)]) + [Text(s)], InAdd, n)
  {
    var out := (if mode.InAdd? then [] else [Ins(n)]) + [Text(s)];
    forall r
      ensures Settle(mode, Then([OneAdd(s)], r), n) == Before(out, Settle(InAdd, r, n))
    {
      OneMove(OneAdd(s), r);
      assert [] + [Ins(n)] == [Ins(n)];
    }
  }
}
