/** SCCS identification strings: release.level[.branch.sequence]. */
module Sids {

  datatype Sid = Sid(rel: int, level: int, branch: int, sequence: int) {
    predicate IsNull() { rel <= 0 }

    predicate Valid() { rel > 0 }

    function Components(): nat {
      if rel <= 0 then 0
      else if level == 0 then 1
      else if branch == 0 then 2
      else if sequence == 0 then 3
      else 4
    }

    predicate OnTrunk() { Components() == 2 }

    predicate PartialSid() { level == 0 || (branch != 0 && sequence == 0) }

    predicate ReleaseOnly() { rel != 0 && level == 0 }

    /** Comparable as the code has it: on a branch, a different release or a different level alone
        does not make two SIDs incomparable. */
    predicate Comparable(o: Sid) {
      && Valid() && o.Valid()
      && branch == o.branch
      && !(branch != 0 && rel != o.rel && level != o.level)
    }

    predicate Gt(o: Sid) {
      if rel != o.rel then rel > o.rel
      else if level != o.level then level > o.level
      else sequence > o.sequence
    }

    predicate Gte(o: Sid) {
      if rel != o.rel then rel > o.rel
      else if level != o.level then level > o.level
      else sequence >= o.sequence
    }

    predicate Above(o: Sid) { Comparable(o) && Gt(o) }

    predicate Below(o: Sid) { Comparable(o) && !Gte(o) }

    predicate AtMost(o: Sid) { Comparable(o) && !Gt(o) }

    function NextBranch(): Sid { Sid(rel, level, branch + 1, 1) }

    function NextLevel(): Sid { Sid(rel, level + 1, 0, 0) }

    function Succ(): Sid {
      if branch != 0 then this.(sequence := sequence + 1)
      else if level != 0 then this.(level := level + 1)
      else this.(rel := rel + 1)
    }

    function Pred(): Sid {
      if branch != 0 then this.(sequence := sequence - 1)
      else if level != 0 then this.(level := level - 1)
      else this.(rel := rel - 1)
    }
  }

  predicate FitsShort(n: int) { 0 <= n < 32768 }

  /** Release, level and number on the branch compare like the digits of a number; the branch itself does
      not take part. */
  lemma OrderIsNumeric(x: Sid, y: Sid)
    requires FitsShort(x.rel) && FitsShort(x.level) && FitsShort(x.sequence) && FitsShort(y.rel) && FitsShort(y.level) && FitsShort(y.sequence)
    ensures x.Gt(y) <==> Number(x) > Number(y)
    ensures x.Gte(y) <==> Number(x) >= Number(y)
  {
  }

  function Number(x: Sid): int {
    (x.rel * 32768 + x.level) * 32768 + x.sequence
  }

  const NULL_SID := Sid(0, 0, 0, 0)
}
