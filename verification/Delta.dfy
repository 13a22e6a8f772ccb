/** An entry of the delta table. */
module Deltas {
  import opened Sids

  datatype Date = Date(year: int, month: int, day: int, hour: int, minute: int, second: int)

  datatype Delta = Delta(
    kind: char,
    id: Sid,
    date: Date,
    user: string,
    seqNo: nat,
    prevSeq: nat,
    included: seq<nat>,
    excluded: seq<nat>,
    ignored: seq<nat>,
    mrs: seq<string>,
    comments: seq<string>,
    inserted: nat,
    deleted: nat,
    unchangedLines: nat)
  {
    predicate Removed() { kind == 'R' }

    function WithCounts(i: nat, x: nat, u: nat): Delta {
      this.(inserted := i, deleted := x, unchangedLines := u)
    }
  }
}
