/** Finishing an update: line counts and checksum are patched into the file in place. */
module Checksum {
  import opened Basics
  import opened Decimal
  import opened Deltas
  import opened HeaderText
  import opened DeltaRecords

  type File = string

  /** The value of a plain `char`, which may be signed. */
  function CharValue(c: char, signed: bool): int {
    if signed && c as int >= 128 then c as int - 256 else c as int
  }

  function Sum(s: string, signed: bool): int {
    if s == [] then 0 else Sum(s[..|s| - 1], signed) + CharValue(s[|s| - 1], signed)
  }

  /** Everything after the first line. */
  function AfterFirstLine(f: File): string {
    if Find(f, '\n') < |f| then f[Find(f, '\n') + 1..] else ""
  }

  /** The checksum covers everything but the first line, in 16 bits. */
  function ComputedSum(f: File, signed: bool): (r: nat)
    ensures r < 65536
  {
    Sum(AfterFirstLine(f), signed) % 65536
  }

  /** The checksum in the first line `^Ahnnnnn`. */
  function StoredSum(f: File): Option<nat> {
    if |f| > 7 && f[0] == CTRL && f[1] == 'h' && AllDigits(f[2..7]) && f[7] == '\n' then Some(Value(f[2..7])) else None
  }

  /** Writing at the start of a file that is longer. */
  function Overwrite(f: File, s: string): File
    requires |s| <= |f|
  {
    s + f[|s|..]
  }

  // ---------------------------------------------------------------- line counts

  /** The first line while the checksum is not known. */
  const BLANK: string := [CTRL] + "h-----"

  lemma Pad5(n: nat)
    ensures |Padded(Cap5(n), 5)| == 5
  {
    assert Power(5) == 100000 by { assert Power(1) == 10; assert Power(2) == 100; assert Power(3) == 1000; assert Power(4) == 10000; }
    PaddedLength(Cap5(n), 5);
  }

  lemma CountsLength(d: Delta)
    ensures |CountsLine(d)| == 20
  {
    hide Padded, Cap5;
    Pad5(d.inserted);
    Pad5(d.deleted);
    Pad5(d.unchangedLines);
  }

  lemma OverwriteStart(a: string, b: string, t: string)
    requires |a| == |b|
    ensures Overwrite(a + t, b) == b + t
  {
  }

  /** Rewriting the head of the file with other counts, whatever they are, turns the record of the newest
      delta into the one with these counts, and touches nothing else. */
  lemma {:induction false} CountsFit(d: Delta, i: nat, x: nat, u: nat, rest: Lines)
    requires Printable(d)
    ensures var head := BLANK + ("\n" + CountsLine(d.WithCounts(i, x, u)));
            var f := FileText([BLANK] + PrintDelta(d, rest));
            |head| <= |f| && Overwrite(f, head) == FileText([BLANK] + PrintDelta(d.WithCounts(i, x, u), rest))
  {
    hide CountsLine, Fields, Joined, ListLines, MarkedLines;
    var d' := d.WithCounts(i, x, u);
    CountsLength(d);
    CountsLength(d');
    SameBelowCounts(d, i, x, u, rest);
    var below := PrintDelta(d, rest)[1..];
    HeadOfFile(CountsLine(d), below);
    HeadOfFile(CountsLine(d'), below);
    assert PrintDelta(d, rest) == [CountsLine(d)] + below;
    assert PrintDelta(d', rest) == [CountsLine(d')] + below;
    OverwriteStart(BLANK + ("\n" + CountsLine(d)), BLANK + ("\n" + CountsLine(d')), "\n" + FileText(below));
  }

  lemma SameBelowCounts(d: Delta, i: nat, x: nat, u: nat, rest: Lines)
    requires Printable(d)
    ensures PrintDelta(d.WithCounts(i, x, u), rest) != [] && PrintDelta(d, rest) != []
    ensures PrintDelta(d.WithCounts(i, x, u), rest)[1..] == PrintDelta(d, rest)[1..]
    ensures PrintDelta(d.WithCounts(i, x, u), rest)[0] == CountsLine(d.WithCounts(i, x, u))
    ensures PrintDelta(d, rest)[0] == CountsLine(d)
  {
    hide CountsLine, Joined, ListLines, MarkedLines, Fields;
    SameFields(d, i, x, u);
  }

  lemma SameFields(d: Delta, i: nat, x: nat, u: nat)
    requires Printable(d)
    ensures Fields(d.WithCounts(i, x, u)) == Fields(d)
  {
    hide PrintSid, PrintDate, PrintTime, Print;
  }

  lemma HeadOfFile(l: string, below: Lines)
    ensures FileText([BLANK] + ([l] + below)) == BLANK + ("\n" + l) + ("\n" + FileText(below))
  {
    assert ([BLANK] + ([l] + below))[1..] == [l] + below;
    assert ([l] + below)[1..] == below;
  }

  // ---------------------------------------------------------------- checksum

  lemma {:induction false} SumUpdate(s: string, k: nat, c: char, signed: bool)
    requires k < |s|
    ensures Sum(s[k := c], signed) == Sum(s, signed) - CharValue(s[k], signed) + CharValue(c, signed)
  {
    var n := |s| - 1;
    if k == n {
      assert s[k := c][..n] == s[..n];
    } else {
      assert s[k := c][..n] == s[..n][k := c];
      SumUpdate(s[..n], k, c, signed);
    }
  }

  /** The sum of a text is the sum of its parts. */
  lemma {:induction false} SumConcat(a: string, b: string, signed: bool)
    ensures Sum(a + b, signed) == Sum(a, signed) + Sum(b, signed)
    decreases |b|
  {
    if b == [] {
      assert a + b == a;
    } else {
      var n := |b| - 1;
      assert (a + b)[..|a| + n] == a + b[..n];
      SumConcat(a, b[..n], signed);
    }
  }

  /** An eight-bit character counts as its code, or, where characters are signed, as the number in -128..127
      that is equal to it modulo 256. */
  lemma SumOfOne(c: char)
    requires c as int < 256
    ensures Sum([c], false) == c as int
    ensures -128 <= Sum([c], true) < 128 && (Sum([c], true) - c as int) % 256 == 0
  {
    assert [c][..0] == [];
    assert Sum([c][..0], false) == 0 && Sum([c][..0], true) == 0;
  }

  /** The checksum of a file is the sum of everything below its first line, modulo 65536. */
  lemma SumOfFile(first: string, rest: string, signed: bool)
    requires '\n' !in first
    ensures ComputedSum(first + ("\n" + rest), signed) == Sum(rest, signed) % 65536
  {
    var f := first + ("\n" + rest);
    FindFirst(first, '\n', rest);
    assert f[|first| + 1..] == rest;
  }

  /** Reads to the end of the first line. */
  method SkipFirstLine(f: File) returns (rest: Option<string>)
    ensures rest.Some? <==> '\n' in f
    ensures rest.Some? ==> rest.value == AfterFirstLine(f)
  {
    var k := 0;
    while k < |f| && f[k] != '\n'
      invariant 0 <= k <= |f| && '\n' !in f[..k]
    {
      assert f[..k + 1] == f[..k] + [f[k]];
      k := k + 1;
    }
    if k == |f| {
      assert f[..k] == f;
      return None;
    }
    assert f[k] in f;
    FindFirst(f[..k], '\n', f[k + 1..]);
    assert f == f[..k] + (['\n'] + f[k + 1..]);
    return Some(f[k + 1..]);
  }

  method AddUp(s: string, signed: bool) returns (sum: int)
    ensures sum == Sum(s, signed)
  {
    sum := 0;
    for i := 0 to |s|
      invariant sum == Sum(s[..i], signed)
    {
      assert s[..i + 1][..i] == s[..i];
      sum := sum + CharValue(s[i], signed);
    }
    assert s[..|s|] == s;
  }

  /** Adds up the bytes after the first line. */
  method ComputeSum(f: File, signed: bool) returns (r: Option<nat>)
    ensures r.Some? <==> |f| > 1 && f[0] == CTRL && f[1] == 'h' && '\n' in f
    ensures r.Some? ==> r.value == ComputedSum(f, signed)
  {
    if |f| < 2 || f[0] != CTRL || f[1] != 'h' {
      return None;
    }
    var rest := SkipFirstLine(f);
    if rest.None? {
      return None;
    }
    var sum := AddUp(rest.value, signed);
    return Some(sum % 65536);
  }

  // ---------------------------------------------------------------- the encoded flag

  const FLAG: string := [CTRL, 'f', ' ', 'e', ' ']

  /** A line that starts at p and begins with the encoded flag. */
  predicate FlagAt(f: File, p: nat) {
    p + 5 <= |f| && (p == 0 || f[p - 1] == '\n') && f[p..p + 5] == FLAG
  }

  predicate NoFlagBefore(f: File, i: nat) {
    forall p: nat :: p < i ==> !FlagAt(f, p)
  }

  /** How many characters from i on agree with the flag. */
  function Agreement(f: File, i: nat, n: nat): (m: nat)
    requires n <= 5 && i + n <= |f| && f[i..i + n] == FLAG[..n]
    ensures n <= m <= 5 && i + m <= |f| && f[i..i + m] == FLAG[..m]
    ensures m < 5 && i + m < |f| ==> f[i + m] != FLAG[m]
    decreases 5 - n
  {
    if n == 5 || i + n == |f| || f[i + n] != FLAG[n] then n
    else
      assert f[i..i + n + 1] == f[i..i + n] + [f[i + n]];
      assert FLAG[..n + 1] == FLAG[..n] + [FLAG[n]];
      Agreement(f, i, n + 1)
  }

  /** Past a partial match there is no line start until after the character that broke it. */
  lemma SkipPartial(f: File, i: nat, m: nat)
    requires i < |f| && NoFlagBefore(f, i) && m < 5 && i + m <= |f| && f[i..i + m] == FLAG[..m]
    requires i + m < |f| ==> f[i + m] != FLAG[m]
    ensures NoFlagBefore(f, if i + m < |f| then i + m + 1 else |f|)
  {
    forall p: nat | i <= p < (if i + m < |f| then i + m + 1 else |f|)
      ensures !FlagAt(f, p)
    {
      assert p > i ==> f[p - 1] == f[i..i + m][p - 1 - i];
      assert i + m < |f| && i + 5 <= |f| ==> f[i..i + 5][m] == f[i + m];
    }
  }

  lemma NoFlagAtStart(f: File)
    ensures NoFlagBefore(f, 0)
  {
  }

  lemma FlagFound(f: File, i: nat)
    requires i + 5 <= |f| && f[i..i + 5] == FLAG[..5] && (i == 0 || f[i - 1] == '\n')
    ensures FlagAt(f, i) && !NoFlagBefore(f, |f|)
  {
    assert FLAG[..5] == FLAG;
    assert FlagAt(f, i) && i < |f|;
  }

  lemma SkipOne(f: File, i: nat)
    requires 0 < i < |f| && f[i - 1] != '\n' && NoFlagBefore(f, i)
    ensures NoFlagBefore(f, i + 1)
  {
  }

  /** Finds the first encoded flag and turns a 0 into a 1, adjusting the checksum. */
  method RehackEncodedFlag(f: File, sum: nat) returns (r: Option<(File, nat)>, ghost p: nat)
    requires sum < 65536
    ensures r.None? <==> NoFlagBefore(f, |f|)
    ensures r.Some? ==> FlagAt(f, p) && NoFlagBefore(f, p)
    ensures r.Some? ==> r.value == if p + 5 < |f| && f[p + 5] == '0' then (f[p + 5 := '1'], (sum + 1) % 65536) else (f, sum)
  {
    hide FlagAt, NoFlagBefore;
    NoFlagAtStart(f);
    p := 0;
    var i, last := 0, '\n';
    while i < |f|
      invariant 0 <= i <= |f| && NoFlagBefore(f, i)
      invariant last == if i == 0 then '\n' else f[i - 1]
      decreases |f| - i
    {
      if last == '\n' {
        var m := Agreement(f, i, 0);
        if m == 5 {
          FlagFound(f, i);
          p := i;
          if i + 5 < |f| && f[i + 5] == '0' {
            return Some((f[i + 5 := '1'], (sum + 1) % 65536)), i;
          }
          return Some((f, sum)), i;
        }
        SkipPartial(f, i, m);
        i := if i + m < |f| then i + m + 1 else |f|;
      } else {
        SkipOne(f, i);
        i := i + 1;
      }
      last := f[i - 1];
    }
    return None, 0;
  }

  // ---------------------------------------------------------------- the whole update

  /** The first line is eight characters long. */
  predicate ShortFirstLine(f: File) {
    |f| >= 8 && f[7] == '\n' && '\n' !in f[..7]
  }

  lemma FirstLineEnds(f: File)
    requires ShortFirstLine(f)
    ensures AfterFirstLine(f) == f[8..] && '\n' in f
  {
    FindFirst(f[..7], '\n', f[8..]);
    assert f == f[..7] + (['\n'] + f[8..]);
  }

  lemma Pad5Sum(sum: nat)
    requires sum < 65536
    ensures |Padded(sum, 5)| == 5 && Value(Padded(sum, 5)) == sum && '\n' !in Padded(sum, 5)
  {
    Pad5(sum);
    PaddedValue(sum, 5);
    DigitsHold(Padded(sum, 5), '\n');
  }

  /** The checksum overwrites exactly the five placeholders, whatever it is, and is not part of what
      it covers. */
  lemma SumFits(f: File, sum: nat, signed: bool)
    requires ShortFirstLine(f) && sum < 65536
    ensures |[CTRL, 'h'] + Padded(sum, 5)| == 7
    ensures var g := Overwrite(f, [CTRL, 'h'] + Padded(sum, 5));
            && g[8..] == f[8..] && StoredSum(g) == Some(sum) && ComputedSum(g, signed) == ComputedSum(f, signed)
  {
    Pad5Sum(sum);
    var head := [CTRL, 'h'] + Padded(sum, 5);
    var g := Overwrite(f, head);
    assert g[..7] == head && g[7] == f[7] && g[8..] == f[8..];
    assert g[2..7] == Padded(sum, 5);
    FirstLineEnds(f);
    FirstLineEnds(g);
  }

  /** The encoded flag is below the first line, and flipping it adds one to the checksum. */
  lemma FlipFits(f: File, k: nat, sum: nat, signed: bool)
    requires ShortFirstLine(f) && 8 <= k < |f| && f[k] == '0' && sum == ComputedSum(f, signed)
    ensures ShortFirstLine(f[k := '1']) && ComputedSum(f[k := '1'], signed) == (sum + 1) % 65536
  {
    var g := f[k := '1'];
    assert g[..7] == f[..7];
    FirstLineEnds(f);
    FirstLineEnds(g);
    assert g[8..] == f[8..][k - 8 := '1'];
    SumUpdate(f[8..], k - 8, '1', signed);
  }

  lemma FlagBelowFirstLine(f: File, p: nat)
    requires ShortFirstLine(f) && f[1] == 'h' && FlagAt(f, p)
    ensures 8 <= p
  {
    assert f[p..p + 5][1] == f[p + 1];
    assert forall q :: 0 <= q < 7 ==> f[q] == f[..7][q];
  }

  // ---------------------------------------------------------------- the flag as a line

  predicate Flagged(l: string) {
    |l| >= 5 && l[..5] == FLAG
  }

  predicate HasFlag(ls: Lines) {
    exists i :: 0 <= i < |ls| && Flagged(ls[i])
  }

  function FlipLine(l: string): string {
    if |l| > 5 && l[5] == '0' then l[5 := '1'] else l
  }

  /** The lines with the first encoded flag set. */
  function FlipLines(ls: Lines): Lines {
    if ls == [] then [] else if Flagged(ls[0]) then [FlipLine(ls[0])] + ls[1..] else [ls[0]] + FlipLines(ls[1..])
  }

  function FlipAt(f: File, p: nat): File {
    if p + 5 < |f| && f[p + 5] == '0' then f[p + 5 := '1'] else f
  }

  lemma FlagInFirst(l: string, t: string)
    requires '\n' !in l
    ensures FlagAt(l + ("\n" + t), 0) <==> Flagged(l)
    ensures forall p: nat :: 0 < p <= |l| ==> !FlagAt(l + ("\n" + t), p)
    ensures Flagged(l) ==> FlipAt(l + ("\n" + t), 0) == FlipLine(l) + ("\n" + t)
  {
    var f := l + ("\n" + t);
    assert forall k :: 0 <= k < |l| ==> f[k] == l[k];
    assert f[|l|] == '\n';
    if FlagAt(f, 0) {
      assert forall k :: 0 <= k < 5 ==> f[k] == f[0..5][k];
      assert |l| >= 5 && l[..5] == f[0..5];
    }
    if Flagged(l) {
      assert f[0..5] == l[..5];
    }
  }

  lemma FlagInRest(l: string, t: string, p: nat)
    requires '\n' !in l
    ensures FlagAt(l + ("\n" + t), |l| + 1 + p) <==> FlagAt(t, p)
    ensures FlipAt(l + ("\n" + t), |l| + 1 + p) == l + ("\n" + FlipAt(t, p))
  {
    var f, q := l + ("\n" + t), |l| + 1 + p;
    assert f == (l + "\n") + t && |l + "\n"| == |l| + 1;
    if q + 5 <= |f| {
      assert f[q..q + 5] == t[p..p + 5];
    }
  }

  lemma NoFlagShift(l: string, t: string, p: nat)
    requires '\n' !in l && !Flagged(l) && NoFlagBefore(t, p)
    ensures NoFlagBefore(l + ("\n" + t), |l| + 1 + p)
  {
    forall q: nat | q < |l| + 1 + p
      ensures !FlagAt(l + ("\n" + t), q)
    {
      FlagInFirst(l, t);
      if q > |l| {
        FlagInRest(l, t, q - |l| - 1);
      }
    }
  }

  /** Where the first encoded flag is; flipping it there is flipping it in its line. */
  lemma {:induction false} FirstFlag(ls: Lines) returns (p: nat)
    requires NoBreaks(ls)
    ensures HasFlag(ls) ==> FlagAt(FileText(ls), p) && NoFlagBefore(FileText(ls), p)
    ensures HasFlag(ls) ==> FlipAt(FileText(ls), p) == FileText(FlipLines(ls))
    ensures !HasFlag(ls) ==> NoFlagBefore(FileText(ls), |FileText(ls)|)
  {
    hide FlagAt, Flagged, FlipAt, FlipLine;
    p := 0;
    if ls != [] {
      var l, rest := ls[0], ls[1..];
      var t := FileText(rest);
      FlagInFirst(l, t);
      if Flagged(l) {
        assert ([FlipLine(l)] + rest)[1..] == rest;
      } else {
        var q := FirstFlag(rest);
        p := |l| + 1 + q;
        assert HasFlag(ls) <==> HasFlag(rest) by { HasFlagRest(ls); }
        FlagInRest(l, t, q);
        NoFlagShift(l, t, if HasFlag(rest) then q else |t|);
        assert FlipLines(ls)[1..] == FlipLines(rest);
      }
    }
  }

  lemma HasFlagRest(ls: Lines)
    requires ls != []
    ensures HasFlag(ls) <==> Flagged(ls[0]) || HasFlag(ls[1..])
  {
    hide Flagged;
    var rest := ls[1..];
    if HasFlag(rest) {
      var i :| 0 <= i < |rest| && Flagged(rest[i]);
      assert Flagged(ls[i + 1]);
    }
    if HasFlag(ls) && !Flagged(ls[0]) {
      var i :| 0 <= i < |ls| && Flagged(ls[i]);
      assert Flagged(rest[i - 1]);
    }
  }

  // ---------------------------------------------------------------- the whole update

  function SumLine(sum: nat): string {
    [CTRL, 'h'] + Padded(sum, 5)
  }

  lemma BlankFirst(lines: Lines)
    requires NoBreaks(lines)
    ensures var f := FileText([BLANK] + lines);
            && ShortFirstLine(f) && f[0] == CTRL && f[1] == 'h' && f[8..] == FileText(lines)
    ensures NoBreaks([BLANK] + lines)
    ensures HasFlag([BLANK] + lines) <==> HasFlag(lines)
    ensures FlipLines([BLANK] + lines) == [BLANK] + FlipLines(lines)
  {
    assert ([BLANK] + lines)[1..] == lines;
    var f := FileText([BLANK] + lines);
    assert f[..7] == BLANK && f[8..] == FileText(lines);
    HasFlagRest([BLANK] + lines);
  }

  /** A file whose first line has eight characters, with a checksum put in. */
  lemma SumReplacesBlank(f: File, sum: nat)
    requires ShortFirstLine(f) && sum < 65536
    ensures |SumLine(sum)| == 7 && Overwrite(f, SumLine(sum)) == SumLine(sum) + ("\n" + f[8..])
  {
    Pad5Sum(sum);
  }

  /** The file that an update leaves: its checksum, and the lines with the flag set if need be. */
  ghost predicate IsUpdated(f: File, lines: Lines, encoded: bool, signed: bool) {
    && f == FileText([SumLine(ComputedSum(f, signed))] + if encoded then FlipLines(lines) else lines)
    && StoredSum(f) == Some(ComputedSum(f, signed))
  }

  /** An updated file starts with `^Ah`, the sum in five digits, and a newline. */
  lemma UpdatedStarts(f: File, lines: Lines, encoded: bool, signed: bool)
    requires IsUpdated(f, lines, encoded, signed)
    ensures |f| > 7 && f[0] == '\U{0001}' && f[1] == 'h' && f[7] == '\n'
    ensures AllDigits(f[2..7]) && Value(f[2..7]) == ComputedSum(f, signed)
  {
    hide ComputedSum, Padded;
  }

  lemma SummedFile(f: File, lines: Lines, sum: nat, signed: bool)
    requires NoBreaks(lines) && f == FileText([BLANK] + lines) && sum == ComputedSum(f, signed)
    ensures |SumLine(sum)| <= |f| && IsUpdated(Overwrite(f, SumLine(sum)), lines, false, signed)
  {
    hide StoredSum, ComputedSum, Padded;
    BlankFirst(lines);
    SumFits(f, sum, signed);
    SumReplacesBlank(f, sum);
    assert ([SumLine(sum)] + lines)[1..] == lines;
  }

  lemma {:induction false} FlipUnbroken(ls: Lines)
    requires NoBreaks(ls)
    ensures NoBreaks(FlipLines(ls))
  {
    if ls != [] && !Flagged(ls[0]) {
      FlipUnbroken(ls[1..]);
    }
  }

  /** Sets the encoded flag in a file with a blank checksum, and keeps the sum right. */
  method SetEncodedFlag(f: File, sum: nat, signed: bool, ghost lines: Lines) returns (r: Option<(File, nat)>)
    requires NoBreaks(lines) && f == FileText([BLANK] + lines) && sum == ComputedSum(f, signed)
    ensures r.Some? <==> HasFlag(lines)
    ensures r.Some? ==> r.value.0 == FileText([BLANK] + FlipLines(lines)) && r.value.1 == ComputedSum(r.value.0, signed)
  {
    hide ComputedSum, FlipLines, HasFlag, FlagAt, FileText, ShortFirstLine;
    BlankFirst(lines);
    ghost var q := FirstFlag([BLANK] + lines);
    ghost var p;
    if HasFlag(lines) {
      FlagStands(f, q);
    }
    r, p := RehackEncodedFlag(f, sum);
    if r.Some? {
      FlagStands(f, p);
      assert p == q;
      FlagBelowFirstLine(f, p);
      if p + 5 < |f| && f[p + 5] == '0' {
        FlipFits(f, p + 5, sum, signed);
      }
    }
  }

  lemma FlagStands(f: File, p: nat)
    requires FlagAt(f, p)
    ensures !NoFlagBefore(f, |f|)
  {
    assert p < |f|;
  }

  /** Ends an update: sums up the file, sets the encoded flag if the body turned out to be encoded, and
      stores the checksum.  It fails exactly when there is no flag to set. */
  method EndUpdate(f: File, encoded: bool, signed: bool, ghost lines: Lines) returns (r: Option<File>)
    requires NoBreaks(lines) && f == FileText([BLANK] + lines)
    ensures r.None? <==> encoded && !HasFlag(lines)
    ensures r.Some? ==> IsUpdated(r.value, lines, encoded, signed)
  {
    hide ComputedSum, StoredSum, FlipLines, HasFlag, Padded, ShortFirstLine;
    BlankFirst(lines);
    FirstLineEnds(f);
    var computed := ComputeSum(f, signed);
    var g, sum := f, computed.value;
    ghost var final := lines;
    if encoded {
      var hacked := SetEncodedFlag(f, sum, signed, lines);
      if hacked.None? {
        return None;
      }
      FlipUnbroken(lines);
      final := FlipLines(lines);
      g, sum := hacked.value.0, hacked.value.1;
    }
    SummedFile(g, final, sum, signed);
    r := Some(Overwrite(g, [CTRL, 'h'] + Padded(sum, 5)));
  }

  /** Ends an update that adds a delta: its line counts, now known, are put into the head of the file first. */
  method EndUpdateWithDelta(f: File, d: Delta, i: nat, x: nat, u: nat, encoded: bool, signed: bool, ghost rest: Lines)
    returns (r: Option<File>)
    requires Writable(d) && NoBreaks(rest) && f == FileText([BLANK] + PrintDelta(d, rest))
    ensures r.None? <==> encoded && !HasFlag(PrintDelta(d.WithCounts(i, x, u), rest))
    ensures r.Some? ==> IsUpdated(r.value, PrintDelta(d.WithCounts(i, x, u), rest), encoded, signed)
  {
    hide CountsLine, PrintDelta, HasFlag, IsUpdated;
    CountsFit(d, i, x, u, rest);
    CountsUnbroken(d, i, x, u, rest);
    var g := Overwrite(f, BLANK + ("\n" + CountsLine(d.WithCounts(i, x, u))));
    r := EndUpdate(g, encoded, signed, PrintDelta(d.WithCounts(i, x, u), rest));
  }

  lemma CountsUnbroken(d: Delta, i: nat, x: nat, u: nat, rest: Lines)
    requires Writable(d) && NoBreaks(rest)
    ensures NoBreaks(PrintDelta(d.WithCounts(i, x, u), rest))
  {
    hide CountsLine, PrintDelta;
    RecordUnbroken(d, rest);
    SameBelowCounts(d, i, x, u, rest);
    var p, p' := PrintDelta(d, rest), PrintDelta(d.WithCounts(i, x, u), rest);
    CountsLineUnbroken(d.WithCounts(i, x, u));
    assert p' == [p'[0]] + p[1..];
  }
}
