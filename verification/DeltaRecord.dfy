/** An entry of the delta table as lines of the header: written, and read back. */
module DeltaRecords {
  import opened Basics
  import opened Decimal
  import opened Sids
  import opened Deltas
  import opened HeaderText

  const CTRL: char := '\U{0001}'

  // ---------------------------------------------------------------- writing

  /** Line counts are capped to what fits in five digits. */
  function Cap5(n: nat): nat {
    if n < 99999 then n else 99999
  }

  function CountsLine(d: Delta): string {
    [CTRL, 's', ' '] + (Padded(Cap5(d.inserted), 5) + ("/" + (Padded(Cap5(d.deleted), 5) + ("/" + Padded(Cap5(d.unchangedLines), 5)))))
  }

  /** Type, SID, date, time, user and the two sequence numbers, with spaces between. */
  function Fields(d: Delta): Lines
    requires Printable(d)
  {
    [[d.kind], PrintSid(d.id), PrintDate(d.date), PrintTime(d.date), d.user, Print(d.seqNo), Print(d.prevSeq)]
  }

  function Joined(fs: Lines): string {
    if fs == [] then "" else if |fs| == 1 then fs[0] else fs[0] + (" " + Joined(fs[1..]))
  }

  predicate Printable(d: Delta) {
    && 0 <= d.id.rel && 0 <= d.id.level && 0 <= d.id.branch && 0 <= d.id.sequence
    && ValidDate(d.date)
  }

  function SeqText(seqs: seq<nat>): string {
    if seqs == [] then "" else if |seqs| == 1 then Print(seqs[0]) else Print(seqs[0]) + (" " + SeqText(seqs[1..]))
  }

  function ListLines(c: char, seqs: seq<nat>, rest: Lines): Lines {
    if seqs == [] then rest else [[CTRL, c, ' '] + SeqText(seqs)] + rest
  }

  function MarkedLines(c: char, texts: Lines, rest: Lines): Lines {
    if texts == [] then rest else [[CTRL, c, ' '] + texts[0]] + MarkedLines(c, texts[1..], rest)
  }

  /** The record of a delta, followed by the rest of the file. */
  function PrintDelta(d: Delta, rest: Lines): Lines
    requires Printable(d)
  {
    [CountsLine(d), [CTRL, 'd', ' '] + Joined(Fields(d))]
    + ListLines('i', d.included, ListLines('x', d.excluded, ListLines('g', d.ignored,
        MarkedLines('m', d.mrs, MarkedLines('c', d.comments, [[CTRL, 'e']] + rest)))))
  }

  // ---------------------------------------------------------------- reading

  /** The letter of a control line; NUL for any other line. */
  function LineType(s: string): char {
    if |s| >= 2 && s[0] == CTRL then s[1] else '\0'
  }

  predicate HasArg(s: string) {
    |s| >= 3 && s[2] == ' '
  }

  function SkipSpaces(s: string): string {
    if s != [] && s[0] == ' ' then SkipSpaces(s[1..]) else s
  }

  function DigitCount(s: string): (k: nat)
    ensures k <= |s| && AllDigits(s[..k])
  {
    if s == [] || !IsDigit(s[0]) then 0
    else
      var k := DigitCount(s[1..]);
      assert s[..k + 1] == [s[0]] + s[1..][..k];
      k + 1
  }

  /** A line count: leading spaces, then digits, then the end or a space. */
  function ParseCount(field: string): Option<nat> {
    var s := SkipSpaces(field);
    var k := DigitCount(s);
    if k < |s| && s[k] != ' ' then None else Some(Value(s[..k]))
  }

  function ParseSeqs(s: string): Option<seq<nat>>
    decreases |s|
  {
    var k := Find(s, ' ');
    var first := Atous(s[..k]);
    if first.None? then None
    else if k == |s| then Some([first.value])
    else
      var more := ParseSeqs(s[k + 1..]);
      if more.None? then None else Some([first.value] + more.value)
  }

  /** An optional list line. */
  function TakeList(c: char, lines: Lines): (r: Option<(seq<nat>, Lines)>)
    ensures r.Some? ==> |r.value.1| <= |lines|
  {
    if lines == [] then None
    else if LineType(lines[0]) != c then Some(([], lines))
    else if !HasArg(lines[0]) then Some(([], lines[1..]))
    else
      var seqs := ParseSeqs(lines[0][3..]);
      if seqs.None? then None else Some((seqs.value, lines[1..]))
  }

  datatype Marks = Marks(mrs: Lines, comments: Lines, rest: Lines)

  /** The MR and comment lines, which may be mixed. */
  function TakeMarks(lines: Lines): (m: Marks)
    ensures |m.rest| <= |lines|
  {
    if lines == [] then Marks([], [], [])
    else
      var l := lines[0];
      if LineType(l) == 'm' then
        var m := TakeMarks(lines[1..]);
        if HasArg(l) then m.(mrs := [l[3..]] + m.mrs) else m
      else if LineType(l) == 'c' then
        var m := TakeMarks(lines[1..]);
        m.(comments := [if |l| >= 3 then l[3..] else ""] + m.comments)
      else Marks([], [], lines)
  }

  function ParseHead(counts: string, head: string): Option<Delta> {
    if LineType(counts) != 's' || !HasArg(counts) || LineType(head) != 'd' || !HasArg(head) then None
    else
      var cs, fs := Split(counts[3..], '/', 3), Split(head[3..], ' ', 7);
      if |cs| != 3 || |fs| != 7 || fs[0] !in ["D", "R"] then None
      else
        var id, date := ParseSid(fs[1]), ParseDate(fs[2], fs[3]);
        var i, x, u := ParseCount(cs[0]), ParseCount(cs[1]), ParseCount(cs[2]);
        var s, p := Atous(fs[5]), Atous(fs[6]);
        if !id.Valid() || !ValidDate(date) || i.None? || x.None? || u.None? || s.None? || p.None? then None
        else Some(Delta(fs[0][0], id, date, fs[4], s.value, p.value, [], [], [], [], [], i.value, x.value, u.value))
  }

  /** Reads one record; what is left follows it. */
  function ParseDelta(lines: Lines): (r: Option<(Delta, Lines)>)
    ensures r.Some? ==> |r.value.1| < |lines|
  {
    if |lines| < 2 then None
    else
      var head := ParseHead(lines[0], lines[1]);
      var i := TakeList('i', lines[2..]);
      if head.None? || i.None? then None
      else
        var x := TakeList('x', i.value.1);
        if x.None? then None
        else
          var g := TakeList('g', x.value.1);
          if g.None? then None
          else
            var m := TakeMarks(g.value.1);
            if m.rest == [] || m.rest[0] != [CTRL, 'e'] then None
            else
              Some((head.value.(included := i.value.0, excluded := x.value.0, ignored := g.value.0,
                                mrs := m.mrs, comments := m.comments), m.rest[1..]))
  }

  // ---------------------------------------------------------------- the round trip

  /** What the header can hold without loss. */
  ghost predicate Writable(d: Delta) {
    && (d.kind == 'D' || d.kind == 'R') && FullSid(d.id)
    && ValidDate(d.date) && 1969 <= d.date.year <= 2068
    && ' ' !in d.user && '\n' !in d.user && NoBreaks(d.mrs) && NoBreaks(d.comments)
    && d.seqNo <= 65535 && d.prevSeq <= 65535
    && AllSmall(d.included) && AllSmall(d.excluded) && AllSmall(d.ignored)
    && d.inserted <= 99999 && d.deleted <= 99999 && d.unchangedLines <= 99999
  }

  ghost predicate AllSmall(seqs: seq<nat>) {
    forall i :: 0 <= i < |seqs| ==> seqs[i] <= 65535
  }

  lemma AtousPrint(n: nat)
    requires n <= 65535
    ensures Atous(Print(n)) == Some(n)
  {
    PrintValue(n);
  }

  lemma DigitsHold(s: string, c: char)
    requires AllDigits(s) && !IsDigit(c)
    ensures c !in s
  {
  }

  lemma {:induction false} DigitCountAll(s: string)
    requires AllDigits(s)
    ensures DigitCount(s) == |s|
  {
    if s != [] {
      DigitCountAll(s[1..]);
    }
  }

  lemma CountRoundTrip(n: nat)
    requires n <= 99999
    ensures ParseCount(Padded(Cap5(n), 5)) == Some(n)
  {
    var s := Padded(n, 5);
    PaddedValue(n, 5);
    assert IsDigit(s[0]);
    assert SkipSpaces(s) == s;
    DigitCountAll(s);
    assert s[..|s|] == s;
  }

  lemma CountsRoundTrip(d: Delta)
    requires Writable(d)
    ensures var cs := Split(CountsLine(d)[3..], '/', 3);
            && LineType(CountsLine(d)) == 's' && HasArg(CountsLine(d)) && |cs| == 3
            && ParseCount(cs[0]) == Some(d.inserted) && ParseCount(cs[1]) == Some(d.deleted)
            && ParseCount(cs[2]) == Some(d.unchangedLines)
  {
    hide Padded, ParseCount, Cap5, Split;
    var a, b, c := Padded(Cap5(d.inserted), 5), Padded(Cap5(d.deleted), 5), Padded(Cap5(d.unchangedLines), 5);
    assert CountsLine(d)[3..] == a + ("/" + (b + ("/" + c)));
    DigitsHold(a, '/');
    DigitsHold(b, '/');
    DigitsHold(c, '/');
    SplitHead(a, '/', b + ("/" + c), 3);
    SplitHead(b, '/', c, 2);
    SplitLast(c, '/', 1);
    CountRoundTrip(d.inserted);
    CountRoundTrip(d.deleted);
    CountRoundTrip(d.unchangedLines);
  }

  lemma {:induction false} SplitJoined(fs: Lines)
    requires fs != [] && fs[|fs| - 1] != "" && forall i :: 0 <= i < |fs| ==> ' ' !in fs[i]
    ensures Split(Joined(fs), ' ', |fs|) == fs
  {
    if |fs| == 1 {
      SplitLast(fs[0], ' ', 1);
    } else {
      SplitHead(fs[0], ' ', Joined(fs[1..]), |fs|);
      SplitJoined(fs[1..]);
      assert [fs[0]] + fs[1..] == fs;
    }
  }

  /** A character that does not occur in numbers, SIDs, dates and times. */
  predicate Foreign(c: char) {
    !IsDigit(c) && c !in "./:"
  }

  lemma SidLacks(x: Sid, c: char)
    requires FullSid(x) && Foreign(c)
    ensures c !in PrintSid(x)
  {
    DigitsHold(Print(x.rel), c);
    DigitsHold(Print(x.level), c);
    if x.branch != 0 {
      DigitsHold(Print(x.branch), c);
      DigitsHold(Print(x.sequence), c);
    }
  }

  lemma DateLacks(d: Date, c: char)
    requires ValidDate(d) && Foreign(c)
    ensures c !in PrintDate(d) && c !in PrintTime(d)
  {
  }

  /** No field is torn apart by a space or a newline. */
  lemma {:induction false} FieldsLack(d: Delta, c: char)
    requires Writable(d) && (c == ' ' || c == '\n')
    ensures |Fields(d)| == 7 && forall i :: 0 <= i < 7 ==> c !in Fields(d)[i]
  {
    hide PrintSid, PrintDate, PrintTime, Print;
    SidLacks(d.id, c);
    DateLacks(d.date, c);
    DigitsHold(Print(d.seqNo), c);
    DigitsHold(Print(d.prevSeq), c);
  }

  lemma FieldsRoundTrip(d: Delta)
    requires Writable(d)
    ensures var head := [CTRL, 'd', ' '] + Joined(Fields(d));
            LineType(head) == 'd' && HasArg(head) && Split(head[3..], ' ', 7) == Fields(d)
  {
    hide Joined, PrintSid, PrintDate, PrintTime, Split;
    FieldsLack(d, ' ');
    SplitJoined(Fields(d));
    assert ([CTRL, 'd', ' '] + Joined(Fields(d)))[3..] == Joined(Fields(d));
  }

  lemma {:induction false} HeadRoundTrip(d: Delta)
    requires Writable(d)
    ensures ParseHead(CountsLine(d), [CTRL, 'd', ' '] + Joined(Fields(d)))
         == Some(d.(included := [], excluded := [], ignored := [], mrs := [], comments := []))
  {
    hide CountsLine, Joined, LineType, HasArg, Split, ParseSid, ParseDate, ParseCount, PrintSid, PrintDate, PrintTime, Atous, Print, ValidDate;
    FieldsRoundTrip(d);
    CountsRoundTrip(d);
    SidRoundTrip(d.id);
    DateRoundTrip(d.date);
    AtousPrint(d.seqNo);
    AtousPrint(d.prevSeq);
  }

  lemma {:induction false} SeqsRoundTrip(seqs: seq<nat>)
    requires seqs != [] && AllSmall(seqs)
    ensures ParseSeqs(SeqText(seqs)) == Some(seqs)
  {
    var a := Print(seqs[0]);
    AtousPrint(seqs[0]);
    DigitsHold(a, ' ');
    if |seqs| == 1 {
      FindFirst(a, ' ', "");
      assert a[..|a|] == a;
      assert [seqs[0]] == seqs;
    } else {
      var t := SeqText(seqs[1..]);
      FindFirst(a, ' ', t);
      var s := a + (" " + t);
      assert s[..|a|] == a && s[|a| + 1..] == t;
      SeqsRoundTrip(seqs[1..]);
      assert [seqs[0]] + seqs[1..] == seqs;
    }
  }

  lemma ListRoundTrip(c: char, seqs: seq<nat>, rest: Lines)
    requires AllSmall(seqs) && rest != [] && LineType(rest[0]) != c
    ensures TakeList(c, ListLines(c, seqs, rest)) == Some((seqs, rest))
  {
    if seqs != [] {
      var l := [CTRL, c, ' '] + SeqText(seqs);
      SeqsRoundTrip(seqs);
      assert l[3..] == SeqText(seqs);
      assert ([l] + rest)[1..] == rest;
    }
  }

  lemma {:induction false} MarksRoundTrip(mrs: Lines, comments: Lines, rest: Lines)
    requires rest != [] && LineType(rest[0]) != 'm' && LineType(rest[0]) != 'c'
    ensures TakeMarks(MarkedLines('m', mrs, MarkedLines('c', comments, rest))) == Marks(mrs, comments, rest)
    decreases |mrs| + |comments|
  {
    if mrs != [] {
      var l := [CTRL, 'm', ' '] + mrs[0];
      MarksRoundTrip(mrs[1..], comments, rest);
      assert l[3..] == mrs[0];
      assert [mrs[0]] + mrs[1..] == mrs;
    } else if comments != [] {
      var l := [CTRL, 'c', ' '] + comments[0];
      MarksRoundTrip([], comments[1..], rest);
      assert l[3..] == comments[0];
      assert [comments[0]] + comments[1..] == comments;
    }
  }

  /** Reading what was written gives the delta back, whatever follows it in the file. */
  lemma {:induction false} RecordRoundTrip(d: Delta, rest: Lines)
    requires Writable(d)
    ensures ParseDelta(PrintDelta(d, rest)) == Some((d, rest))
  {
    hide ParseHead, Fields, Joined, CountsLine, TakeList, TakeMarks, ListLines, MarkedLines;
    var e := [[CTRL, 'e']] + rest;
    var marks := MarkedLines('m', d.mrs, MarkedLines('c', d.comments, e));
    var g := ListLines('g', d.ignored, marks);
    var x := ListLines('x', d.excluded, g);
    var i := ListLines('i', d.included, x);
    var lines := PrintDelta(d, rest);
    assert lines[2..] == i;
    HeadRoundTrip(d);
    MarksRoundTrip(d.mrs, d.comments, e);
    FirstTypes(d, e);
    ListRoundTrip('g', d.ignored, marks);
    ListRoundTrip('x', d.excluded, g);
    ListRoundTrip('i', d.included, x);
    assert e[1..] == rest;
  }

  // ---------------------------------------------------------------- no newline inside a line

  lemma {:induction false} JoinedLacks(fs: Lines, c: char)
    requires c != ' ' && forall i :: 0 <= i < |fs| ==> c !in fs[i]
    ensures c !in Joined(fs)
  {
    if |fs| > 1 {
      JoinedLacks(fs[1..], c);
    }
  }

  lemma {:induction false} SeqTextLacks(seqs: seq<nat>)
    ensures '\n' !in SeqText(seqs)
  {
    if seqs != [] {
      DigitsHold(Print(seqs[0]), '\n');
      SeqTextLacks(seqs[1..]);
    }
  }

  lemma {:induction false} MarkedUnbroken(c: char, texts: Lines, rest: Lines)
    requires c != '\n' && NoBreaks(texts) && NoBreaks(rest)
    ensures NoBreaks(MarkedLines(c, texts, rest))
  {
    if texts != [] {
      MarkedUnbroken(c, texts[1..], rest);
    }
  }

  lemma ListUnbroken(c: char, seqs: seq<nat>, rest: Lines)
    requires c != '\n' && NoBreaks(rest)
    ensures NoBreaks(ListLines(c, seqs, rest))
  {
    SeqTextLacks(seqs);
  }

  lemma HeadUnbroken(d: Delta)
    requires Writable(d)
    ensures '\n' !in CountsLine(d) && '\n' !in [CTRL, 'd', ' '] + Joined(Fields(d))
  {
    hide Fields, Joined, CountsLine;
    FieldsLack(d, '\n');
    JoinedLacks(Fields(d), '\n');
    CountsLineUnbroken(d);
  }

  lemma CountsLineUnbroken(d: Delta)
    ensures '\n' !in CountsLine(d)
  {
    hide Padded;
    DigitsHold(Padded(Cap5(d.inserted), 5), '\n');
    DigitsHold(Padded(Cap5(d.deleted), 5), '\n');
    DigitsHold(Padded(Cap5(d.unchangedLines), 5), '\n');
  }

  /** A record that can be written takes up whole lines. */
  lemma {:induction false} RecordUnbroken(d: Delta, rest: Lines)
    requires Writable(d) && NoBreaks(rest)
    ensures NoBreaks(PrintDelta(d, rest))
  {
    hide CountsLine, Joined, Fields, ListLines, MarkedLines;
    var e := [[CTRL, 'e']] + rest;
    MarkedUnbroken('c', d.comments, e);
    MarkedUnbroken('m', d.mrs, MarkedLines('c', d.comments, e));
    var g := MarkedLines('m', d.mrs, MarkedLines('c', d.comments, e));
    ListUnbroken('g', d.ignored, g);
    ListUnbroken('x', d.excluded, ListLines('g', d.ignored, g));
    ListUnbroken('i', d.included, ListLines('x', d.excluded, ListLines('g', d.ignored, g)));
    HeadUnbroken(d);
  }

  /** The delta with its counts capped to five digits. */
  function Capped(d: Delta): Delta {
    d.WithCounts(Cap5(d.inserted), Cap5(d.deleted), Cap5(d.unchangedLines))
  }

  lemma {:induction false} CappedPrints(d: Delta, rest: Lines)
    requires Printable(d)
    ensures PrintDelta(Capped(d), rest) == PrintDelta(d, rest)
  {
    hide Joined, ListLines, MarkedLines, Padded, Fields;
    CappedFields(d);
  }

  lemma CappedFields(d: Delta)
    requires Printable(d)
    ensures Fields(Capped(d)) == Fields(d) && CountsLine(Capped(d)) == CountsLine(d)
  {
    hide PrintSid, PrintDate, PrintTime, Print, Padded;
  }

  /** Larger counts are read back as 99999, and everything else as it was. */
  lemma {:induction false} RecordCaps(d: Delta, rest: Lines)
    requires Writable(Capped(d))
    ensures ParseDelta(PrintDelta(d, rest)) == Some((Capped(d), rest))
    ensures Capped(d).inserted == (if d.inserted > 99999 then 99999 else d.inserted)
    ensures Capped(d).deleted == (if d.deleted > 99999 then 99999 else d.deleted)
    ensures Capped(d).unchangedLines == (if d.unchangedLines > 99999 then 99999 else d.unchangedLines)
    ensures Capped(d) == d.(inserted := Capped(d).inserted, deleted := Capped(d).deleted, unchangedLines := Capped(d).unchangedLines)
  {
    hide ParseDelta, PrintDelta;
    CappedPrints(d, rest);
    RecordRoundTrip(Capped(d), rest);
  }

  /** No list line is mistaken for another one. */
  lemma FirstTypes(d: Delta, e: Lines)
    requires e != [] && e[0] == [CTRL, 'e']
    ensures var marks := MarkedLines('m', d.mrs, MarkedLines('c', d.comments, e));
            var g := ListLines('g', d.ignored, marks);
            var x := ListLines('x', d.excluded, g);
            && marks != [] && LineType(marks[0]) in {'m', 'c', 'e'}
            && g != [] && LineType(g[0]) in {'m', 'c', 'e', 'g'}
            && x != [] && LineType(x[0]) in {'m', 'c', 'e', 'g', 'x'}
  {
  }

  // ---------------------------------------------------------------- what the record looks like

  lemma {:induction false} MarkedContains(c: char, texts: Lines, rest: Lines)
    ensures forall t :: t in texts ==> [CTRL, c, ' '] + t in MarkedLines(c, texts, rest)
    ensures forall l :: l in rest ==> l in MarkedLines(c, texts, rest)
  {
    if texts != [] {
      MarkedContains(c, texts[1..], rest);
    }
  }

  lemma ListContains(c: char, seqs: seq<nat>, rest: Lines)
    ensures seqs != [] ==> [CTRL, c, ' '] + SeqText(seqs) in ListLines(c, seqs, rest)
    ensures forall l :: l in rest ==> l in ListLines(c, seqs, rest)
  {
  }

  lemma FiveDigits(n: nat)
    requires n <= 99999
    ensures |Padded(Cap5(n), 5)| == 5 && AllDigits(Padded(Cap5(n), 5)) && Value(Padded(Cap5(n), 5)) == n
  {
    assert Power(5) == 100000 by { assert Power(1) == 10; assert Power(2) == 100; assert Power(3) == 1000; assert Power(4) == 10000; }
    PaddedLength(n, 5);
    PaddedValue(n, 5);
  }

  /** The counts line: `^As`, and inserted, deleted and unchanged lines in five digits each. */
  lemma CountsFormat(d: Delta)
    requires d.inserted <= 99999 && d.deleted <= 99999 && d.unchangedLines <= 99999
    ensures var l := CountsLine(d);
            && |l| == 20 && l[0] == '\U{0001}' && l[1] == 's' && l[2] == ' ' && l[8] == '/' && l[14] == '/'
            && AllDigits(l[3..8]) && Value(l[3..8]) == d.inserted
            && AllDigits(l[9..14]) && Value(l[9..14]) == d.deleted
            && AllDigits(l[15..20]) && Value(l[15..20]) == d.unchangedLines
  {
    hide Padded, Cap5, Value;
    FiveDigits(d.inserted);
    FiveDigits(d.deleted);
    FiveDigits(d.unchangedLines);
    var a, b, c := Padded(Cap5(d.inserted), 5), Padded(Cap5(d.deleted), 5), Padded(Cap5(d.unchangedLines), 5);
    var l := CountsLine(d);
    assert l[3..8] == a && l[9..14] == b && l[15..20] == c;
  }

  /** The other lines: `^Ad` with seven fields, a line for each list that is not empty, one for each MR and each
      comment, and `^Ae`. */
  lemma {:induction false} RecordFormat(d: Delta)
    requires Writable(d)
    ensures var lines := PrintDelta(d, []);
            && |lines| >= 3 && lines[0] == CountsLine(d) && lines[|lines| - 1] == ['\U{0001}', 'e']
            && |lines[1]| > 3 && lines[1][0] == '\U{0001}' && lines[1][1] == 'd' && lines[1][2] == ' '
            && var fs := Split(lines[1][3..], ' ', 7);
               && |fs| == 7 && fs[0] == [d.kind] && fs[1] == PrintSid(d.id) && fs[2] == PrintDate(d.date) && fs[3] == PrintTime(d.date)
               && fs[4] == d.user && Atous(fs[5]) == Some(d.seqNo) && Atous(fs[6]) == Some(d.prevSeq)
    ensures var lines := PrintDelta(d, []);
            && (d.included != [] ==> ['\U{0001}', 'i', ' '] + SeqText(d.included) in lines)
            && (d.excluded != [] ==> ['\U{0001}', 'x', ' '] + SeqText(d.excluded) in lines)
            && (d.ignored != [] ==> ['\U{0001}', 'g', ' '] + SeqText(d.ignored) in lines)
            && (forall t :: t in d.mrs ==> ['\U{0001}', 'm', ' '] + t in lines)
            && (forall t :: t in d.comments ==> ['\U{0001}', 'c', ' '] + t in lines)
  {
    hide CountsLine, Joined, Fields, ListLines, MarkedLines, Split, PrintSid, PrintDate, PrintTime, Atous, SeqText, Print;
    var e := [[CTRL, 'e']];
    assert e + [] == e;
    var i, x, g := ListLines('i', d.included, []), ListLines('x', d.excluded, []), ListLines('g', d.ignored, []);
    var m, c := MarkedLines('m', d.mrs, []), MarkedLines('c', d.comments, []);
    RecordParts(d, e, i, x, g, m, c);
    ListContains('i', d.included, []);
    ListContains('x', d.excluded, []);
    ListContains('g', d.ignored, []);
    MarkedContains('m', d.mrs, []);
    MarkedContains('c', d.comments, []);
    var lines, head := PrintDelta(d, []), [CTRL, 'd', ' '] + Joined(Fields(d));
    assert lines == [CountsLine(d), head] + (i + (x + (g + (m + (c + e)))));
    FieldsRoundTrip(d);
    FieldsAre(d);
    AtousPrint(d.seqNo);
    AtousPrint(d.prevSeq);
    SplitNothing();
    assert |head| > 3 by { if Joined(Fields(d)) == "" { assert head[3..] == ""; } }
  }

  lemma SplitNothing()
    ensures Split("", ' ', 7) == []
  {
  }

  lemma FieldsAre(d: Delta)
    requires Printable(d)
    ensures Fields(d) == [[d.kind], PrintSid(d.id), PrintDate(d.date), PrintTime(d.date), d.user, Print(d.seqNo), Print(d.prevSeq)]
  {
  }

  /** The numbers of a list, in order, with single spaces between. */
  lemma {:induction false} SeqTextFormat(seqs: seq<nat>)
    requires seqs != [] && AllSmall(seqs)
    ensures var fs := Split(SeqText(seqs), ' ', |seqs|);
            |fs| == |seqs| && forall i :: 0 <= i < |seqs| ==> Atous(fs[i]) == Some(seqs[i])
  {
    var a := Print(seqs[0]);
    AtousPrint(seqs[0]);
    DigitsHold(a, ' ');
    if |seqs| == 1 {
      SplitLast(a, ' ', 1);
    } else {
      SplitHead(a, ' ', SeqText(seqs[1..]), |seqs|);
      SeqTextFormat(seqs[1..]);
    }
  }

  // ---------------------------------------------------------------- the loops

  /** Writes a list line: the control letter, then every number after a space. */
  method PrintSeqs(c: char, seqs: seq<nat>) returns (lines: Lines)
    ensures lines == ListLines(c, seqs, [])
  {
    if seqs == [] {
      return [];
    }
    var text := [CTRL, c];
    for i := 0 to |seqs|
      invariant text + Spaced(seqs[i..]) == [CTRL, c] + Spaced(seqs)
    {
      assert seqs[i..][1..] == seqs[i + 1..];
      ConcatAssoc(text, " " + Print(seqs[i]), Spaced(seqs[i + 1..]));
      text := text + (" " + Print(seqs[i]));
    }
    SpacedIsSeqText(seqs);
    assert text + "" == text;
    assert [CTRL, c] + (" " + SeqText(seqs)) == [CTRL, c, ' '] + SeqText(seqs);
    assert [[CTRL, c, ' '] + SeqText(seqs)] + [] == [[CTRL, c, ' '] + SeqText(seqs)];
    return [text];
  }

  function Spaced(seqs: seq<nat>): string {
    if seqs == [] then "" else (" " + Print(seqs[0])) + Spaced(seqs[1..])
  }

  lemma {:induction false} SpacedIsSeqText(seqs: seq<nat>)
    requires seqs != []
    ensures Spaced(seqs) == " " + SeqText(seqs)
  {
    if |seqs| == 1 {
      assert Spaced(seqs[1..]) == "";
    } else {
      SpacedIsSeqText(seqs[1..]);
      assert (" " + Print(seqs[0])) + (" " + SeqText(seqs[1..])) == " " + (Print(seqs[0]) + (" " + SeqText(seqs[1..])));
    }
  }

  method PrintMarks(c: char, texts: Lines) returns (lines: Lines)
    ensures lines == MarkedLines(c, texts, [])
  {
    lines := [];
    for i := 0 to |texts|
      invariant lines + MarkedLines(c, texts[i..], []) == MarkedLines(c, texts, [])
    {
      var l := [CTRL, c, ' '] + texts[i];
      assert texts[i..][1..] == texts[i + 1..];
      ConcatAssoc(lines, [l], MarkedLines(c, texts[i + 1..], []));
      lines := lines + [l];
    }
  }

  lemma ListThen(c: char, seqs: seq<nat>, rest: Lines)
    ensures ListLines(c, seqs, rest) == ListLines(c, seqs, []) + rest
  {
  }

  lemma {:induction false} MarkedThen(c: char, texts: Lines, rest: Lines)
    ensures MarkedLines(c, texts, rest) == MarkedLines(c, texts, []) + rest
  {
    if texts != [] {
      MarkedThen(c, texts[1..], rest);
      ConcatAssoc([[CTRL, c, ' '] + texts[0]], MarkedLines(c, texts[1..], []), rest);
    }
  }

  lemma {:induction false} RecordThen(d: Delta, rest: Lines)
    requires Printable(d)
    ensures PrintDelta(d, rest) == PrintDelta(d, []) + rest
  {
    hide CountsLine, Joined, Fields, ListLines, MarkedLines;
    var end := [[CTRL, 'e']];
    assert end + [] == end;
    var i, x, g := ListLines('i', d.included, []), ListLines('x', d.excluded, []), ListLines('g', d.ignored, []);
    var m, c := MarkedLines('m', d.mrs, []), MarkedLines('c', d.comments, []);
    RecordParts(d, end, i, x, g, m, c);
    RecordParts(d, end + rest, i, x, g, m, c);
    var head := [CountsLine(d), [CTRL, 'd', ' '] + Joined(Fields(d))];
    assert head + (i + (x + (g + (m + (c + (end + rest)))))) == head + (i + (x + (g + (m + (c + end))))) + rest;
  }

  lemma RecordParts(d: Delta, end: Lines, i: Lines, x: Lines, g: Lines, m: Lines, c: Lines)
    requires i == ListLines('i', d.included, []) && x == ListLines('x', d.excluded, []) && g == ListLines('g', d.ignored, [])
    requires m == MarkedLines('m', d.mrs, []) && c == MarkedLines('c', d.comments, [])
    ensures ListLines('i', d.included, ListLines('x', d.excluded, ListLines('g', d.ignored,
              MarkedLines('m', d.mrs, MarkedLines('c', d.comments, end)))))
         == i + (x + (g + (m + (c + end))))
  {
    MarkedThen('c', d.comments, end);
    MarkedThen('m', d.mrs, c + end);
    ListThen('g', d.ignored, m + (c + end));
    ListThen('x', d.excluded, g + (m + (c + end)));
    ListThen('i', d.included, x + (g + (m + (c + end))));
  }

  /** Writes the whole record. */
  method WriteDelta(d: Delta) returns (lines: Lines)
    requires Printable(d)
    ensures lines == PrintDelta(d, [])
  {
    hide CountsLine, Joined, Fields, ListLines, MarkedLines;
    var i := PrintSeqs('i', d.included);
    var x := PrintSeqs('x', d.excluded);
    var g := PrintSeqs('g', d.ignored);
    var m := PrintMarks('m', d.mrs);
    var c := PrintMarks('c', d.comments);
    var end := [[CTRL, 'e']];
    assert end + [] == end;
    RecordParts(d, end, i, x, g, m, c);
    lines := [CountsLine(d), [CTRL, 'd', ' '] + Joined(Fields(d))] + (i + (x + (g + (m + (c + end)))));
  }

  /** Reads the numbers of a list line. */
  method ReadSeqs(s: string) returns (r: Option<seq<nat>>)
    ensures r == ParseSeqs(s)
  {
    var seqs: seq<nat>, rest := [], s;
    NothingPrepended(ParseSeqs(s));
    while true
      invariant ParseSeqs(s) == Prepended(seqs, ParseSeqs(rest))
      decreases |rest|
    {
      var k := Find(rest, ' ');
      var n := StrictAtous(rest[..k]);
      if n.None? {
        return None;
      }
      if k == |rest| {
        return Some(seqs + [n.value]);
      }
      PrependedMore(seqs, n.value, ParseSeqs(rest[k + 1..]));
      seqs, rest := seqs + [n.value], rest[k + 1..];
    }
  }

  function Prepended(seqs: seq<nat>, r: Option<seq<nat>>): Option<seq<nat>> {
    if r.None? then None else Some(seqs + r.value)
  }

  lemma NothingPrepended(r: Option<seq<nat>>)
    ensures Prepended([], r) == r
  {
    if r.Some? {
      assert [] + r.value == r.value;
    }
  }

  lemma PrependedMore(seqs: seq<nat>, n: nat, r: Option<seq<nat>>)
    ensures Prepended(seqs, Prepended([n], r)) == Prepended(seqs + [n], r)
  {
    if r.Some? {
      ConcatAssoc(seqs, [n], r.value);
    }
  }

  method ReadList(c: char, lines: Lines) returns (r: Option<(seq<nat>, Lines)>)
    ensures r == TakeList(c, lines)
  {
    if lines == [] {
      return None;
    }
    if LineType(lines[0]) != c {
      return Some(([], lines));
    }
    if !HasArg(lines[0]) {
      return Some(([], lines[1..]));
    }
    var seqs := ReadSeqs(lines[0][3..]);
    return if seqs.None? then None else Some((seqs.value, lines[1..]));
  }

  /** Reads MR and comment lines in whatever order they come. */
  method ReadMarks(lines: Lines) returns (m: Marks)
    ensures m == TakeMarks(lines)
  {
    var mrs: Lines, comments: Lines, i := [], [], 0;
    while i < |lines| && (LineType(lines[i]) == 'm' || LineType(lines[i]) == 'c')
      invariant 0 <= i <= |lines|
      invariant var t := TakeMarks(lines[i..]); TakeMarks(lines) == Marks(mrs + t.mrs, comments + t.comments, t.rest)
    {
      var l := lines[i];
      ghost var t := TakeMarks(lines[i + 1..]);
      assert lines[i..][1..] == lines[i + 1..];
      if LineType(l) == 'm' {
        if HasArg(l) {
          ConcatAssoc(mrs, [l[3..]], t.mrs);
          mrs := mrs + [l[3..]];
        }
      } else {
        var text := if |l| >= 3 then l[3..] else "";
        ConcatAssoc(comments, [text], t.comments);
        comments := comments + [text];
      }
      i := i + 1;
    }
    m := Marks(mrs, comments, lines[i..]);
  }

  /** Reads a whole record. */
  method ReadDelta(lines: Lines) returns (r: Option<(Delta, Lines)>)
    ensures r == ParseDelta(lines)
  {
    hide ParseHead, TakeList, TakeMarks;
    if |lines| < 2 {
      return None;
    }
    var head := ParseHead(lines[0], lines[1]);
    var i := ReadList('i', lines[2..]);
    if head.None? || i.None? {
      return None;
    }
    var x := ReadList('x', i.value.1);
    if x.None? {
      return None;
    }
    var g := ReadList('g', x.value.1);
    if g.None? {
      return None;
    }
    var m := ReadMarks(g.value.1);
    if m.rest == [] || m.rest[0] != [CTRL, 'e'] {
      return None;
    }
    var d := head.value.(included := i.value.0, excluded := x.value.0, ignored := g.value.0, mrs := m.mrs, comments := m.comments);
    return Some((d, m.rest[1..]));
  }
}
