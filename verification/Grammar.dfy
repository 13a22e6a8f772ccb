/** What the readers accept and refuse, on any input at all.  The round trips speak of what was written by
    this program; these lemmas speak of the rest. */
module Grammar {
  import opened Basics
  import opened Decimal
  import opened Weave
  import opened Sids
  import opened Deltas
  import opened HeaderText
  import opened DeltaRecords
  import opened BodyText
  import opened FileHeaders

  // ---------------------------------------------------------------- what can be written

  /** A delta can be written and read back whenever its type is D or R, its SID is whole and fits 16 bits, its date
      is valid and in the years that two digits can name, its user has no space or newline, its numbers fit 16 bits
      and its counts five digits, and no MR or comment has a newline in it. */
  lemma WhatCanBeWritten(d: Deltas.Delta)
    requires d.kind == 'D' || d.kind == 'R'
    requires 1 <= d.id.rel <= 32767 && 1 <= d.id.level <= 32767
    requires (d.id.branch == 0 && d.id.sequence == 0) || (1 <= d.id.branch <= 32767 && 1 <= d.id.sequence <= 32767)
    requires ValidDate(d.date) && 1969 <= d.date.year <= 2068
    requires ' ' !in d.user && '\n' !in d.user && d.seqNo <= 65535 && d.prevSeq <= 65535
    requires forall i :: 0 <= i < |d.included| ==> d.included[i] <= 65535
    requires forall i :: 0 <= i < |d.excluded| ==> d.excluded[i] <= 65535
    requires forall i :: 0 <= i < |d.ignored| ==> d.ignored[i] <= 65535
    requires forall i :: 0 <= i < |d.mrs| ==> '\n' !in d.mrs[i]
    requires forall i :: 0 <= i < |d.comments| ==> '\n' !in d.comments[i]
    requires d.inserted <= 99999 && d.deleted <= 99999 && d.unchangedLines <= 99999
    ensures Writable(d)
  {
    hide ValidDate;
  }

  /** Text is plain whenever it does not start with `^A` and has no newline in it; flags whenever they have none. */
  lemma WhatIsPlain(s: string, f: Flag)
    ensures (s == "" || s[0] != '\U{0001}') && '\n' !in s ==> Plain(s)
    ensures f.letter != '\n' && (f.arg == None || '\n' !in f.arg.value) ==> FlagWritable(f)
  {
  }

  // ---------------------------------------------------------------- SIDs

  /** Conversion to 16 bits keeps the number modulo 65536. */
  lemma ShortWraps(n: int)
    ensures -32768 <= ToShort(n) <= 32767 && (ToShort(n) - n) % 65536 == 0
  {
  }

  predicate SidChar(c: char) {
    IsDigit(c) || c == '.'
  }

  ghost predicate Strange(s: string) {
    exists c :: c in s && !SidChar(c)
  }

  /** A component never reads past a character that does not belong into a SID. */
  lemma {:induction false} ComponentStops(s: string, n: nat)
    requires Strange(s)
    ensures Strange(IdComp(s, n).1)
  {
    var c :| c in s && !SidChar(c);
    assert s == [s[0]] + s[1..];
    if IsDigit(s[0]) {
      assert c in s[1..];
      ComponentStops(s[1..], n * 10 + DigitValue(s[0]));
    } else if s[0] == '.' && n != 0 {
      assert c in s[1..];
    }
  }

  /** Text with anything but digits and dots in it is no SID. */
  lemma StrangeSidIsRefused(s: string)
    requires Strange(s)
    ensures ParseSid(s).rel == -1
  {
    hide IdComp, Strange;
    var s1 := IdComp(s, 0).1;
    ComponentStops(s, 0);
    var s2 := IdComp(s1, 0).1;
    ComponentStops(s1, 0);
    var s3 := IdComp(s2, 0).1;
    ComponentStops(s2, 0);
    ComponentStops(s3, 0);
    NothingIsPlain();
  }

  lemma NothingIsPlain()
    ensures !Strange("")
  {
  }

  /** Nor is text with an empty component, or with none, or with a fifth component; and no SID has release 0. */
  lemma EmptyComponentIsRefused(n: nat, t: string)
    requires HeaderText.Short(n)
    ensures ParseSid(Print(n) + ("." + ("." + t))).rel == -1 && ParseSid("." + t).rel == -1 && ParseSid("").rel == -1
  {
    IdCompDot(n, "." + t);
    var dot := "." + t;
    assert IdComp(dot, 0) == (-1, dot);
    assert IdComp("", 0) == (0, "");
  }

  lemma FifthComponentIsRefused(a: nat, b: nat, c: nat, d: nat, t: string)
    requires HeaderText.Short(a) && HeaderText.Short(b) && HeaderText.Short(c) && HeaderText.Short(d) && t != ""
    ensures ParseSid(Print(a) + ("." + (Print(b) + ("." + (Print(c) + ("." + (Print(d) + ("." + t)))))))).rel == -1
  {
    hide IdComp, Print;
    IdCompDot(a, Print(b) + ("." + (Print(c) + ("." + (Print(d) + ("." + t))))));
    IdCompDot(b, Print(c) + ("." + (Print(d) + ("." + t))));
    IdCompDot(c, Print(d) + ("." + t));
    IdCompDot(d, t);
  }

  lemma ReleaseIsNotZero(s: string)
    ensures ParseSid(s).rel != 0
  {
  }

  /** What can be compared: valid SIDs on the trunk, or with the same branch number and, at that, the same
      release or the same level. */
  lemma ComparableExactlyWhen(x: Sid, y: Sid)
    ensures x.Comparable(y) <==> x.rel > 0 && y.rel > 0 && x.branch == y.branch
                                 && (x.branch == 0 || x.rel == y.rel || x.level == y.level)
    ensures x.Above(y) ==> y.Below(x) && !x.AtMost(y)
  {
  }

  /** Stepping back undoes stepping on. */
  lemma PredUndoesSucc(x: Sid)
    requires x.level != -1 && x.branch != -1
    ensures x.Succ().Pred() == x
  {
  }

  // ---------------------------------------------------------------- dates

  /** A date is valid exactly when all its parts are in range; seconds may go up to 61. */
  lemma DateIsValidExactlyWhen(d: Date)
    ensures ValidDate(d) <==>
            && 0 <= d.year && 1 <= d.month <= 12 && 1 <= d.day
            && d.day <= (if d.month == 2 then (if d.year % 4 == 0 && (d.year % 100 != 0 || d.year % 400 == 0) then 29 else 28)
                         else if d.month == 4 || d.month == 6 || d.month == 9 || d.month == 11 then 30 else 31)
            && 0 <= d.hour <= 23 && 0 <= d.minute <= 59 && 0 <= d.second <= 61
  {
  }

  lemma PairIsValue(s: string, i: nat)
    requires i + 1 < |s| && IsDigit(s[i]) && IsDigit(s[i + 1])
    ensures AllDigits(s[i..i + 2]) && Pair(s, i) == Value(s[i..i + 2])
  {
    var t := s[i..i + 2];
    assert t[..1][..0] == [] && t[..1][0] == s[i] && t[1] == s[i + 1];
    assert Value(t[..1]) == DigitValue(s[i]);
  }

  /** Two-digit years: 69-99 are in the last century and 00-68 in this one; month, day and time are read from
      their places. */
  lemma PlainDate(s: string, t: string)
    requires Triple(s, '/') && Triple(t, ':')
    ensures AllDigits(s[0..2]) && AllDigits(s[3..5]) && AllDigits(s[6..8]) && AllDigits(t[0..2]) && AllDigits(t[3..5]) && AllDigits(t[6..8])
    ensures var yy, d := Value(s[0..2]), ParseDate(s, t);
            && d.year == (if yy >= 69 then 1900 + yy else 2000 + yy)
            && d.month == Value(s[3..5]) && d.day == Value(s[6..8])
            && d.hour == Value(t[0..2]) && d.minute == Value(t[3..5]) && d.second == Value(t[6..8])
  {
    hide Value;
    PairIsValue(s, 0);
    PairIsValue(s, 3);
    PairIsValue(s, 6);
    PairIsValue(t, 0);
    PairIsValue(t, 3);
    PairIsValue(t, 6);
  }

  /** A first character past '9', left by a program with a year-2000 fault, stands for the digit ten before it. */
  lemma FaultyDate(k: nat, s: string, t: string)
    requires k <= 6 && |s| == 7
    ensures ParseDate([(58 + k) as char] + s, t) == ParseDate([(48 + k) as char] + s, t)
  {
    var bad, good := [(58 + k) as char] + s, [(48 + k) as char] + s;
    assert bad[0] == (58 + k) as char && good[0] == (48 + k) as char && bad[1..] == s && good[1..] == s;
    assert ':' <= bad[0] <= '@';
    assert (bad[0] as int - 10) as char == good[0];
    assert Mended(bad) == good && !FourDigitYear(bad);
    if FourDigitYear(good) {
      assert |Mended(good)| == 6;
    } else {
      assert Mended(good) == good;
    }
  }

  /** A four-digit year is taken as it stands. */
  lemma FourDigitDate(c: string, s: string, t: string)
    requires |c| == 2 && IsDigit(c[0]) && IsDigit(c[1]) && c != "00" && Triple(s, '/') && Triple(t, ':')
    ensures ParseDate(c + s, t) == ParseDate(s, t).(year := Pair(c, 0) * 100 + Pair(s, 0))
  {
    var d := c + s;
    assert d[2..] == s && d[0] == c[0] && d[1] == c[1] && d[2] == s[0] && d[3] == s[1] && d[4] == s[2];
    assert FourDigitYear(d) && Mended(d) == s && !FourDigitYear(s) && Mended(s) == s;
    assert Pair(d, 0) == Pair(c, 0);
    assert c == [c[0], c[1]];
  }

  /** Anything else is no date. */
  lemma OtherDateIsRefused(s: string, t: string)
    requires !Triple(t, ':') || (|s| != 8 && |s| != 10)
    ensures !ValidDate(ParseDate(s, t))
  {
    assert FourDigitYear(s) ==> |Mended(s)| == |s| - 2;
    assert !FourDigitYear(s) ==> |Mended(s)| == |s|;
  }

  // ---------------------------------------------------------------- line counts

  function Blanks(k: nat): (s: string)
    ensures |s| == k && forall i :: 0 <= i < k ==> s[i] == ' '
  {
    if k == 0 then "" else [' '] + Blanks(k - 1)
  }

  lemma {:induction false} SkipBlanks(k: nat, t: string)
    requires t == "" || t[0] != ' '
    ensures SkipSpaces(Blanks(k) + t) == t
  {
    if k == 0 {
      assert "" + t == t;
    } else {
      assert (Blanks(k) + t)[1..] == Blanks(k - 1) + t;
      SkipBlanks(k - 1, t);
    }
  }

  lemma {:induction false} CountDigits(s: string, t: string)
    requires AllDigits(s) && (t == "" || !IsDigit(t[0]))
    ensures DigitCount(s + t) == |s|
  {
    if s == "" {
      assert s + t == t;
    } else {
      assert (s + t)[1..] == s[1..] + t;
      CountDigits(s[1..], t);
    }
  }

  /** A count may be padded with spaces on the left and may be followed by the end or a space, and by nothing
      else: a sign or a letter makes the file corrupt. */
  lemma CountGrammar(k: nat, s: string, t: string)
    requires AllDigits(s) && (t == "" || !IsDigit(t[0])) && (s == "" && t != "" ==> t[0] != ' ')
    ensures ParseCount(Blanks(k) + (s + t)) == if t == "" || t[0] == ' ' then Some(Value(s)) else None
  {
    hide Value;
    SkipBlanks(k, s + t);
    CountDigits(s, t);
    assert (s + t)[..|s|] == s;
  }

  // ---------------------------------------------------------------- records

  /** The first two lines of a record are accepted exactly when they are of the right types, have three and seven
      fields, the type is D or R, SID and date are valid and all numbers are; and they mean what their fields say. */
  lemma HeadGrammar(counts: string, head: string)
    ensures var cs, fs := Split(counts[if |counts| >= 3 then 3 else |counts|..], '/', 3), Split(head[if |head| >= 3 then 3 else |head|..], ' ', 7);
            && (ParseHead(counts, head).Some? <==>
                  && |counts| >= 3 && counts[0] == '\U{0001}' && counts[1] == 's' && counts[2] == ' ' && |cs| == 3
                  && |head| >= 3 && head[0] == '\U{0001}' && head[1] == 'd' && head[2] == ' ' && |fs| == 7
                  && (fs[0] == "D" || fs[0] == "R") && ParseSid(fs[1]).rel > 0 && ValidDate(ParseDate(fs[2], fs[3]))
                  && ParseCount(cs[0]).Some? && ParseCount(cs[1]).Some? && ParseCount(cs[2]).Some?
                  && Atous(fs[5]).Some? && Atous(fs[6]).Some?)
            && (ParseHead(counts, head).Some? ==>
                  var d := ParseHead(counts, head).value;
                  && fs[0] == [d.kind] && d.id == ParseSid(fs[1]) && d.date == ParseDate(fs[2], fs[3]) && d.user == fs[4]
                  && Some(d.seqNo) == Atous(fs[5]) && Some(d.prevSeq) == Atous(fs[6])
                  && Some(d.inserted) == ParseCount(cs[0]) && Some(d.deleted) == ParseCount(cs[1]) && Some(d.unchangedLines) == ParseCount(cs[2])
                  && d.included == d.excluded == d.ignored == [] && d.mrs == d.comments == [])
  {
    hide ParseSid, ParseDate, ParseCount, Atous, Split, ValidDate;
  }

  /** An optional list: no line of its letter is no list, a line without argument an empty one, and a bad number
      makes the file corrupt. */
  lemma ListGrammar(c: char, l: string, rest: Lines)
    requires c != '\0'
    ensures !(|l| >= 2 && l[0] == '\U{0001}' && l[1] == c) ==> TakeList(c, [l] + rest) == Some(([], [l] + rest))
    ensures |l| >= 2 && l[0] == '\U{0001}' && l[1] == c && (|l| == 2 || l[2] != ' ') ==> TakeList(c, [l] + rest) == Some(([], rest))
    ensures |l| >= 3 && l[0] == '\U{0001}' && l[1] == c && l[2] == ' ' ==>
              TakeList(c, [l] + rest) == if ParseSeqs(l[3..]).Some? then Some((ParseSeqs(l[3..]).value, rest)) else None
    ensures TakeList(c, []) == None
  {
    assert ([l] + rest)[1..] == rest;
  }

  /** A list is accepted exactly when every piece between spaces is a 16-bit number. */
  lemma SeqsGrammar(a: string, t: string)
    requires ' ' !in a
    ensures ParseSeqs(a) == if Atous(a).Some? then Some([Atous(a).value]) else None
    ensures ParseSeqs(a + (" " + t))
         == if Atous(a).Some? && ParseSeqs(t).Some? then Some([Atous(a).value] + ParseSeqs(t).value) else None
  {
    hide Atous, Find;
    FindFirst(a, ' ', t);
    var s := a + (" " + t);
    assert a[..|a|] == a && s[..|a|] == a && s[|a| + 1..] == t;
  }

  /** Records are read as long as a line starts with `^As`; a file that ends there is corrupt. */
  lemma TableGrammar(l: string, rest: Lines)
    ensures ParseTable([]).None?
    ensures !(|l| >= 2 && l[0] == '\U{0001}' && l[1] == 's') ==> ParseTable([l] + rest) == Some(([], [l] + rest))
    ensures |l| >= 2 && l[0] == '\U{0001}' && l[1] == 's' ==>
              var d := ParseDelta([l] + rest);
              ParseTable([l] + rest)
              == if d.Some? && ParseTable(d.value.1).Some?
                 then Some(([d.value.0] + ParseTable(d.value.1).value.0, ParseTable(d.value.1).value.1)) else None
  {
    hide ParseDelta;
  }

  /** MR lines without argument are passed over, comment lines without one are empty comments, and the first
      line of another kind ends them. */
  lemma MarkGrammar(l: string, rest: Lines)
    ensures var m, all := TakeMarks(rest), TakeMarks([l] + rest);
            && (|l| >= 3 && l[0] == '\U{0001}' && l[1] == 'm' && l[2] == ' ' ==> all == Marks([l[3..]] + m.mrs, m.comments, m.rest))
            && (|l| >= 2 && l[0] == '\U{0001}' && l[1] == 'm' && (|l| == 2 || l[2] != ' ') ==> all == m)
            && (|l| >= 3 && l[0] == '\U{0001}' && l[1] == 'c' ==> all == Marks(m.mrs, [l[3..]] + m.comments, m.rest))
            && (l == ['\U{0001}', 'c'] ==> all == Marks(m.mrs, [""] + m.comments, m.rest))
            && (!(|l| >= 2 && l[0] == '\U{0001}' && (l[1] == 'm' || l[1] == 'c')) ==> all == Marks([], [], [l] + rest))
  {
    assert ([l] + rest)[1..] == rest;
  }

  /** A record ends with `^Ae` and nothing else, and what is left follows that line. */
  lemma RecordEnds(lines: Lines)
    requires ParseDelta(lines).Some?
    ensures IsTail([['\U{0001}', 'e']] + ParseDelta(lines).value.1, lines)
  {
    hide ParseHead, TakeList, TakeMarks, IsTail;
    var i := TakeList('i', lines[2..]).value.1;
    var x := TakeList('x', i).value.1;
    var g := TakeList('g', x).value.1;
    var m := TakeMarks(g).rest;
    ListsLeave(lines[2..], i, x, g);
    MarksLeave(g);
    IsTailTrans(m, g, lines[2..]);
    TailIsTail(lines, 2);
    IsTailTrans(m, lines[2..], lines);
    assert m == [m[0]] + m[1..];
  }

  lemma ListsLeave(lines: Lines, i: Lines, x: Lines, g: Lines)
    requires TakeList('i', lines).Some? && i == TakeList('i', lines).value.1
    requires TakeList('x', i).Some? && x == TakeList('x', i).value.1
    requires TakeList('g', x).Some? && g == TakeList('g', x).value.1
    ensures IsTail(g, lines)
  {
    hide TakeList, IsTail;
    ListLeaves('i', lines);
    ListLeaves('x', i);
    ListLeaves('g', x);
    IsTailTrans(g, x, i);
    IsTailTrans(g, i, lines);
  }

  lemma TailIsTail(lines: Lines, k: nat)
    requires k <= |lines|
    ensures IsTail(lines[k..], lines)
  {
  }

  /** The lines end with these. */
  predicate IsTail(rest: Lines, lines: Lines) {
    |rest| <= |lines| && lines[|lines| - |rest|..] == rest
  }

  lemma IsTailTrans(a: Lines, b: Lines, c: Lines)
    requires IsTail(a, b) && IsTail(b, c)
    ensures IsTail(a, c)
  {
    assert c[|c| - |a|..] == c[|c| - |b|..][|b| - |a|..];
  }

  lemma ListLeaves(c: char, lines: Lines)
    ensures TakeList(c, lines).Some? ==> IsTail(TakeList(c, lines).value.1, lines)
  {
  }

  lemma {:induction false} MarksLeave(lines: Lines)
    ensures IsTail(TakeMarks(lines).rest, lines)
  {
    if lines != [] {
      MarksLeave(lines[1..]);
      var rest := TakeMarks(lines[1..]).rest;
      assert IsTail(lines[1..], lines);
      IsTailTrans(rest, lines[1..], lines);
    }
  }

  // ---------------------------------------------------------------- the other sections

  /** A flag line has a letter after `^Af`, and after that nothing or a space and the argument. */
  lemma FlagGrammar(s: string)
    ensures ParseFlag(s).Some? <==> |s| >= 4 && s[2] == ' ' && (|s| == 4 || s[4] == ' ')
    ensures ParseFlag(s).Some? ==> ParseFlag(s).value.letter == s[3] && (ParseFlag(s).value.arg.None? <==> |s| == 4)
    ensures ParseFlag(s).Some? && |s| > 4 ==> ParseFlag(s).value.arg == Some(s[5..])
  {
  }

  /** Whatever sections are accepted: `^Au` alone on its line, lines that are no control lines, `^AU`, flags, `^At`,
      lines that are no control lines, `^AT`. */
  lemma SectionsGrammar(lines: Lines) returns (u: string, fs: Lines, t: string, e: string)
    requires ParseSections(lines).Some?
    ensures var (users, flags, comments, rest) := ParseSections(lines).value;
            && lines == [['\U{0001}', 'u']] + (users + ([u] + (fs + ([t] + (comments + ([e] + rest))))))
            && LineType(u) == 'U' && LineType(t) == 't' && LineType(e) == 'T'
            && (forall l :: l in users || l in comments ==> LineType(l) == '\0')
            && |fs| == |flags| && forall i :: 0 <= i < |fs| ==> LineType(fs[i]) == 'f' && ParseFlag(fs[i]) == Some(flags[i])
  {
    hide LineType, ParseFlag, TakePlain, ParseFlags;
    var (users, ls) := TakePlain(lines[1..]);
    PlainTaken(lines[1..]);
    fs := FlagsTaken(ls[1..]);
    var ls2 := ParseFlags(ls[1..]).value.1;
    var (comments, end) := TakePlain(ls2[1..]);
    PlainTaken(ls2[1..]);
    u, t, e := ls[0], ls2[0], end[0];
    assert lines == [lines[0]] + lines[1..] && ls == [u] + ls[1..] && ls2 == [t] + ls2[1..] && end == [e] + end[1..];
  }

  lemma {:induction false} PlainTaken(lines: Lines)
    ensures var (plain, rest) := TakePlain(lines);
            lines == plain + rest && forall l :: l in plain ==> LineType(l) == '\0'
  {
    hide LineType;
    if lines != [] && LineType(lines[0]) == '\0' {
      PlainTaken(lines[1..]);
      var more := TakePlain(lines[1..]);
      assert [lines[0]] + (more.0 + more.1) == lines;
      assert [lines[0]] + more.0 + more.1 == [lines[0]] + (more.0 + more.1);
    }
  }

  lemma {:induction false} FlagsTaken(lines: Lines) returns (fs: Lines)
    requires ParseFlags(lines).Some?
    ensures var (flags, rest) := ParseFlags(lines).value;
            && lines == fs + rest && |fs| == |flags|
            && forall i :: 0 <= i < |fs| ==> LineType(fs[i]) == 'f' && ParseFlag(fs[i]) == Some(flags[i])
  {
    hide LineType, ParseFlag;
    fs := [];
    if LineType(lines[0]) == 'f' {
      var more := FlagsTaken(lines[1..]);
      fs := [lines[0]] + more;
      assert fs + ParseFlags(lines).value.1 == [lines[0]] + lines[1..];
    }
  }

  // ---------------------------------------------------------------- the body

  /** A body line that starts with `^A` and a letter is accepted exactly when the letter is I, D or E, a space
      follows and the rest is a 16-bit number. */
  lemma BodyLineGrammar(s: string)
    requires |s| >= 2 && s[0] == '\U{0001}' && s[1] != '\0'
    ensures ParseLine(s).Some? <==> (s[1] == 'I' || s[1] == 'D' || s[1] == 'E') && |s| >= 3 && s[2] == ' ' && Atous(s[3..]).Some?
    ensures ParseLine(s).Some? ==> !ParseLine(s).value.Text? && Some(ParseLine(s).value.n) == Atous(s[3..])
  {
    hide Atous;
  }

  /** Any other line is text. */
  lemma TextLineGrammar(s: string)
    requires |s| < 2 || s[0] != '\U{0001}' || s[1] == '\0'
    ensures ParseLine(s) == Some(Text(s))
  {
  }
}
