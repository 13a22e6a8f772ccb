/** The header of an s-file: the delta table, the authorised users, the flags and the comments. */
module FileHeaders {
  import opened Basics
  import opened Deltas
  import opened HeaderText
  import opened DeltaRecords
  import opened BodyText

  /** A flag as it is read, before its letter is given a meaning. */
  datatype Flag = Flag(letter: char, arg: Option<string>)

  datatype Header = Header(table: seq<Delta>, users: Lines, flags: seq<Flag>, comments: Lines)

  // ---------------------------------------------------------------- writing

  predicate AllPrintable(ds: seq<Delta>) {
    forall i :: 0 <= i < |ds| ==> Printable(ds[i])
  }

  function PrintTable(ds: seq<Delta>, rest: Lines): Lines
    requires AllPrintable(ds)
  {
    if ds == [] then rest else PrintDelta(ds[0], PrintTable(ds[1..], rest))
  }

  function PrintFlag(f: Flag): string {
    [CTRL, 'f', ' ', f.letter] + if f.arg.Some? then " " + f.arg.value else ""
  }

  function PrintFlags(fs: seq<Flag>, rest: Lines): Lines {
    if fs == [] then rest else [PrintFlag(fs[0])] + PrintFlags(fs[1..], rest)
  }

  /** Everything between the delta table and the body, followed by the rest of the file. */
  function PrintSections(users: Lines, flags: seq<Flag>, comments: Lines, rest: Lines): Lines {
    [[CTRL, 'u']] + (users + ([[CTRL, 'U']] + PrintFlags(flags, [[CTRL, 't']] + (comments + ([[CTRL, 'T']] + rest)))))
  }

  function PrintHeader(h: Header, rest: Lines): Lines
    requires AllPrintable(h.table)
  {
    PrintTable(h.table, PrintSections(h.users, h.flags, h.comments, rest))
  }

  // ---------------------------------------------------------------- reading

  /** Records are read as long as a line of counts follows. */
  function ParseTable(lines: Lines): (r: Option<(seq<Delta>, Lines)>)
    ensures r.Some? ==> r.value.1 != []
    decreases |lines|
  {
    if lines == [] then None
    else if LineType(lines[0]) != 's' then Some(([], lines))
    else
      var d := ParseDelta(lines);
      if d.None? then None
      else
        var more := ParseTable(d.value.1);
        if more.None? then None else Some(([d.value.0] + more.value.0, more.value.1))
  }

  function ParseFlag(s: string): Option<Flag> {
    if !HasArg(s) || |s| == 3 || (|s| > 4 && s[4] != ' ') then None
    else Some(Flag(s[3], if |s| > 4 then Some(s[5..]) else None))
  }

  function ParseFlags(lines: Lines): (r: Option<(seq<Flag>, Lines)>)
    ensures r.Some? ==> r.value.1 != []
  {
    if lines == [] then None
    else if LineType(lines[0]) != 'f' then Some(([], lines))
    else
      var f, more := ParseFlag(lines[0]), ParseFlags(lines[1..]);
      if f.None? || more.None? then None else Some(([f.value] + more.value.0, more.value.1))
  }

  /** The lines up to the first control line. */
  function TakePlain(lines: Lines): (Lines, Lines) {
    if lines == [] || LineType(lines[0]) != '\0' then ([], lines)
    else
      var more := TakePlain(lines[1..]);
      ([lines[0]] + more.0, more.1)
  }

  function ParseSections(lines: Lines): Option<(Lines, seq<Flag>, Lines, Lines)> {
    if lines == [] || lines[0] != [CTRL, 'u'] then None
    else
      var (users, ls) := TakePlain(lines[1..]);
      if ls == [] || LineType(ls[0]) != 'U' then None
      else
        var flags := ParseFlags(ls[1..]);
        if flags.None? || LineType(flags.value.1[0]) != 't' then None
        else
          var (comments, end) := TakePlain(flags.value.1[1..]);
          if end == [] || LineType(end[0]) != 'T' then None else Some((users, flags.value.0, comments, end[1..]))
  }

  /** The header, and the lines of the body that follow it. */
  function ParseHeader(lines: Lines): Option<(Header, Lines)> {
    var t := ParseTable(lines);
    if t.None? then None
    else
      var s := ParseSections(t.value.1);
      if s.None? then None else Some((Header(t.value.0, s.value.0, s.value.1, s.value.2), s.value.3))
  }

  // ---------------------------------------------------------------- the round trip

  ghost predicate AllWritable(ds: seq<Delta>) {
    forall i :: 0 <= i < |ds| ==> Writable(ds[i])
  }

  predicate FlagWritable(f: Flag) {
    f.letter != '\n' && (f.arg.Some? ==> '\n' !in f.arg.value)
  }

  predicate AllFlagsWritable(fs: seq<Flag>) {
    forall i :: 0 <= i < |fs| ==> FlagWritable(fs[i])
  }

  /** What the header can hold without loss. */
  ghost predicate HeaderWritable(h: Header) {
    AllWritable(h.table) && AllPlain(h.users) && AllFlagsWritable(h.flags) && AllPlain(h.comments)
  }

  lemma RecordStarts(d: Delta, rest: Lines)
    requires Printable(d)
    ensures PrintDelta(d, rest) != [] && LineType(PrintDelta(d, rest)[0]) == 's'
  {
    hide Joined, Fields, ListLines, MarkedLines;
  }

  /** A list of records printed in order parses back, whatever follows that is not a record. */
  lemma {:induction false} TableRoundTrip(ds: seq<Delta>, rest: Lines)
    requires AllWritable(ds) && rest != [] && LineType(rest[0]) != 's'
    ensures AllPrintable(ds) && ParseTable(PrintTable(ds, rest)) == Some((ds, rest))
  {
    hide ParseDelta, PrintDelta, LineType;
    if ds != [] {
      assert Writable(ds[0]);
      TableRoundTrip(ds[1..], rest);
      var more := PrintTable(ds[1..], rest);
      RecordStarts(ds[0], more);
      RecordRoundTrip(ds[0], more);
      assert [ds[0]] + ds[1..] == ds;
    }
  }

  lemma FlagRoundTrip(f: Flag)
    ensures LineType(PrintFlag(f)) == 'f' && ParseFlag(PrintFlag(f)) == Some(f)
  {
    if f.arg.Some? {
      assert PrintFlag(f)[5..] == f.arg.value;
    }
  }

  lemma {:induction false} FlagsRoundTrip(fs: seq<Flag>, rest: Lines)
    requires rest != [] && LineType(rest[0]) != 'f'
    ensures ParseFlags(PrintFlags(fs, rest)) == Some((fs, rest))
  {
    hide PrintFlag, ParseFlag, LineType;
    if fs != [] {
      FlagRoundTrip(fs[0]);
      FlagsRoundTrip(fs[1..], rest);
      assert PrintFlags(fs, rest)[1..] == PrintFlags(fs[1..], rest);
      assert [fs[0]] + fs[1..] == fs;
    }
  }

  lemma {:induction false} PlainRoundTrip(ls: Lines, rest: Lines)
    requires AllPlain(ls) && rest != [] && LineType(rest[0]) != '\0'
    ensures TakePlain(ls + rest) == (ls, rest)
  {
    if ls == [] {
      assert ls + rest == rest;
    } else {
      assert (ls + rest)[1..] == ls[1..] + rest;
      PlainRoundTrip(ls[1..], rest);
      assert [ls[0]] + ls[1..] == ls;
    }
  }

  lemma {:induction false} SectionsRoundTrip(users: Lines, flags: seq<Flag>, comments: Lines, rest: Lines)
    requires AllPlain(users) && AllPlain(comments)
    ensures ParseSections(PrintSections(users, flags, comments, rest)) == Some((users, flags, comments, rest))
  {
    hide TakePlain, ParseFlags, PrintFlags;
    var end := [[CTRL, 'T']] + rest;
    var t := [[CTRL, 't']] + (comments + end);
    var u := [[CTRL, 'U']] + PrintFlags(flags, t);
    PlainRoundTrip(comments, end);
    FlagsRoundTrip(flags, t);
    PlainRoundTrip(users, u);
    var all := PrintSections(users, flags, comments, rest);
    assert all[1..] == users + u && u[1..] == PrintFlags(flags, t) && t[1..] == comments + end && end[1..] == rest;
  }

  /** Reading a header that was written gives it back, whatever body follows. */
  lemma {:induction false} HeaderRoundTrip(h: Header, rest: Lines)
    requires HeaderWritable(h)
    ensures AllPrintable(h.table) && ParseHeader(PrintHeader(h, rest)) == Some((h, rest))
  {
    hide PrintTable, ParseTable, ParseSections;
    SectionsRoundTrip(h.users, h.flags, h.comments, rest);
    TableRoundTrip(h.table, PrintSections(h.users, h.flags, h.comments, rest));
  }

  /** The sections below the delta table: `^Au`, the users, `^AU`, the flags, `^At`, the comments, `^AT`. */
  lemma SectionsFormat(users: Lines, flags: seq<Flag>, comments: Lines, rest: Lines)
    ensures PrintSections(users, flags, comments, rest)
         == [['\U{0001}', 'u']] + users + [['\U{0001}', 'U']] + PrintFlags(flags, [])
          + [['\U{0001}', 't']] + comments + [['\U{0001}', 'T']] + rest
    ensures |PrintFlags(flags, [])| == |flags| && forall i :: 0 <= i < |flags| ==> PrintFlags(flags, [])[i] == PrintFlag(flags[i])
  {
    hide PrintFlag, PrintFlags;
    FlagsThen(flags, [[CTRL, 't']] + (comments + ([[CTRL, 'T']] + rest)));
    FlagsAt(flags);
  }

  lemma {:induction false} FlagsAt(fs: seq<Flag>)
    ensures |PrintFlags(fs, [])| == |fs| && forall i :: 0 <= i < |fs| ==> PrintFlags(fs, [])[i] == PrintFlag(fs[i])
  {
    hide PrintFlag;
    if fs != [] {
      FlagsAt(fs[1..]);
    }
  }

  /** A flag line: `^Af`, the letter and the argument. */
  lemma FlagFormat(letter: char, arg: string)
    ensures PrintFlag(Flag(letter, None)) == ['\U{0001}', 'f', ' ', letter]
    ensures PrintFlag(Flag(letter, Some(arg))) == ['\U{0001}', 'f', ' ', letter, ' '] + arg
  {
    assert [CTRL, 'f', ' ', letter] + "" == [CTRL, 'f', ' ', letter];
    assert [CTRL, 'f', ' ', letter] + (" " + arg) == [CTRL, 'f', ' ', letter, ' '] + arg;
  }

  // ---------------------------------------------------------------- no newline inside a line

  lemma {:induction false} FlagsUnbroken(fs: seq<Flag>, rest: Lines)
    requires AllFlagsWritable(fs) && NoBreaks(rest)
    ensures NoBreaks(PrintFlags(fs, rest))
  {
    if fs != [] {
      assert FlagWritable(fs[0]);
      FlagsUnbroken(fs[1..], rest);
    }
  }

  lemma {:induction false} TableUnbroken(ds: seq<Delta>, rest: Lines)
    requires AllWritable(ds) && NoBreaks(rest)
    ensures AllPrintable(ds) && NoBreaks(PrintTable(ds, rest))
  {
    hide PrintDelta;
    if ds != [] {
      assert Writable(ds[0]);
      TableUnbroken(ds[1..], rest);
      RecordUnbroken(ds[0], PrintTable(ds[1..], rest));
    }
  }

  lemma {:induction false} HeaderUnbroken(h: Header, rest: Lines)
    requires HeaderWritable(h) && NoBreaks(rest)
    ensures AllPrintable(h.table) && NoBreaks(PrintHeader(h, rest))
  {
    hide PrintTable, PrintFlags;
    FlagsUnbroken(h.flags, [[CTRL, 't']] + (h.comments + ([[CTRL, 'T']] + rest)));
    TableUnbroken(h.table, PrintSections(h.users, h.flags, h.comments, rest));
  }

  // ---------------------------------------------------------------- the loops

  /** Writes everything up to the body. */
  method WriteHeader(h: Header) returns (lines: Lines)
    requires AllPrintable(h.table)
    ensures lines == PrintHeader(h, [])
  {
    hide PrintDelta;
    var t := WriteTable(h.table);
    var fs := WriteFlags(h.flags);
    lines := [[CTRL, 'u']];
    for i := 0 to |h.users|
      invariant lines == [[CTRL, 'u']] + h.users[..i]
    {
      lines := lines + [h.users[i]];
    }
    lines := lines + [[CTRL, 'U']] + fs + [[CTRL, 't']];
    ghost var upto := lines;
    for i := 0 to |h.comments|
      invariant lines == upto + h.comments[..i]
    {
      lines := lines + [h.comments[i]];
    }
    lines := lines + [[CTRL, 'T']];
    ghost var end := [[CTRL, 't']] + (h.comments + ([[CTRL, 'T']] + []));
    FlagsThen(h.flags, end);
    assert lines == PrintSections(h.users, h.flags, h.comments, []);
    TableThen(h.table, lines);
    lines := t + lines;
  }

  method WriteTable(ds: seq<Delta>) returns (lines: Lines)
    requires AllPrintable(ds)
    ensures lines == PrintTable(ds, [])
  {
    hide PrintDelta;
    lines := [];
    for i := 0 to |ds|
      invariant lines + PrintTable(ds[i..], []) == PrintTable(ds, [])
    {
      var d := WriteDelta(ds[i]);
      assert ds[i..][1..] == ds[i + 1..] && Printable(ds[i]);
      RecordThen(ds[i], PrintTable(ds[i + 1..], []));
      ConcatAssoc(lines, d, PrintTable(ds[i + 1..], []));
      lines := lines + d;
    }
  }

  method WriteFlags(fs: seq<Flag>) returns (lines: Lines)
    ensures lines == PrintFlags(fs, [])
  {
    lines := [];
    for i := 0 to |fs|
      invariant lines + PrintFlags(fs[i..], []) == PrintFlags(fs, [])
    {
      assert fs[i..][1..] == fs[i + 1..];
      ConcatAssoc(lines, [PrintFlag(fs[i])], PrintFlags(fs[i + 1..], []));
      lines := lines + [PrintFlag(fs[i])];
    }
  }

  lemma {:induction false} FlagsThen(fs: seq<Flag>, rest: Lines)
    ensures PrintFlags(fs, rest) == PrintFlags(fs, []) + rest
  {
    if fs != [] {
      FlagsThen(fs[1..], rest);
      ConcatAssoc([PrintFlag(fs[0])], PrintFlags(fs[1..], []), rest);
    }
  }

  lemma {:induction false} TableThen(ds: seq<Delta>, rest: Lines)
    requires AllPrintable(ds)
    ensures PrintTable(ds, rest) == PrintTable(ds, []) + rest
  {
    hide PrintDelta;
    if ds != [] {
      TableThen(ds[1..], rest);
      RecordThen(ds[0], PrintTable(ds[1..], rest));
      RecordThen(ds[0], PrintTable(ds[1..], []));
      ConcatAssoc(PrintDelta(ds[0], []), PrintTable(ds[1..], []), rest);
    }
  }

  /** Reads records until something else comes. */
  method ReadTable(lines: Lines) returns (r: Option<(seq<Delta>, Lines)>)
    ensures r == ParseTable(lines)
  {
    hide ParseDelta;
    var ds: seq<Delta>, rest := [], lines;
    NoneBefore(ParseTable(lines));
    while rest != [] && LineType(rest[0]) == 's'
      invariant ParseTable(lines) == AfterRead(ds, ParseTable(rest))
      decreases |rest|
    {
      var d := ReadDelta(rest);
      if d.None? {
        return None;
      }
      OneAfter(ds, d.value.0, ParseTable(d.value.1));
      ds, rest := ds + [d.value.0], d.value.1;
    }
    assert ds + [] == ds;
    return if rest == [] then None else Some((ds, rest));
  }

  /** What a reader makes of the rest, given what it has read before. */
  function AfterRead<T>(xs: seq<T>, r: Option<(seq<T>, Lines)>): Option<(seq<T>, Lines)> {
    if r.None? then None else Some((xs + r.value.0, r.value.1))
  }

  lemma NoneBefore<T>(r: Option<(seq<T>, Lines)>)
    ensures AfterRead([], r) == r
  {
    if r.Some? {
      assert [] + r.value.0 == r.value.0;
    }
  }

  lemma OneAfter<T>(xs: seq<T>, x: T, r: Option<(seq<T>, Lines)>)
    ensures AfterRead(xs, AfterRead([x], r)) == AfterRead(xs + [x], r)
  {
    if r.Some? {
      ConcatAssoc(xs, [x], r.value.0);
    }
  }

  method ReadFlags(lines: Lines) returns (r: Option<(seq<Flag>, Lines)>)
    ensures r == ParseFlags(lines)
  {
    var fs: seq<Flag>, i := [], 0;
    NoneBefore(ParseFlags(lines));
    assert lines[0..] == lines;
    while i < |lines| && LineType(lines[i]) == 'f'
      invariant 0 <= i <= |lines|
      invariant ParseFlags(lines) == AfterRead(fs, ParseFlags(lines[i..]))
    {
      var f := ParseFlag(lines[i]);
      assert lines[i..][1..] == lines[i + 1..];
      if f.None? {
        return None;
      }
      OneAfter(fs, f.value, ParseFlags(lines[i + 1..]));
      fs, i := fs + [f.value], i + 1;
    }
    assert fs + [] == fs;
    return if i == |lines| then None else Some((fs, lines[i..]));
  }

  method ReadPlain(lines: Lines) returns (plain: Lines, rest: Lines)
    ensures (plain, rest) == TakePlain(lines)
  {
    var i := 0;
    plain := [];
    assert lines[0..] == lines && [] + TakePlain(lines).0 == TakePlain(lines).0;
    while i < |lines| && LineType(lines[i]) == '\0'
      invariant 0 <= i <= |lines|
      invariant var t := TakePlain(lines[i..]); TakePlain(lines) == (plain + t.0, t.1)
    {
      assert lines[i..][1..] == lines[i + 1..];
      ConcatAssoc(plain, [lines[i]], TakePlain(lines[i + 1..]).0);
      plain, i := plain + [lines[i]], i + 1;
    }
    assert plain + [] == plain;
    rest := lines[i..];
  }

  /** Reads everything up to the body. */
  method ReadHeader(lines: Lines) returns (r: Option<(Header, Lines)>)
    ensures r == ParseHeader(lines)
  {
    hide ParseTable, ParseFlags, TakePlain, LineType;
    var t := ReadTable(lines);
    if t.None? || t.value.1[0] != [CTRL, 'u'] {
      return None;
    }
    var users, ls := ReadPlain(t.value.1[1..]);
    if ls == [] || LineType(ls[0]) != 'U' {
      return None;
    }
    var flags := ReadFlags(ls[1..]);
    if flags.None? || LineType(flags.value.1[0]) != 't' {
      return None;
    }
    var comments, end := ReadPlain(flags.value.1[1..]);
    if end == [] || LineType(end[0]) != 'T' {
      return None;
    }
    return Some((Header(t.value.0, users, flags.value.0, comments), end[1..]));
  }
}
