/** A whole s-file as a string of characters: written, patched in place, and opened again. */
module FileImages {
  import opened Basics
  import opened Deltas
  import opened Weave
  import opened HeaderText
  import opened DeltaRecords
  import opened BodyText
  import opened FileHeaders
  import opened Checksum

  datatype Opened = Opened(header: Header, body: seq<Line>, checksumValid: bool)

  /** What a reader makes of a file; the body is taken to be read to its end. */
  function Open(f: File, signed: bool): Option<Opened> {
    if |f| < 2 || f[0] != CTRL || f[1] != 'h' || '\n' !in f then None
    else
      var header := ParseHeader(FileLines(f)[1..]);
      if header.None? then None
      else
        var body := ParseBody(header.value.1);
        if body.None? then None
        else Some(Opened(header.value.0, body.value, StoredSum(f) == Some(ComputedSum(f, signed))))
  }

  /** All lines of the file but the first. */
  function Image(h: Header, body: seq<Line>): Lines
    requires AllPrintable(h.table)
  {
    PrintHeader(h, PrintBody(body))
  }

  // ---------------------------------------------------------------- the encoded flag

  predicate IsEncodedFlag(f: Flag) {
    f.letter == 'e' && f.arg.Some?
  }

  function FlipFlag(f: Flag): Flag {
    if f.arg.Some? && f.arg.value != "" && f.arg.value[0] == '0' then f.(arg := Some("1" + f.arg.value[1..])) else f
  }

  /** The flags with the encoded flag set. */
  function FlipFlags(fs: seq<Flag>): seq<Flag> {
    if fs == [] then [] else if IsEncodedFlag(fs[0]) then [FlipFlag(fs[0])] + fs[1..] else [fs[0]] + FlipFlags(fs[1..])
  }

  predicate HasEncodedFlag(fs: seq<Flag>) {
    exists f :: f in fs && IsEncodedFlag(f)
  }

  ghost predicate Unflagged(ls: Lines) {
    forall l :: l in ls ==> !Flagged(l)
  }

  lemma FlaggedType(l: string)
    ensures Flagged(l) ==> LineType(l) == 'f'
  {
    if Flagged(l) {
      assert l[0] == l[..5][0] && l[1] == l[..5][1];
    }
  }

  /** Lines that are no flags are passed over. */
  lemma {:induction false} FlipSkips(xs: Lines, rest: Lines)
    requires Unflagged(xs)
    ensures FlipLines(xs + rest) == xs + FlipLines(rest)
    ensures HasFlag(xs + rest) <==> HasFlag(rest)
  {
    if xs == [] {
      assert xs + rest == rest && xs + FlipLines(rest) == FlipLines(rest);
    } else {
      var all := xs + rest;
      assert all[0] == xs[0] && all[1..] == xs[1..] + rest;
      assert xs[0] in xs && forall l :: l in xs[1..] ==> l in xs;
      FlipSkips(xs[1..], rest);
      HasFlagRest(all);
      assert [xs[0]] + (xs[1..] + FlipLines(rest)) == xs + FlipLines(rest);
    }
  }

  lemma FlipPrintedFlag(f: Flag)
    ensures Flagged(PrintFlag(f)) <==> IsEncodedFlag(f)
    ensures IsEncodedFlag(f) ==> FlipLine(PrintFlag(f)) == PrintFlag(FlipFlag(f))
  {
    var l := PrintFlag(f);
    if f.arg.Some? {
      assert l[..5] == [CTRL, 'f', ' ', f.letter, ' '];
      assert l[5..] == f.arg.value;
      if f.letter == 'e' && f.arg.value != "" && l[5] == '0' {
        assert l[5 := '1'] == l[..5] + ("1" + f.arg.value[1..]);
      }
    }
  }

  lemma {:induction false} FlipPrintedFlags(fs: seq<Flag>, rest: Lines)
    requires Unflagged(rest)
    ensures FlipLines(PrintFlags(fs, rest)) == PrintFlags(FlipFlags(fs), rest)
    ensures HasFlag(PrintFlags(fs, rest)) <==> HasEncodedFlag(fs)
  {
    hide PrintFlag, Flagged, FlipLine, FlipFlag, IsEncodedFlag;
    if fs == [] {
      FlipSkips(rest, []);
      assert rest + [] == rest;
    } else {
      var l, ls := PrintFlag(fs[0]), PrintFlags(fs[1..], rest);
      assert ([l] + ls)[1..] == ls;
      FlipPrintedFlag(fs[0]);
      FlipPrintedFlags(fs[1..], rest);
      HasFlagRest([l] + ls);
      assert fs == [fs[0]] + fs[1..];
      assert ([FlipFlag(fs[0])] + fs[1..])[1..] == fs[1..];
      assert ([fs[0]] + FlipFlags(fs[1..]))[1..] == FlipFlags(fs[1..]);
    }
  }

  // ---------------------------------------------------------------- no other line looks like a flag

  lemma {:induction false} MarkedUnflagged(c: char, texts: Lines, rest: Lines)
    requires c != 'f' && Unflagged(rest)
    ensures Unflagged(MarkedLines(c, texts, rest))
  {
    if texts != [] {
      FlaggedType([CTRL, c, ' '] + texts[0]);
      MarkedUnflagged(c, texts[1..], rest);
    }
  }

  lemma ListUnflagged(c: char, seqs: seq<nat>, rest: Lines)
    requires c != 'f' && Unflagged(rest)
    ensures Unflagged(ListLines(c, seqs, rest))
  {
    hide SeqText;
    FlaggedType([CTRL, c, ' '] + SeqText(seqs));
  }

  lemma {:induction false} RecordUnflagged(d: Delta, rest: Lines)
    requires Printable(d) && Unflagged(rest)
    ensures Unflagged(PrintDelta(d, rest))
  {
    hide Joined, Fields, ListLines, MarkedLines, Flagged;
    FlaggedType([CTRL, 'e']);
    var e := [[CTRL, 'e']] + rest;
    var marks := MarkedLines('m', d.mrs, MarkedLines('c', d.comments, e));
    MarkedUnflagged('c', d.comments, e);
    MarkedUnflagged('m', d.mrs, MarkedLines('c', d.comments, e));
    ListUnflagged('g', d.ignored, marks);
    ListUnflagged('x', d.excluded, ListLines('g', d.ignored, marks));
    ListUnflagged('i', d.included, ListLines('x', d.excluded, ListLines('g', d.ignored, marks)));
    FlaggedType(CountsLine(d));
    FlaggedType([CTRL, 'd', ' '] + Joined(Fields(d)));
  }

  lemma {:induction false} TableUnflagged(ds: seq<Delta>)
    requires AllPrintable(ds)
    ensures Unflagged(PrintTable(ds, []))
  {
    hide PrintDelta;
    if ds != [] {
      TableUnflagged(ds[1..]);
      assert Printable(ds[0]);
      RecordUnflagged(ds[0], PrintTable(ds[1..], []));
    }
  }

  lemma PlainUnflagged(ls: Lines)
    requires AllPlain(ls)
    ensures Unflagged(ls)
  {
    forall l | l in ls
      ensures !Flagged(l)
    {
      FlaggedType(l);
    }
  }

  lemma {:induction false} BodyUnflagged(body: seq<Line>)
    requires AllStorable(body)
    ensures Unflagged(PrintBody(body))
  {
    if body != [] {
      assert body[0] in body && forall l :: l in body[1..] ==> l in body;
      FlaggedType(PrintLine(body[0]));
      BodyUnflagged(body[1..]);
    }
  }

  // ---------------------------------------------------------------- flipping in the file, flipping in the header

  lemma {:induction false} FlipSections(users: Lines, flags: seq<Flag>, comments: Lines, rest: Lines)
    requires AllPlain(users) && AllPlain(comments) && Unflagged(rest)
    ensures FlipLines(PrintSections(users, flags, comments, rest)) == PrintSections(users, FlipFlags(flags), comments, rest)
    ensures HasFlag(PrintSections(users, flags, comments, rest)) <==> HasEncodedFlag(flags)
  {
    hide PrintFlags, FlipLines, FlipFlags, Flagged, HasFlag;
    PlainUnflagged(users);
    PlainUnflagged(comments);
    FlaggedType([CTRL, 'u']);
    FlaggedType([CTRL, 'U']);
    FlaggedType([CTRL, 't']);
    FlaggedType([CTRL, 'T']);
    var t := [[CTRL, 't']] + (comments + ([[CTRL, 'T']] + rest));
    FlipPrintedFlags(flags, t);
    var before := [[CTRL, 'u']] + (users + [[CTRL, 'U']]);
    FlipSkips(before, PrintFlags(flags, t));
    assert PrintSections(users, flags, comments, rest) == before + PrintFlags(flags, t);
    assert PrintSections(users, FlipFlags(flags), comments, rest) == before + PrintFlags(FlipFlags(flags), t);
  }

  function Flipped(h: Header): Header {
    h.(flags := FlipFlags(h.flags))
  }

  /** Setting the first flag found in the file sets the encoded flag of the header and nothing else; there
      is one to set exactly when the header has it. */
  lemma {:induction false} FlipImage(h: Header, body: seq<Line>)
    requires HeaderWritable(h) && AllStorable(body)
    ensures AllPrintable(h.table) && FlipLines(Image(h, body)) == Image(Flipped(h), body)
    ensures HasFlag(Image(h, body)) <==> HasEncodedFlag(h.flags)
  {
    hide PrintTable, PrintSections, FlipLines, FlipFlags, HasFlag, HasEncodedFlag, Unflagged;
    assert AllPrintable(h.table) by { assert AllWritable(h.table); }
    var rest := PrintBody(body);
    BodyUnflagged(body);
    FlipSections(h.users, h.flags, h.comments, rest);
    TableUnflagged(h.table);
    TableThen(h.table, PrintSections(h.users, h.flags, h.comments, rest));
    TableThen(h.table, PrintSections(h.users, FlipFlags(h.flags), h.comments, rest));
    FlipSkips(PrintTable(h.table, []), PrintSections(h.users, h.flags, h.comments, rest));
  }

  lemma {:induction false} FlippedIsWritable(fs: seq<Flag>)
    requires AllFlagsWritable(fs)
    ensures AllFlagsWritable(FlipFlags(fs))
  {
    if fs != [] {
      assert FlagWritable(fs[0]);
      FlippedIsWritable(fs[1..]);
    }
  }

  // ---------------------------------------------------------------- opening what was written

  lemma {:induction false} SummedFileOpens(h: Header, body: seq<Line>, sum: nat, f: File, signed: bool)
    requires HeaderWritable(h) && AllStorable(body) && sum < 65536
    requires AllPrintable(h.table) && f == FileText([SumLine(sum)] + Image(h, body)) && StoredSum(f) == Some(ComputedSum(f, signed))
    ensures Open(f, signed) == Some(Opened(h, body, true))
  {
    hide PrintHeader, ParseHeader, ParseBody, StoredSum, ComputedSum, FileLines;
    BodyUnbroken(body);
    HeaderUnbroken(h, PrintBody(body));
    HeaderRoundTrip(h, PrintBody(body));
    Pad5Sum(sum);
    assert '\n' !in SumLine(sum);
    var lines := [SumLine(sum)] + Image(h, body);
    LinesRoundTrip(lines);
    assert lines[1..] == Image(h, body);
    assert f == SumLine(sum) + ("\n" + FileText(Image(h, body)));
    assert f[7] == '\n';
  }

  /** The file that an update leaves opens as the header and the body that were written, with the encoded
      flag set if the body is encoded, and with a matching checksum. */
  lemma {:induction false} UpdatedFileOpens(h: Header, body: seq<Line>, encoded: bool, f: File, signed: bool)
    requires HeaderWritable(h) && AllStorable(body)
    requires AllPrintable(h.table) && IsUpdated(f, Image(h, body), encoded, signed)
    ensures Open(f, signed) == Some(Opened(if encoded then Flipped(h) else h, body, true))
  {
    hide Image, Open, FlipLines, FlipFlags, StoredSum;
    if encoded {
      FlipImage(h, body);
      FlippedIsWritable(h.flags);
      SummedFileOpens(Flipped(h), body, ComputedSum(f, signed), f, signed);
    } else {
      SummedFileOpens(h, body, ComputedSum(f, signed), f, signed);
    }
  }

  // ---------------------------------------------------------------- the commands

  method PrintAll(body: seq<Line>) returns (lines: Lines)
    ensures lines == PrintBody(body)
  {
    lines := [];
    for i := 0 to |body|
      invariant lines + PrintBody(body[i..]) == PrintBody(body)
    {
      assert body[i..][1..] == body[i + 1..];
      ConcatAssoc(lines, [PrintLine(body[i])], PrintBody(body[i + 1..]));
      lines := lines + [PrintLine(body[i])];
    }
  }

  /** Writes a file whose table is as it stands, as a removal does. */
  method Save(h: Header, body: seq<Line>, encoded: bool, signed: bool) returns (r: Option<File>)
    requires HeaderWritable(h) && AllStorable(body)
    ensures r.None? <==> encoded && !HasEncodedFlag(h.flags)
    ensures r.Some? ==> Open(r.value, signed) == Some(Opened(if encoded then Flipped(h) else h, body, true))
  {
    hide Image, Open, HasFlag, HasEncodedFlag, FlipFlags, IsUpdated;
    FlipImage(h, body);
    var head := WriteHeader(h);
    var lines := PrintAll(body);
    ImageThen(h, body);
    ImageUnbroken(h, body);
    r := EndUpdate(FileText([BLANK] + (head + lines)), encoded, signed, head + lines);
    if r.Some? {
      UpdatedFileOpens(h, body, encoded, r.value, signed);
    }
  }

  lemma ImageThen(h: Header, body: seq<Line>)
    requires AllPrintable(h.table)
    ensures Image(h, body) == PrintHeader(h, []) + PrintBody(body)
  {
    hide PrintTable;
    var rest := PrintBody(body);
    var s := PrintSections(h.users, h.flags, h.comments, []);
    SectionsThen(h.users, h.flags, h.comments, rest);
    TableThen(h.table, PrintSections(h.users, h.flags, h.comments, rest));
    TableThen(h.table, s);
    ConcatAssoc(PrintTable(h.table, []), s, rest);
  }

  lemma SectionsThen(users: Lines, flags: seq<Flag>, comments: Lines, rest: Lines)
    ensures PrintSections(users, flags, comments, rest) == PrintSections(users, flags, comments, []) + rest
  {
    hide PrintFlags;
    var t := [[CTRL, 't']] + (comments + [[CTRL, 'T']]);
    assert [[CTRL, 't']] + (comments + ([[CTRL, 'T']] + rest)) == t + rest;
    assert [[CTRL, 't']] + (comments + ([[CTRL, 'T']] + [])) == t;
    FlagsThen(flags, t + rest);
    FlagsThen(flags, t);
    var fs := PrintFlags(flags, []);
    assert [[CTRL, 'u']] + (users + ([[CTRL, 'U']] + (fs + (t + rest)))) == [[CTRL, 'u']] + (users + ([[CTRL, 'U']] + (fs + t))) + rest;
  }

  lemma ImageUnbroken(h: Header, body: seq<Line>)
    requires HeaderWritable(h) && AllStorable(body)
    ensures AllPrintable(h.table) && NoBreaks(Image(h, body))
  {
    BodyUnbroken(body);
    HeaderUnbroken(h, PrintBody(body));
  }

  function Prepended(d: Delta, h: Header): Header {
    h.(table := [d] + h.table)
  }

  lemma PrependedImage(d: Delta, h: Header, body: seq<Line>)
    requires Printable(d) && AllPrintable(h.table)
    ensures AllPrintable([d] + h.table) && Image(Prepended(d, h), body) == PrintDelta(d, Image(h, body))
  {
    hide PrintDelta, PrintSections;
    assert ([d] + h.table)[1..] == h.table;
  }

  /** Writes a file with one more delta in front of the table, as a check-in does: its line counts are not
      known when its record is written, and are patched in at the end.  What is opened afterwards is the
      table with the new delta and its counts (at most 99999), the other sections, and the body. */
  method SaveWithDelta(h: Header, d: Delta, body: seq<Line>, i: nat, x: nat, u: nat, encoded: bool, signed: bool)
    returns (r: Option<File>)
    requires Writable(d) && HeaderWritable(h) && AllStorable(body)
    ensures r.None? <==> encoded && !HasEncodedFlag(h.flags)
    ensures r.Some? ==>
              var h' := Prepended(Capped(d.WithCounts(i, x, u)), h);
              Open(r.value, signed) == Some(Opened(if encoded then Flipped(h') else h', body, true))
  {
    hide Image, Open, HasFlag, HasEncodedFlag, FlipFlags, IsUpdated, PrintDelta;
    ghost var d' := Capped(d.WithCounts(i, x, u));
    ghost var h' := Prepended(d', h);
    CappedPrints(d.WithCounts(i, x, u), Image(h, body));
    assert HeaderWritable(h');
    FlipImage(h', body);
    var record := WriteDelta(d);
    var head := WriteHeader(h);
    var lines := PrintAll(body);
    ImageThen(h, body);
    ImageUnbroken(h, body);
    RecordThen(d, Image(h, body));
    PrependedImage(d', h, body);
    r := EndUpdateWithDelta(FileText([BLANK] + (record + (head + lines))), d, i, x, u, encoded, signed, Image(h, body));
    if r.Some? {
      UpdatedFileOpens(h', body, encoded, r.value, signed);
    }
  }
}
