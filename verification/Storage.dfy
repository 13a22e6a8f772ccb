/** Histories on disk: what a run leaves in the file is read back as it was written. */
module Storage {
  import opened Basics
  import opened Weave
  import opened DiffScript
  import opened CheckIn
  import opened Removal
  import opened History
  import opened BodyText
  import opened DeltaRecords
  import opened FileHeaders
  import opened Checksum
  import opened FileImages
  import opened Selection
  import opened SccsFiles
  import Encoding

  predicate PlainBody(body: seq<Line>) {
    forall i :: 0 <= i < |body| && body[i].Text? ==> Plain(body[i].s)
  }

  predicate PlainScript(sc: Script) {
    match sc
    case Done => true
    case Add(s, r) => Plain(s) && PlainScript(r)
    case Keep(r) => PlainScript(r)
    case Drop(r) => PlainScript(r)
    case Cut(r) => PlainScript(r)
  }

  // ---------------------------------------------------------------- check-in

  lemma {:induction false} SettlePlain(mode: Mode, sc: Script, n: nat)
    requires PlainScript(sc)
    ensures PlainBody(Settle(mode, sc, n).out) && PlainScript(Settle(mode, sc, n).sc)
    decreases sc
  {
    match sc
    case Add(_, r) => SettlePlain(InAdd, r, n);
    case Cut(r) => SettlePlain(Out, r, n);
    case _ =>
  }

  lemma {:induction false} WeaveInPlain(body: seq<Line>, b: Blocks, mode: Mode, sc: Script, sel: set<nat>, n: nat)
    requires PlainBody(body) && PlainScript(sc)
    ensures PlainBody(WeaveIn(body, b, mode, sc, sel, n))
    decreases |body|
  {
    SettlePlain(mode, sc, n);
    if body != [] {
      var t := Settle(mode, sc, n);
      WeaveInPlain(body[1..], b, t.mode, t.sc, sel, n);
      WeaveInPlain(body[1..], Step(b, body[0]), mode, sc, sel, n);
    }
  }

  lemma {:induction false} KeepsPlain(k: nat, r: Script)
    requires PlainScript(r)
    ensures PlainScript(Keeps(k, r)) && PlainScript(Drops(k, r))
  {
    if k > 0 {
      KeepsPlain(k - 1, r);
    }
  }

  lemma {:induction false} AddsPlain(ls: seq<string>, r: Script)
    requires AllPlain(ls) && PlainScript(r)
    ensures PlainScript(Adds(ls, r))
  {
    if ls != [] {
      AddsPlain(ls[1..], r);
    }
  }

  /** The lines that a diff inserts are lines of the new text. */
  lemma {:induction false} DiffPlain(hs: seq<Hunk>, old_: seq<string>)
    requires Matches(hs, old_) && AllPlain(NewText(hs, old_))
    ensures PlainScript(Compile(hs))
  {
    if hs != [] {
      var h, k := hs[0], hs[0].keep + |hs[0].del|;
      var t, rest := NewText(hs, old_), NewText(hs[1..], old_[k..]);
      assert forall i :: 0 <= i < |h.ins| ==> h.ins[i] == t[h.keep + i];
      assert forall i :: 0 <= i < |rest| ==> rest[i] == t[h.keep + |h.ins| + i];
      DiffPlain(hs[1..], old_[k..]);
      AddsPlain(h.ins, Cut(Compile(hs[1..])));
      KeepsPlain(|h.del|, Adds(h.ins, Cut(Compile(hs[1..]))));
      KeepsPlain(h.keep, Change(h, Compile(hs[1..])));
    }
  }

  // ---------------------------------------------------------------- the other steps

  lemma {:induction false} RemovePlain(body: seq<Line>, st: UpdateState, n: nat)
    requires PlainBody(body) && Remove(body, st, n).Removed?
    ensures PlainBody(Remove(body, st, n).body)
  {
    if body != [] {
      var st' := NextState(st, body[0], n);
      assert Remove(body[1..], st', n).Removed?;
      RemovePlain(body[1..], st', n);
    }
  }

  lemma {:induction false} TextLinesPlain(text: seq<string>)
    requires AllPlain(text)
    ensures PlainBody(TextLines(text))
  {
    if text != [] {
      TextLinesPlain(text[1..]);
    }
  }

  /** Only text without control characters at the start of a line is checked in. */
  predicate PlainEvent(e: Event) {
    e.Create? || e.CheckedIn? ==> AllPlain(e.text)
  }

  lemma NextPlain(h: SFile, e: Event)
    requires Allowed(h, e) && PlainEvent(e) && PlainBody(h.body)
    ensures PlainBody(Next(h, e).body)
  {
    match e
    case Create(text) => TextLinesPlain(text);
    case CheckedIn(pred, hs, text) =>
      DiffPlain(hs, GetText(h.body, Chain(h.prev, pred)));
      WeaveInPlain(h.body, NONE_OPEN, Out, Compile(hs), Chain(h.prev, pred), NextSeq(h));
    case NullDelta(_) =>
    case Rmdel(d) =>
      if Remove(h.body, COPYING, d).Removed? {
        RemovePlain(h.body, COPYING, d);
      }
  }

  lemma {:induction false} RunPlain(h: SFile, es: seq<Event>)
    requires Run(h, es) && PlainBody(h.body) && forall i :: 0 <= i < |es| ==> PlainEvent(es[i])
    ensures PlainBody(After(h, es).body)
    decreases |es|
  {
    if es != [] {
      NextPlain(h, es[0]);
      RunPlain(Next(h, es[0]), es[1..]);
    }
  }

  // ---------------------------------------------------------------- on disk

  lemma {:induction false} NumbersAt(body: seq<Line>, i: nat)
    requires i < |body| && !body[i].Text?
    ensures body[i].n in Numbers(body)
  {
    if i > 0 {
      NumbersAt(body[1..], i - 1);
    }
  }

  lemma ReachableIsStorable(h: SFile)
    requires Inv(h) && PlainBody(h.body)
    ensures AllStorable(h.body) && ReadBody(WriteBody(h.body)) == Some(h.body)
  {
    hide Inv, ReadBody, WriteBody, Plain;
    forall l | l in h.body
      ensures Storable(l)
    {
      var i :| 0 <= i < |h.body| && h.body[i] == l;
      if !l.Text? {
        NumbersAt(h.body, i);
        NumbersAreSmall(h, l.n);
      }
    }
    BodyRoundTrip(h.body);
  }

  lemma NumbersAreSmall(h: SFile, n: nat)
    requires Inv(h) && n in Numbers(h.body)
    ensures n <= 65535
  {
  }

  /** The history theorem on disk: the body that any run leaves is read back from the file as it was
      written, and gives for every delta still there exactly the version that was checked in. */
  lemma {:induction false} StoredHistory(es: seq<Event>, i: nat)
    requires Run(EMPTY, es) && forall j :: 0 <= j < |es| ==> PlainEvent(es[j])
    requires i < |es| && !es[i].Rmdel?
    ensures Run(EMPTY, es[..i])
    ensures var before, h := After(EMPTY, es[..i]), After(EMPTY, es);
            var d, stored := Made(before, es[i]), ReadBody(WriteBody(h.body));
            && stored.Some?
            && (d in h.live ==> Shows(stored.value, Chain(h.prev, d), before, es[i]))
  {
    hide ReadBody, WriteBody, View, Next, Made, MadeVersion;
    HistoryTheorem(es, i);
    EmptyInv();
    RunKeepsInv(EMPTY, es);
    RunPlain(EMPTY, es);
    ReachableIsStorable(After(EMPTY, es));
  }

  /** The selection shows the version that the event checked in. */
  ghost predicate Shows(body: seq<Line>, sel: set<nat>, before: SFile, e: Event) {
    && View(body, NONE_OPEN, sel) == MadeVersion(before, e)
    && (e.Create? || e.CheckedIn? ==> GetText(body, sel) == e.text)
  }

  /** The same for the whole file: opened from its characters, it has a matching checksum, the table that
      was written and a body in which that table's ancestor chains show every version still there. */
  lemma {:induction false} StoredFile(es: seq<Event>, i: nat, h: Header, encoded: bool, f: File, signed: bool)
    requires Run(EMPTY, es) && forall j :: 0 <= j < |es| ==> PlainEvent(es[j])
    requires i < |es| && !es[i].Rmdel?
    requires ValidFile(h.table, After(EMPTY, es)) && HeaderWritable(h)
    requires AllPrintable(h.table) && IsUpdated(f, Image(h, After(EMPTY, es).body), encoded, signed)
    ensures Run(EMPTY, es[..i])
    ensures var before, o := After(EMPTY, es[..i]), Open(f, signed);
            && o.Some? && o.value.checksumValid && o.value.header.table == h.table
            && var t, d := ByNumber(o.value.header.table), Made(before, es[i]);
               d in Live(t) ==> Shows(o.value.body, Chain(Prevs(t), d), before, es[i])
  {
    hide View, Next, Made, MadeVersion, Open, IsUpdated, Image, ByNumber, FlipFlags;
    HistoryTheorem(es, i);
    EmptyInv();
    RunKeepsInv(EMPTY, es);
    RunPlain(EMPTY, es);
    ReachableIsStorable(After(EMPTY, es));
    UpdatedFileOpens(h, After(EMPTY, es).body, encoded, f, signed);
  }

  // ---------------------------------------------------------------- binary files

  function ToChar(b: Encoding.Byte): char {
    (b as int) as char
  }

  /** Characters of more than eight bits do not occur. */
  function ToByte(c: char): Encoding.Byte {
    if c as int < 256 then (c as int) as bv8 else 0
  }

  lemma ByteOfChar(b: Encoding.Byte)
    ensures ToByte(ToChar(b)) == b && ToChar(b) as int == b as int
  {
  }

  function ToText(line: Encoding.Bytes): (s: string)
    ensures |s| == |line| && forall i :: 0 <= i < |s| ==> s[i] == ToChar(line[i])
  {
    seq(|line|, i requires 0 <= i < |line| => ToChar(line[i]))
  }

  function ToBytes(s: string): (line: Encoding.Bytes)
    ensures |line| == |s| && forall i :: 0 <= i < |s| ==> line[i] == ToByte(s[i])
  {
    seq(|s|, i requires 0 <= i < |s| => ToByte(s[i]))
  }

  function ToTexts(lines: seq<Encoding.Bytes>): (t: seq<string>)
    ensures |t| == |lines| && forall i :: 0 <= i < |t| ==> t[i] == ToText(lines[i])
  {
    seq(|lines|, i requires 0 <= i < |lines| => ToText(lines[i]))
  }

  function ToByteLines(t: seq<string>): seq<Encoding.Bytes> {
    seq(|t|, i requires 0 <= i < |t| => ToBytes(t[i]))
  }

  lemma BytesOfText(line: Encoding.Bytes)
    ensures ToBytes(ToText(line)) == line
  {
    hide ToChar, ToByte;
    forall i | 0 <= i < |line|
      ensures ToBytes(ToText(line))[i] == line[i]
    {
      ByteOfChar(line[i]);
    }
  }

  lemma BytesOfTexts(lines: seq<Encoding.Bytes>)
    ensures ToByteLines(ToTexts(lines)) == lines
  {
    forall i | 0 <= i < |lines|
      ensures ToByteLines(ToTexts(lines))[i] == lines[i]
    {
      BytesOfText(lines[i]);
    }
  }

  /** An encoded file can be checked in like a text. */
  lemma EncodedIsPlain(data: Encoding.Bytes)
    ensures AllPlain(ToTexts(Encoding.EncodeFile(data)))
  {
    hide Encoding.EncodeFile, ToByte, ToChar, Encoding.Complete;
    var lines := Encoding.EncodeFile(data);
    Encoding.FileIsPlain(data);
    forall i | 0 <= i < |lines|
      ensures Plain(ToText(lines[i]))
    {
      var s := ToText(lines[i]);
      assert Encoding.PlainLine(lines[i]);
      forall k | 0 <= k < |s|
        ensures s[k] != '\n' && (k == 0 ==> s[k] != CTRL)
      {
        CharIsPlain(lines[i][k]);
      }
    }
  }

  lemma CharIsPlain(b: Encoding.Byte)
    ensures b != Encoding.CONTROL ==> ToChar(b) != CTRL
    ensures b != Encoding.NEWLINE ==> ToChar(b) != '\n'
  {
    ByteOfChar(b);
  }

  /** A binary file that was encoded and checked in comes back byte for byte, however many steps follow. */
  lemma {:induction false} StoredBinary(es: seq<Event>, i: nat, data: Encoding.Bytes)
    requires Run(EMPTY, es) && i < |es| && (es[i].Create? || es[i].CheckedIn?)
    requires forall j :: 0 <= j < |es| && j != i ==> PlainEvent(es[j])
    requires es[i].text == ToTexts(Encoding.EncodeFile(data))
    ensures Run(EMPTY, es[..i])
    ensures var d, h := Made(After(EMPTY, es[..i]), es[i]), After(EMPTY, es);
            var stored := ReadBody(WriteBody(h.body));
            stored.Some? && (d in h.live ==> Encoding.DecodeFile(ToByteLines(GetText(stored.value, Chain(h.prev, d)))) == data)
  {
    hide ReadBody, WriteBody, View, Next, Made, MadeVersion, Encoding.EncodeFile, Encoding.DecodeFile;
    EncodedIsPlain(data);
    StoredHistory(es, i);
    BytesOfTexts(Encoding.EncodeFile(data));
    Encoding.FileRoundTrip(data);
  }
}
