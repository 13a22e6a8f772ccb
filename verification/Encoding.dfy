/** Binary bodies: the uuencode codec ("uuencode Historical Algorithm", STDOUT section of the uuencode
    utility page in POSIX.1-2017 XCU). */
module Encoding {
  import opened Basics

  type Byte = bv8
  type Bytes = seq<Byte>

  const CHUNK := 45
  const CONTROL: Byte := 1
  const NEWLINE: Byte := 10

  function Enc(c: Byte): Byte { (c & 0x3F) + 0x20 }

  function Dec(c: Byte): Byte { (c - 0x20) & 0x3F }

  // ---------------------------------------------------------------- three bytes, four characters

  function EncodeGroup(a: Byte, b: Byte, c: Byte): Bytes {
    [Enc(a >> 2), Enc(((a << 4) & 0x30) | ((b >> 4) & 0x0F)), Enc(((b << 2) & 0x3C) | ((c >> 6) & 0x03)), Enc(c & 0x3F)]
  }

  function DecodeGroup(p: Byte, q: Byte, r: Byte, s: Byte): Bytes {
    var t0, t1, t2, t3 := Dec(p), Dec(q), Dec(r), Dec(s);
    [(t0 << 2) | (t1 >> 4), (t1 << 4) | (t2 >> 2), (t2 << 6) | t3]
  }

  lemma GroupRoundTrip(a: Byte, b: Byte, c: Byte)
    ensures var g := EncodeGroup(a, b, c); DecodeGroup(g[0], g[1], g[2], g[3]) == [a, b, c]
  {
  }

  /** The four characters hold the 24 bits of the three bytes, first things first, six bits each; the
      character for a six-bit number is that number plus 32. */
  lemma GroupBits(a: Byte, b: Byte, c: Byte)
    ensures var g := EncodeGroup(a, b, c);
            && |g| == 4
            && (((g[0] - 0x20) as bv24 << 18) | ((g[1] - 0x20) as bv24 << 12) | ((g[2] - 0x20) as bv24 << 6) | ((g[3] - 0x20) as bv24))
               == ((a as bv24 << 16) | (b as bv24 << 8) | (c as bv24))
            && g[0] - 0x20 < 0x40 && g[1] - 0x20 < 0x40 && g[2] - 0x20 < 0x40 && g[3] - 0x20 < 0x40
  {
  }

  predicate Printable(c: Byte) { 0x20 <= c < 0x60 }

  lemma EncPrintable(c: Byte)
    ensures Printable(Enc(c))
  {
  }

  function LengthMark(n: nat): Byte
    requires n < 64
  {
    Enc(n as bv8)
  }

  lemma LengthRoundTrip(n: nat)
    requires n < 64
    ensures Dec(LengthMark(n)) as nat == n
  {
    var x := n as bv8;
    assert x < 64;
    assert (((x & 0x3F) + 0x20) - 0x20) & 0x3F == x;
  }

  // ---------------------------------------------------------------- one line

  /** The characters for a run of bytes; an incomplete last group is padded with zeros. */
  function EncodeBytes(s: Bytes): Bytes {
    if s == [] then []
    else if |s| <= 2 then EncodeGroup(s[0], if |s| > 1 then s[1] else 0, 0)
    else EncodeGroup(s[0], s[1], s[2]) + EncodeBytes(s[3..])
  }

  /** The characters that hold n bytes. */
  function Room(n: int): nat {
    if n <= 0 then 0 else (n + 2) / 3 * 4
  }

  /** All groups that hold the first n bytes. */
  function DecodeBytes(t: Bytes, n: int): Bytes
    requires Room(n) <= |t|
    decreases n
  {
    if n <= 0 then [] else DecodeGroup(t[0], t[1], t[2], t[3]) + DecodeBytes(t[4..], n - 3)
  }

  function EncodeLine(s: Bytes): Bytes
    requires |s| < 64
  {
    [LengthMark(|s|)] + EncodeBytes(s)
  }

  /** The line holds as many characters as its length mark calls for. */
  predicate Complete(line: Bytes) {
    line != [] && Room(Dec(line[0]) as nat) <= |line| - 1
  }

  /** The bytes of a line; nothing for one that is cut short, which the program must not be given. */
  function DecodeLine(line: Bytes): Bytes {
    if !Complete(line) then []
    else
      var n := Dec(line[0]) as nat;
      DecodeLength(line[1..], n);
      DecodeBytes(line[1..], n)[..n]
  }

  lemma {:induction false} DecodeLength(t: Bytes, n: int)
    requires Room(n) <= |t|
    ensures n <= |DecodeBytes(t, n)|
    decreases n
  {
    if n > 0 {
      DecodeLength(t[4..], n - 3);
    }
  }

  lemma {:induction false} EncodedLength(s: Bytes)
    ensures |EncodeBytes(s)| == Room(|s|)
  {
    if |s| > 2 {
      EncodedLength(s[3..]);
    }
  }

  lemma {:induction false} BytesRoundTrip(s: Bytes)
    ensures Room(|s|) <= |EncodeBytes(s)|
    ensures var d := DecodeBytes(EncodeBytes(s), |s|); |s| <= |d| && d[..|s|] == s
  {
    hide Enc, DecodeGroup;
    EncodedLength(s);
    var t := EncodeBytes(s);
    DecodeLength(t, |s|);
    if |s| > 2 {
      var g := EncodeGroup(s[0], s[1], s[2]);
      GroupRoundTrip(s[0], s[1], s[2]);
      BytesRoundTrip(s[3..]);
      assert t[4..] == EncodeBytes(s[3..]);
      var d := DecodeBytes(t[4..], |s| - 3);
      assert DecodeBytes(t, |s|) == [s[0], s[1], s[2]] + d;
      assert s == [s[0], s[1], s[2]] + s[3..];
      assert ([s[0], s[1], s[2]] + d)[..|s|] == [s[0], s[1], s[2]] + d[..|s| - 3];
    } else if s != [] {
      GroupRoundTrip(s[0], if |s| > 1 then s[1] else 0, 0);
    }
  }

  lemma {:induction false} BytesPrintable(s: Bytes)
    ensures forall i :: 0 <= i < |EncodeBytes(s)| ==> Printable(EncodeBytes(s)[i])
  {
    if |s| > 2 {
      BytesPrintable(s[3..]);
      GroupPrintable(s[0], s[1], s[2]);
    } else if s != [] {
      GroupPrintable(s[0], if |s| > 1 then s[1] else 0, 0);
    }
  }

  lemma GroupPrintable(a: Byte, b: Byte, c: Byte)
    ensures forall i :: 0 <= i < 4 ==> Printable(EncodeGroup(a, b, c)[i])
  {
    forall x: Byte
      ensures Printable(Enc(x))
    {
      EncPrintable(x);
    }
  }

  /** A line decodes to what was encoded, and consists of printable characters: it has no newline in
      it and does not look like a control line. */
  lemma LineRoundTrip(s: Bytes)
    requires |s| < 64
    ensures Complete(EncodeLine(s)) && DecodeLine(EncodeLine(s)) == s
    ensures forall i :: 0 <= i < |EncodeLine(s)| ==> Printable(EncodeLine(s)[i])
  {
    LengthRoundTrip(|s|);
    BytesRoundTrip(s);
    BytesPrintable(s);
    EncPrintable(|s| as bv8);
    assert EncodeLine(s)[1..] == EncodeBytes(s);
  }

  // ---------------------------------------------------------------- whole files

  /** How many bytes one read delivers. */
  function Portion(s: Bytes): nat {
    if |s| < CHUNK then |s| else CHUNK
  }

  /** The lines of an encoded file: one for every 45 bytes, and an empty one at the end. */
  function EncodeFile(s: Bytes): seq<Bytes> {
    if s == [] then [EncodeLine([])] else [EncodeLine(s[..Portion(s)])] + EncodeFile(s[Portion(s)..])
  }

  function DecodeFile(lines: seq<Bytes>): Bytes {
    if lines == [] then [] else DecodeLine(lines[0]) + DecodeFile(lines[1..])
  }

  ghost predicate PlainLine(line: Bytes) {
    Complete(line) && line[0] != CONTROL && forall i :: 0 <= i < |line| ==> line[i] != NEWLINE
  }

  lemma LineIsPlain(s: Bytes)
    requires |s| < 64
    ensures PlainLine(EncodeLine(s))
  {
    LineRoundTrip(s);
    var l := EncodeLine(s);
    forall i | 0 <= i < |l|
      ensures l[i] != NEWLINE && l[i] != CONTROL
    {
      assert Printable(l[i]);
    }
  }

  ghost predicate AllPlainLines(lines: seq<Bytes>) {
    forall i :: 0 <= i < |lines| ==> PlainLine(lines[i])
  }

  /** No line of an encoded file looks like a control line or contains a newline. */
  lemma {:induction false} FileIsPlain(s: Bytes)
    ensures AllPlainLines(EncodeFile(s))
  {
    LineIsPlain(s[..Portion(s)]);
    if s == [] {
      LineIsPlain([]);
    } else {
      FileIsPlain(s[Portion(s)..]);
    }
  }

  /** Decoding the lines of an encoded file and putting them together gives the file back. */
  lemma {:induction false} FileRoundTrip(s: Bytes)
    ensures AllPlainLines(EncodeFile(s)) && DecodeFile(EncodeFile(s)) == s
  {
    hide DecodeLine, EncodeLine;
    FileIsPlain(s);
    if s == [] {
      LineRoundTrip([]);
      assert DecodeFile([EncodeLine([])]) == DecodeLine(EncodeLine([])) + DecodeFile([]);
    } else {
      var k := Portion(s);
      LineRoundTrip(s[..k]);
      FileRoundTrip(s[k..]);
      assert EncodeFile(s)[1..] == EncodeFile(s[k..]);
      assert s[..k] + s[k..] == s;
    }
  }

  /** A line starts with its number of bytes plus 32 and has four characters for every three bytes begun. */
  lemma LineFormat(s: Bytes)
    requires |s| < 64
    ensures EncodeLine(s) != [] && EncodeLine(s)[0] as int == 32 + |s| && |EncodeLine(s)| == 1 + (|s| + 2) / 3 * 4
  {
    hide Enc, EncodeGroup;
    EncodedLength(s);
    MarkIs(|s|);
  }

  lemma MarkIs(n: nat)
    requires n < 64
    ensures LengthMark(n) as int == 32 + n
  {
    var x := n as bv8;
    assert x < 64;
    assert (x & 0x3F) + 0x20 == x + 0x20;
    assert (x + 0x20) as int == x as int + 32;
  }

  function Least(a: int, b: int): int {
    if a <= b then a else b
  }

  /** One line for every 45 bytes, in order, and a line with a single space at the end. */
  lemma {:induction false} FileFormat(s: Bytes, i: nat)
    ensures var lines := EncodeFile(s);
            && |lines| == (|s| + 44) / 45 + 1 && lines[|lines| - 1] == [0x20]
            && (i < |lines| - 1 ==> 45 * i < |s| && lines[i] == EncodeLine(s[45 * i..Least(45 * i + 45, |s|)]))
    decreases |s|
  {
    hide EncodeLine;
    EmptyLine();
    if s != [] {
      var k := Portion(s);
      var rest := s[k..];
      FileFormat(rest, if i == 0 then 0 else i - 1);
      assert EncodeFile(s)[1..] == EncodeFile(rest);
      if i == 0 {
        assert s[0..Least(45, |s|)] == s[..k];
      } else if i < |EncodeFile(s)| - 1 {
        assert k == 45;
        assert rest[45 * (i - 1)..Least(45 * (i - 1) + 45, |rest|)] == s[45 * i..Least(45 * i + 45, |s|)];
      }
    }
  }

  // ---------------------------------------------------------------- the loops

  /** Encodes group by group, then the tail. */
  method EncodeLineLoop(s: Bytes) returns (out: Bytes)
    requires |s| <= 60
    ensures out == EncodeLine(s)
  {
    out := [LengthMark(|s|)];
    var i := 0;
    while |s| - i > 2
      invariant 0 <= i <= |s|
      invariant out + EncodeBytes(s[i..]) == EncodeLine(s)
    {
      var g := EncodeGroup(s[i], s[i + 1], s[i + 2]);
      assert s[i..][3..] == s[i + 3..];
      ConcatAssoc(out, g, EncodeBytes(s[i + 3..]));
      out := out + g;
      i := i + 3;
    }
    if i < |s| {
      out := out + EncodeGroup(s[i], if |s| - i > 1 then s[i + 1] else 0, 0);
    }
  }

  lemma DecodeOn(line: Bytes, i: nat, m: int, out: Bytes)
    requires 0 < m && i <= |line| && Room(m) <= |line| - i
    ensures i + 4 <= |line| && Room(m - 3) <= |line| - (i + 4)
    ensures out + DecodeBytes(line[i..], m)
         == out + DecodeGroup(line[i], line[i + 1], line[i + 2], line[i + 3]) + DecodeBytes(line[i + 4..], m - 3)
  {
    assert line[i..][4..] == line[i + 4..];
    ConcatAssoc(out, DecodeGroup(line[i], line[i + 1], line[i + 2], line[i + 3]), DecodeBytes(line[i + 4..], m - 3));
  }

  lemma DecodeDone(t: Bytes, m: int)
    requires m <= 0
    ensures Room(m) == 0 && DecodeBytes(t, m) == []
  {
  }

  /** Decodes as many groups as the length mark calls for and keeps that many bytes. */
  method DecodeLineLoop(line: Bytes) returns (out: Bytes)
    requires Complete(line)
    ensures out == DecodeLine(line)
  {
    hide Dec, DecodeGroup, DecodeBytes, Room;
    var len: int := Dec(line[0]) as nat;
    DecodeLength(line[1..], len);
    out := [];
    var n, i := 0, 1;
    while n < len
      invariant 0 <= n && 1 <= i <= |line| && Room(len - n) <= |line| - i
      invariant out + DecodeBytes(line[i..], len - n) == DecodeBytes(line[1..], len)
      decreases len - n
    {
      DecodeOn(line, i, len - n, out);
      out := out + DecodeGroup(line[i], line[i + 1], line[i + 2], line[i + 3]);
      n, i := n + 3, i + 4;
    }
    DecodeDone(line[i..], len - n);
    assert out + [] == out;
    out := out[..len];
  }

  lemma EmptyLine()
    ensures EncodeLine([]) == [0x20]
  {
    assert Enc(0) == 0x20;
    assert EncodeBytes([]) == [];
  }

  /** Encodes a file into the body and ends it with an empty line. */
  method BodyInsertBinary(data: Bytes) returns (lines: seq<Bytes>, count: nat)
    ensures lines == EncodeFile(data) && count == |lines|
  {
    lines, count := [], 0;
    var pos := 0;
    while pos < |data|
      invariant 0 <= pos <= |data| && count == |lines|
      invariant lines + EncodeFile(data[pos..]) == EncodeFile(data)
    {
      var k := Portion(data[pos..]);
      var line := EncodeLineLoop(data[pos..][..k]);
      assert data[pos..][k..] == data[pos + k..];
      ConcatAssoc(lines, [line], EncodeFile(data[pos + k..]));
      lines, count, pos := lines + [line], count + 1, pos + k;
    }
    EmptyLine();
    lines, count := lines + [[0x20]], count + 1;
  }

  /** Encodes a file for comparison with the body: the loop stops after the first empty read. */
  method EncodeStream(data: Bytes) returns (lines: seq<Bytes>)
    ensures lines == EncodeFile(data)
  {
    lines := [];
    var pos, len := 0, 1;
    while len != 0
      invariant 0 <= pos <= |data|
      invariant len == 0 ==> lines == EncodeFile(data)
      invariant len != 0 ==> lines + EncodeFile(data[pos..]) == EncodeFile(data)
      decreases |data| - pos, len
    {
      var rest := data[pos..];
      len := Portion(rest);
      var line := EncodeLineLoop(rest[..len]);
      if len != 0 {
        assert rest[len..] == data[pos + len..];
        ConcatAssoc(lines, [line], EncodeFile(data[pos + len..]));
      } else {
        assert rest[..len] == [];
      }
      lines, pos := lines + [line], pos + len;
    }
  }
}
