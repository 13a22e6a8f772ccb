/** The body as it stands in the file. */
module BodyText {
  import opened Basics
  import opened Decimal
  import opened Weave
  import opened HeaderText
  import opened DeltaRecords

  function PrintLine(l: Line): string {
    match l
    case Text(s) => s
    case Ins(n) => [CTRL, 'I', ' '] + Print(n)
    case Del(n) => [CTRL, 'D', ' '] + Print(n)
    case End(n) => [CTRL, 'E', ' '] + Print(n)
  }

  /** A line that starts with ^A and a letter is a control line; any letter but I, D and E, a missing
      argument or a bad number makes the file corrupt. */
  function ParseLine(s: string): Option<Line> {
    if LineType(s) == '\0' then Some(Text(s))
    else if !HasArg(s) then None
    else
      var n := Atous(s[3..]);
      if n.None? then None
      else match s[1]
        case 'I' => Some(Ins(n.value))
        case 'D' => Some(Del(n.value))
        case 'E' => Some(End(n.value))
        case _ => None
  }

  function PrintBody(body: seq<Line>): Lines {
    if body == [] then [] else [PrintLine(body[0])] + PrintBody(body[1..])
  }

  function ParseBody(ls: Lines): Option<seq<Line>> {
    if ls == [] then Some([])
    else
      var l, more := ParseLine(ls[0]), ParseBody(ls[1..]);
      if l.None? || more.None? then None else Some([l.value] + more.value)
  }

  function WriteBody(body: seq<Line>): string {
    FileText(PrintBody(body))
  }

  function ReadBody(f: string): Option<seq<Line>> {
    ParseBody(FileLines(f))
  }

  /** Text that a reader takes for one line of text. */
  predicate Plain(s: string) {
    LineType(s) == '\0' && '\n' !in s
  }

  predicate AllPlain(ls: Lines) {
    forall i :: 0 <= i < |ls| ==> Plain(ls[i])
  }

  predicate Storable(l: Line) {
    if l.Text? then Plain(l.s) else l.n <= 65535
  }

  predicate AllStorable(body: seq<Line>) {
    forall l :: l in body ==> Storable(l)
  }

  lemma ControlRoundTrip(l: Line)
    requires !l.Text?
    ensures '\n' !in PrintLine(l)
    ensures ParseLine(PrintLine(l)) == Some(l) <==> l.n <= 65535
  {
    hide Print, Value, AllDigits;
    PrintValue(l.n);
    DigitsHold(Print(l.n), '\n');
    assert PrintLine(l)[3..] == Print(l.n);
  }

  /** What a control line looks like: `^A`, the letter, a space and the number. */
  lemma ControlFormat(l: Line)
    requires !l.Text?
    ensures var s := PrintLine(l);
            && |s| > 3 && s[0] == '\U{0001}' && s[2] == ' ' && AllDigits(s[3..]) && Value(s[3..]) == l.n
            && (s[1] == 'I' <==> l.Ins?) && (s[1] == 'D' <==> l.Del?) && (s[1] == 'E' <==> l.End?)
  {
    hide Print, Value, AllDigits;
    PrintValue(l.n);
    assert PrintLine(l)[3..] == Print(l.n);
  }

  /** A line is read back as it was written exactly when it is storable: text with a newline in it, text
      that starts like a control line and numbers of more than 16 bits are not. */
  lemma LineRoundTrip(l: Line)
    ensures '\n' !in PrintLine(l) && ParseLine(PrintLine(l)) == Some(l) <==> Storable(l)
  {
    if !l.Text? {
      ControlRoundTrip(l);
    }
  }

  /** The same for whole bodies: what was written to the file is read back from it exactly when every
      line is storable. */
  lemma {:induction false} BodyRoundTrip(body: seq<Line>)
    ensures ReadBody(WriteBody(body)) == Some(body) <==> AllStorable(body)
  {
    hide LineType, Atous, Find;
    if body != [] {
      var l, rest := PrintLine(body[0]), body[1..];
      LineRoundTrip(body[0]);
      BodyRoundTrip(rest);
      assert PrintBody(body)[1..] == PrintBody(rest);
      FirstLine(l, WriteBody(rest));
      assert body == [body[0]] + rest;
      if '\n' in l {
        TornLine(body, FileLines(l + ("\n" + WriteBody(rest))));
      } else {
        assert ([l] + FileLines(WriteBody(rest)))[1..] == FileLines(WriteBody(rest));
      }
    }
  }

  /** A text with a newline in it is read as more than one line. */
  lemma TornLine(body: seq<Line>, ls: Lines)
    requires body != [] && ls != [] && '\n' in PrintLine(body[0])
    requires Find(PrintLine(body[0]), '\n') < |PrintLine(body[0])|
    requires ls[0] == PrintLine(body[0])[..Find(PrintLine(body[0]), '\n')]
    ensures ParseBody(ls) != Some(body)
  {
    hide LineType, Atous, Find;
    if !body[0].Text? {
      ControlRoundTrip(body[0]);
      assert false;
    }
    assert |ls[0]| < |body[0].s|;
  }

  lemma {:induction false} BodyUnbroken(body: seq<Line>)
    requires AllStorable(body)
    ensures NoBreaks(PrintBody(body)) && ParseBody(PrintBody(body)) == Some(body)
  {
    if body != [] {
      LineRoundTrip(body[0]);
      BodyUnbroken(body[1..]);
      assert PrintBody(body)[1..] == PrintBody(body[1..]);
      assert [body[0]] + body[1..] == body;
    }
  }
}
