/** SIDs, dates and fields, as text in the header of an s-file. */
module HeaderText {
  import opened Decimal
  import opened Sids
  import opened Deltas

  // ---------------------------------------------------------------- SIDs

  function PrintSid(x: Sid): string
    requires 0 <= x.rel && 0 <= x.level && 0 <= x.branch && 0 <= x.sequence
  {
    Print(x.rel) + Dotted(x.level, Dotted(x.branch, Dotted(x.sequence, "")))
  }

  /** A further component; nothing from a zero on. */
  function Dotted(n: nat, more: string): string {
    if n == 0 then "" else "." + (Print(n) + more)
  }

  /** A conversion to a 16-bit signed integer. */
  function ToShort(n: int): int {
    (n + 32768) % 65536 - 32768
  }

  /** One component of a SID and what follows it; -1 for an empty or malformed one. */
  function IdComp(s: string, n: nat): (int, string) {
    if s == [] then (ToShort(n), s)
    else if s[0] == '.' then (if n == 0 then (-1, s) else (ToShort(n), s[1..]))
    else if IsDigit(s[0]) then IdComp(s[1..], n * 10 + DigitValue(s[0]))
    else (-1, s)
  }

  function ParseSid(s: string): Sid {
    var (rel, s1) := IdComp(s, 0);
    var (level, s2) := IdComp(s1, 0);
    var (branch, s3) := IdComp(s2, 0);
    var (sequence, s4) := IdComp(s3, 0);
    Sid(if s4 != [] || rel == 0 || sequence == -1 then -1 else rel, level, branch, sequence)
  }

  predicate Short(n: int) { 0 < n <= 32767 }

  /** A trunk SID or a branch SID with all its components. */
  predicate FullSid(x: Sid) {
    Short(x.rel) && Short(x.level) && ((x.branch == 0 && x.sequence == 0) || (Short(x.branch) && Short(x.sequence)))
  }

  lemma {:induction false} IdCompPrint(n: nat, t: string)
    ensures IdComp(Print(n) + t, 0) == IdComp(t, n)
  {
    if n < 10 {
      assert (Print(n) + t)[1..] == t;
    } else {
      var d := [Digit(n % 10)];
      assert Print(n) + t == Print(n / 10) + (d + t);
      IdCompPrint(n / 10, d + t);
      assert (d + t)[1..] == t;
    }
  }

  lemma IdCompDot(n: nat, t: string)
    requires Short(n)
    ensures IdComp(Print(n) + ("." + t), 0) == (n, t)
  {
    IdCompPrint(n, "." + t);
    assert ("." + t)[1..] == t;
  }

  lemma IdCompLast(n: nat)
    requires Short(n)
    ensures IdComp(Print(n), 0) == (n, "")
  {
    IdCompPrint(n, "");
    assert Print(n) + "" == Print(n);
  }

  lemma SidRoundTrip(x: Sid)
    requires FullSid(x)
    ensures ParseSid(PrintSid(x)) == x
  {
    var last, branch := Dotted(x.sequence, ""), Dotted(x.branch, Dotted(x.sequence, ""));
    IdCompDot(x.rel, Print(x.level) + branch);
    if x.branch == 0 {
      IdCompLast(x.level);
      assert Print(x.level) + "" == Print(x.level);
    } else {
      IdCompDot(x.level, Print(x.branch) + last);
      IdCompDot(x.branch, Print(x.sequence) + "");
      IdCompLast(x.sequence);
      assert Print(x.sequence) + "" == Print(x.sequence);
    }
  }

  // ---------------------------------------------------------------- dates

  predicate LeapYear(y: int) {
    y % 4 == 0 && (y % 100 != 0 || y % 400 == 0)
  }

  function DaysInMonth(m: int, y: int): int {
    if m in {1, 3, 5, 7, 8, 10, 12} then 31
    else if m in {4, 6, 9, 11} then 30
    else if m == 2 then (if LeapYear(y) then 29 else 28)
    else -1
  }

  predicate ValidDate(d: Date) {
    && 0 <= d.year && 0 < d.month < 13 && 0 < d.day <= DaysInMonth(d.month, d.year)
    && 0 <= d.hour < 24 && 0 <= d.minute < 60 && 0 <= d.second <= 61
  }

  /** Two-digit years 69-99 are 1969-1999 and 00-68 are 2000-2068. */
  function Y2kWindow(yy: int): int {
    if yy < 69 then yy + 2000 else yy + 1900
  }

  /** `%02d` */
  function Two(n: int): string
    requires 0 <= n < 100
  {
    [Digit(n / 10), Digit(n % 10)]
  }

  function PrintDate(d: Date): string
    requires ValidDate(d)
  {
    Two(d.year % 100) + "/" + Two(d.month) + "/" + Two(d.day)
  }

  function PrintTime(d: Date): string
    requires ValidDate(d)
  {
    Two(d.hour) + ":" + Two(d.minute) + ":" + Two(d.second)
  }

  /** The form nn?nn?nn. */
  predicate Triple(s: string, sep: char) {
    && |s| == 8 && s[2] == sep && s[5] == sep
    && IsDigit(s[0]) && IsDigit(s[1]) && IsDigit(s[3]) && IsDigit(s[4]) && IsDigit(s[6]) && IsDigit(s[7])
  }

  function Pair(s: string, i: nat): int
    requires i + 1 < |s| && IsDigit(s[i]) && IsDigit(s[i + 1])
  {
    DigitValue(s[i]) * 10 + DigitValue(s[i + 1])
  }

  predicate FourDigitYear(s: string) {
    |s| > 4 && IsDigit(s[0]) && IsDigit(s[1]) && IsDigit(s[2]) && IsDigit(s[3]) && s[4] == '/'
  }

  /** The date without a century, and with the first character mended that a program with a year-2000
      fault has written past '9'. */
  function Mended(date: string): string {
    var s := if FourDigitYear(date) then date[2..] else date;
    if s != [] && ':' <= s[0] <= '@' then [(s[0] as int - 10) as char] + s[1..] else s
  }

  const NO_DATE := Date(-1, -1, -1, -1, -1, -1)

  function ParseDate(date: string, time: string): Date {
    var s := Mended(date);
    if Triple(s, '/') && Triple(time, ':') then
      var year := if FourDigitYear(date) && Pair(date, 0) != 0 then Pair(date, 0) * 100 + Pair(s, 0) else Y2kWindow(Pair(s, 0));
      Date(year, Pair(s, 3), Pair(s, 6), Pair(time, 0), Pair(time, 3), Pair(time, 6))
    else NO_DATE
  }

  lemma TripleText(a: int, b: int, c: int, sep: char)
    requires 0 <= a < 100 && 0 <= b < 100 && 0 <= c < 100
    ensures var s := Two(a) + [sep] + Two(b) + [sep] + Two(c);
            Triple(s, sep) && Pair(s, 0) == a && Pair(s, 3) == b && Pair(s, 6) == c
  {
    var s := Two(a) + [sep] + Two(b) + [sep] + Two(c);
    assert s == [Digit(a / 10), Digit(a % 10), sep, Digit(b / 10), Digit(b % 10), sep, Digit(c / 10), Digit(c % 10)];
  }

  lemma DateRoundTrip(d: Date)
    requires ValidDate(d) && 1969 <= d.year <= 2068
    ensures ParseDate(PrintDate(d), PrintTime(d)) == d
  {
    TripleText(d.year % 100, d.month, d.day, '/');
    TripleText(d.hour, d.minute, d.second, ':');
    assert Mended(PrintDate(d)) == PrintDate(d);
  }

  lemma TwoDigits(n: int)
    requires 0 <= n < 100
    ensures AllDigits(Two(n)) && Value(Two(n)) == n
  {
    var s := Two(n);
    assert s[..1] == [Digit(n / 10)] && s[..1][..0] == [];
    assert Value(s[..1]) == n / 10;
  }

  /** yy/mm/dd hh:mm:ss */
  lemma DateFormat(d: Date)
    requires ValidDate(d)
    ensures var s, t := PrintDate(d), PrintTime(d);
            && |s| == 8 && s[2] == s[5] == '/' && |t| == 8 && t[2] == t[5] == ':'
            && AllDigits(s[0..2]) && AllDigits(s[3..5]) && AllDigits(s[6..8]) && AllDigits(t[0..2]) && AllDigits(t[3..5]) && AllDigits(t[6..8])
            && Value(s[0..2]) == d.year % 100 && Value(s[3..5]) == d.month && Value(s[6..8]) == d.day
            && Value(t[0..2]) == d.hour && Value(t[3..5]) == d.minute && Value(t[6..8]) == d.second
  {
    ThreePairs(d.year % 100, d.month, d.day, '/');
    ThreePairs(d.hour, d.minute, d.second, ':');
  }

  lemma ThreePairs(a: int, b: int, c: int, sep: char)
    requires 0 <= a < 100 && 0 <= b < 100 && 0 <= c < 100
    ensures var s := Two(a) + [sep] + Two(b) + [sep] + Two(c);
            && |s| == 8 && s[2] == s[5] == sep && s[0..2] == Two(a) && s[3..5] == Two(b) && s[6..8] == Two(c)
            && AllDigits(s[0..2]) && AllDigits(s[3..5]) && AllDigits(s[6..8])
            && Value(s[0..2]) == a && Value(s[3..5]) == b && Value(s[6..8]) == c
  {
    hide Value;
    var s := Two(a) + [sep] + Two(b) + [sep] + Two(c);
    assert s[0..2] == Two(a) && s[3..5] == Two(b) && s[6..8] == Two(c);
    TwoDigits(a);
    TwoDigits(b);
    TwoDigits(c);
  }

  /** The days of each month; in the years that two digits can name, every fourth year is a leap year. */
  lemma MonthDays(m: int, y: int)
    requires 1 <= m <= 12
    ensures m != 2 ==> DaysInMonth(m, y) == [31, 0, 31, 30, 31, 30, 31, 31, 30, 31, 30, 31][m - 1]
    ensures 1969 <= y <= 2068 ==> DaysInMonth(2, y) == if y % 4 == 0 then 29 else 28
    ensures DaysInMonth(2, 1900) == DaysInMonth(2, 2100) == 28 && DaysInMonth(2, 2000) == DaysInMonth(2, 2400) == 29
    ensures forall d :: 1 <= d <= DaysInMonth(m, y) && 0 <= y ==> ValidDate(Date(y, m, d, 23, 59, 59)) && ValidDate(Date(y, m, d, 0, 0, 0))
  {
  }

  // ---------------------------------------------------------------- fields

  /** Where the first c is. */
  function Find(s: string, c: char): (k: nat)
    ensures k <= |s|
  {
    if s == [] || s[0] == c then 0 else 1 + Find(s[1..], c)
  }

  /** At most n fields; an empty last one does not count. */
  function Split(s: string, c: char, n: nat): seq<string>
    decreases n
  {
    if n == 0 then []
    else if Find(s, c) == |s| then (if s == [] then [] else [s])
    else [s[..Find(s, c)]] + Split(s[Find(s, c) + 1..], c, n - 1)
  }

  lemma {:induction false} FindFirst(a: string, c: char, t: string)
    requires c !in a
    ensures Find(a + ([c] + t), c) == |a| && Find(a, c) == |a|
  {
    if a == [] {
      assert a + ([c] + t) == [c] + t;
    } else {
      assert (a + ([c] + t))[1..] == a[1..] + ([c] + t);
      FindFirst(a[1..], c, t);
    }
  }

  lemma SplitHead(a: string, c: char, t: string, n: nat)
    requires c !in a && 0 < n
    ensures Split(a + ([c] + t), c, n) == [a] + Split(t, c, n - 1)
  {
    FindFirst(a, c, t);
    var s := a + ([c] + t);
    assert s[..|a|] == a && s[|a| + 1..] == t;
  }

  lemma SplitLast(a: string, c: char, n: nat)
    requires c !in a && a != [] && 0 < n
    ensures Split(a, c, n) == [a]
  {
    FindFirst(a, c, []);
  }

  /** A SID as text: its components, separated by dots. */
  lemma SidFormat(x: Sid)
    requires FullSid(x)
    ensures Split(PrintSid(x), '.', 4)
         == [Print(x.rel), Print(x.level)] + if x.branch == 0 then [] else [Print(x.branch), Print(x.sequence)]
    ensures |Split(PrintSid(x), '.', 4)| == x.Components()
  {
    hide Split, Print;
    NoDot(x.rel);
    NoDot(x.level);
    var last, branch := Dotted(x.sequence, ""), Dotted(x.branch, Dotted(x.sequence, ""));
    SplitHead(Print(x.rel), '.', Print(x.level) + branch, 4);
    if x.branch == 0 {
      assert Print(x.level) + "" == Print(x.level);
      SplitLast(Print(x.level), '.', 3);
    } else {
      NoDot(x.branch);
      NoDot(x.sequence);
      assert Print(x.sequence) + "" == Print(x.sequence);
      SplitHead(Print(x.level), '.', Print(x.branch) + last, 3);
      SplitHead(Print(x.branch), '.', Print(x.sequence), 2);
      SplitLast(Print(x.sequence), '.', 1);
    }
  }

  /** Printing stops at the first component that is zero. */
  lemma PartialSidFormat(x: Sid)
    requires x.rel > 0 && x.level >= 0 && x.branch >= 0 && x.sequence >= 0
    ensures x.level == 0 ==> PrintSid(x) == Print(x.rel)
    ensures x.level != 0 && x.branch == 0 ==> PrintSid(x) == Print(x.rel) + "." + Print(x.level)
    ensures x.level != 0 && x.branch != 0 && x.sequence == 0 ==> PrintSid(x) == Print(x.rel) + "." + Print(x.level) + "." + Print(x.branch)
  {
    hide Print;
  }

  lemma NoDot(n: int)
    requires 0 <= n
    ensures '.' !in Print(n)
  {
  }

  // ---------------------------------------------------------------- lines of a file

  type Lines = seq<string>

  function FileText(ls: Lines): string {
    if ls == [] then "" else ls[0] + ("\n" + FileText(ls[1..]))
  }

  /** The lines of a file.  The character at the end of a line is cut off, newline or not, so that a last
      line without a newline loses a character. */
  function FileLines(f: string): Lines {
    if f == [] then []
    else
      var k := Find(f, '\n');
      if k == |f| then [f[..|f| - 1]] else [f[..k]] + FileLines(f[k + 1..])
  }

  predicate NoBreaks(ls: Lines) {
    forall i :: 0 <= i < |ls| ==> '\n' !in ls[i]
  }

  lemma {:induction false} FindBreak(a: string, c: char, t: string)
    requires c in a
    ensures Find(a + t, c) == Find(a, c) < |a|
  {
    if a[0] != c {
      assert (a + t)[1..] == a[1..] + t;
      FindBreak(a[1..], c, t);
    }
  }

  lemma FirstLine(l: string, t: string)
    ensures '\n' !in l ==> FileLines(l + ("\n" + t)) == [l] + FileLines(t)
    ensures '\n' in l ==> FileLines(l + ("\n" + t)) != [] && FileLines(l + ("\n" + t))[0] == l[..Find(l, '\n')] && Find(l, '\n') < |l|
  {
    hide Find;
    var f := l + ("\n" + t);
    if '\n' in l {
      FindBreak(l, '\n', "\n" + t);
      assert f[..Find(l, '\n')] == l[..Find(l, '\n')];
    } else {
      FindFirst(l, '\n', t);
      assert f[..|l|] == l && f[|l| + 1..] == t;
    }
  }

  /** Lines are read back as they were written exactly when none contains a newline. */
  lemma {:induction false} LinesRoundTrip(ls: Lines)
    ensures FileLines(FileText(ls)) == ls <==> NoBreaks(ls)
  {
    if ls != [] {
      FirstLine(ls[0], FileText(ls[1..]));
      if '\n' !in ls[0] {
        LinesRoundTrip(ls[1..]);
        assert ls == [ls[0]] + ls[1..];
      }
    }
  }
}
