/** Decimal numbers, as the header of an s-file writes and reads them. */
module Decimal {
  import opened Basics

  predicate IsDigit(c: char) { '0' <= c <= '9' }

  function Digit(d: nat): (c: char)
    requires d < 10
    ensures IsDigit(c) && DigitValue(c) == d
  {
    "0123456789"[d]
  }

  function DigitValue(c: char): nat
    requires IsDigit(c)
  {
    c as nat - '0' as nat
  }

  predicate AllDigits(s: string) {
    forall i :: 0 <= i < |s| ==> IsDigit(s[i])
  }

  /** `%u` */
  function Print(n: nat): (s: string)
    ensures s != [] && AllDigits(s)
  {
    if n < 10 then [Digit(n)] else Print(n / 10) + [Digit(n % 10)]
  }

  function Value(s: string): nat
    requires AllDigits(s)
  {
    if s == [] then 0 else Value(s[..|s| - 1]) * 10 + DigitValue(s[|s| - 1])
  }

  lemma {:induction false} PrintValue(n: nat)
    ensures Value(Print(n)) == n
  {
    if n < 10 {
      assert [Digit(n)][..0] == [];
    } else {
      PrintValue(n / 10);
      var s := Print(n);
      assert s[..|s| - 1] == Print(n / 10);
    }
  }

  /** The digits stand in the usual order. */
  lemma PrintExample()
    ensures Print(0) == "0" && Print(407) == "407" && Value("65535") == 65535
  {
    assert Print(40) == Print(4) + ['0'];
    assert Print(407) == Print(40) + ['7'];
    assert "65535"[..4] == "6553" && "6553"[..3] == "655" && "655"[..2] == "65" && "65"[..1] == "6" && "6"[..0] == "";
    assert Value("6") == 6;
    assert Value("65") == 65;
    assert Value("655") == 655;
    assert Value("6553") == 6553;
  }

  function Zeros(k: nat): (s: string)
    ensures |s| == k && AllDigits(s)
  {
    if k == 0 then [] else Zeros(k - 1) + ['0']
  }

  /** `%0wu`: at least w digits. */
  function Padded(n: nat, w: nat): (s: string)
    ensures s != [] && AllDigits(s)
  {
    if |Print(n)| < w then Zeros(w - |Print(n)|) + Print(n) else Print(n)
  }

  lemma {:induction false} ZerosValue(k: nat, s: string)
    requires AllDigits(s)
    ensures Value(Zeros(k) + s) == Value(s)
    decreases |s|, k
  {
    var t := Zeros(k) + s;
    if s == [] {
      assert t == Zeros(k);
      if k > 0 {
        assert t[..|t| - 1] == Zeros(k - 1) + [];
        ZerosValue(k - 1, []);
      }
    } else {
      assert t[..|t| - 1] == Zeros(k) + s[..|s| - 1];
      ZerosValue(k, s[..|s| - 1]);
    }
  }

  lemma PaddedValue(n: nat, w: nat)
    ensures Value(Padded(n, w)) == n
  {
    PrintValue(n);
    ZerosValue(if |Print(n)| < w then w - |Print(n)| else 0, Print(n));
  }

  lemma {:induction false} PrintLength(n: nat, w: nat)
    requires n < Power(w) && 0 < w
    ensures |Print(n)| <= w
  {
    if n >= 10 {
      assert w > 1 by { assert Power(1) == 10 * Power(0); }
      assert n / 10 < Power(w - 1);
      PrintLength(n / 10, w - 1);
    }
  }

  function Power(w: nat): nat {
    if w == 0 then 1 else 10 * Power(w - 1)
  }

  /** Numbers below 10^w fill exactly w places. */
  lemma PaddedLength(n: nat, w: nat)
    requires n < Power(w) && 0 < w
    ensures |Padded(n, w)| == w
  {
    PrintLength(n, w);
  }

  // ---------------------------------------------------------------- strict_atous

  /** A 16-bit number: digits only, at least one, and not too big. */
  function Atous(s: string): Option<nat> {
    if s != [] && AllDigits(s) && Value(s) <= 65535 then Some(Value(s)) else None
  }

  lemma {:induction false} ValueGrows(s: string, i: nat)
    requires AllDigits(s) && i <= |s|
    ensures AllDigits(s[..i]) && Value(s[..i]) <= Value(s)
    decreases |s| - i
  {
    if i == |s| {
      assert s[..i] == s;
    } else {
      ValueGrows(s, i + 1);
      assert s[..i + 1][..i] == s[..i];
    }
  }

  /** Reads the digits one by one and gives up early. */
  method StrictAtous(s: string) returns (r: Option<nat>)
    ensures r == Atous(s)
  {
    var n, empty := 0, true;
    for i := 0 to |s|
      invariant AllDigits(s[..i]) && n == Value(s[..i]) <= 65535
      invariant empty <==> i == 0
    {
      if !IsDigit(s[i]) {
        return None;
      }
      empty := false;
      assert s[..i + 1][..i] == s[..i];
      n := n * 10 + DigitValue(s[i]);
      if n > 65535 {
        if AllDigits(s) {
          ValueGrows(s, i + 1);
        }
        return None;
      }
    }
    assert s[..|s|] == s;
    return if empty then None else Some(n);
  }
}
