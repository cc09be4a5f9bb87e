/** The request counter in a digest header: eight or more hex digits. */
module DigestCount {
  import opened Wrappers
  import opened Text
  import Hex
  import F = DigestFields

  const LIMIT: nat := 0x1_0000_0000

  function DigitValue(c: char): Option<Hex.Nibble> {
    if 'A' <= c <= 'F' then Some(c as int - 'A' as int + 10) else Hex.NibbleOf(c)
  }

  function Value(digits: string): Option<nat> {
    if digits == "" then Some(0)
    else
      var high, low := Value(digits[..|digits| - 1]), DigitValue(digits[|digits| - 1]);
      if high.None? || low.None? then None else Some(high.value * 16 + low.value)
  }

  // A 32-bit number in hex, in either case, with or without a plus sign.
  function ParseCount(text: string): Option<nat> {
    var digits := if |text| > 1 && text[0] == '+' then text[1..] else text;
    if digits == "" || Value(digits).None? || Value(digits).value >= LIMIT then None else Value(digits)
  }

  function Digits(n: nat): (r: string)
    ensures r != ""
  {
    if n < 16 then [Hex.Digit(n)] else Digits(n / 16) + [Hex.Digit(n % 16)]
  }

  function PadStart(s: string, width: nat): string
    decreases width - |s|
  {
    if |s| >= width then s else PadStart("0" + s, width)
  }

  function PrintCount(n: nat): string { PadStart(Digits(n), 8) }

  lemma {:induction false} DigitsValue(n: nat)
    ensures Value(Digits(n)) == Some(n) && Hex.Lowercase(Digits(n))
  {
    Hex.DigitRoundTrip(n % 16);
    hide Hex.Digit, Hex.NibbleOf;
    if n >= 16 {
      DigitsValue(n / 16);
      assert Digits(n)[..|Digits(n)| - 1] == Digits(n / 16);
    } else {
      assert Digits(n)[..0] == "";
    }
    assert Digits(n)[|Digits(n)| - 1] == Hex.Digit(n % 16);
    LowercaseDigit(Hex.Digit(n % 16));
  }

  lemma LowercaseDigit(c: char)
    requires Hex.NibbleOf(c).Some?
    ensures DigitValue(c) == Hex.NibbleOf(c)
  {}

  lemma {:induction false} ZeroInFront(s: string)
    ensures Value("0" + s) == Value(s)
  {
    if s != "" {
      ZeroInFront(s[..|s| - 1]);
      assert ("0" + s)[..|s|] == "0" + s[..|s| - 1];
    } else {
      assert "0"[..0] == "";
    }
  }

  lemma {:induction false} PaddingValue(s: string, width: nat)
    requires Hex.Lowercase(s) && s != ""
    ensures var p := PadStart(s, width); p != "" && Value(p) == Value(s) && Hex.Lowercase(p)
    decreases width - |s|
  {
    if |s| < width {
      ZeroInFront(s);
      assert Hex.NibbleOf('0').Some?;
      assert Hex.Lowercase("0" + s);
      PaddingValue("0" + s, width);
    }
  }

  function Sixteens(k: nat): nat { if k == 0 then 1 else 16 * Sixteens(k - 1) }

  lemma {:induction false} DigitsLength(n: nat, k: nat)
    requires k >= 1 && n < Sixteens(k)
    ensures |Digits(n)| <= k
  {
    if n >= 16 { DigitsLength(n / 16, k - 1); }
  }

  lemma {:induction false} PaddingLength(s: string, width: nat)
    ensures |PadStart(s, width)| == if |s| >= width then |s| else width
    decreases width - |s|
  {
    if |s| < width { PaddingLength("0" + s, width); }
  }

  lemma LimitIsEightDigits()
    ensures Sixteens(8) == LIMIT
  {
    assert Sixteens(4) == 0x1_0000;
  }

  /** A printed counter has eight digits and is read back exactly while it fits 32 bits. */
  lemma CountRoundTrip(n: nat)
    ensures n < LIMIT ==> |PrintCount(n)| == 8
    ensures ParseCount(PrintCount(n)) == if n < LIMIT then Some(n) else None
    ensures PrintCount(n) != "" && Hex.Lowercase(PrintCount(n))
  {
    DigitsValue(n);
    PaddingValue(Digits(n), 8);
    PaddingLength(Digits(n), 8);
    LimitIsEightDigits();
    if n < LIMIT { DigitsLength(n, 8); }
    hide Digits, PadStart, Sixteens;
    var p := PrintCount(n);
    assert Hex.NibbleOf(p[0]).Some?;
    assert p[0] != '+';
  }

  /** Lowercase digits stand alone in a header, quoted or not. */
  lemma LowercasePrintable(name: string, text: string)
    requires F.NameStands(name) && Hex.Lowercase(text)
    ensures F.Printable(F.Quoted(name, text)) && F.Printable(F.Bare(name, text))
  {
    forall i | 0 <= i < |text| ensures text[i] != ',' && text[i] != '"' && !Whitespace(text[i]) {
      assert Hex.NibbleOf(text[i]).Some?;
    }
  }
}
