/** Lowercase hex: rendering bytes, and reading a key of fixed length back. */
module Hex {
  import opened Wrappers
  import opened Octets

  const DIGITS: string := "0123456789abcdef"
  const PSK_BYTES: nat := 32

  type Nibble = n: int | 0 <= n < 16

  function Digit(n: Nibble): char { DIGITS[n] }

  function NibbleOf(c: char): Option<Nibble> {
    if '0' <= c <= '9' then Some(c as int - '0' as int)
    else if 'a' <= c <= 'f' then Some(c as int - 'a' as int + 10)
    else None
  }

  lemma DigitRoundTrip(n: Nibble)
    ensures NibbleOf(Digit(n)) == Some(n)
  {
    assert DIGITS[n] == if n < 10 then ('0' as int + n) as char else ('a' as int + n - 10) as char;
  }

  lemma NibbleRoundTrip(c: char)
    requires NibbleOf(c).Some?
    ensures Digit(NibbleOf(c).value) == c
  {
    var n := NibbleOf(c).value;
    assert DIGITS[n] == if n < 10 then ('0' as int + n) as char else ('a' as int + n - 10) as char;
  }

  function Pair(b: byte): string { [Digit(b / 16), Digit(b % 16)] }

  function Joined(high: Nibble, low: Nibble): byte { 16 * high + low }

  lemma JoinedPair(high: Nibble, low: Nibble)
    ensures Pair(Joined(high, low)) == [Digit(high), Digit(low)]
  {
    assert Joined(high, low) / 16 == high && Joined(high, low) % 16 == low;
  }

  // The rendering, two digits a byte.
  function Encoded(bytes: Bytes): (r: string)
    ensures |r| == 2 * |bytes|
  {
    if bytes == [] then "" else Pair(bytes[0]) + Encoded(bytes[1..])
  }

  ghost predicate Lowercase(text: string) {
    forall i :: 0 <= i < |text| ==> NibbleOf(text[i]).Some?
  }

  lemma Regroup(x: string, y: string, z: string)
    ensures x + (y + z) == x + y + z
  {}

  lemma {:induction false} EncodedSplit(a: Bytes, b: Bytes)
    ensures Encoded(a + b) == Encoded(a) + Encoded(b)
  {
    if a == [] {
      assert a + b == b;
    } else {
      EncodedSplit(a[1..], b);
      assert (a + b)[0] == a[0] && (a + b)[1..] == a[1..] + b;
      Regroup(Pair(a[0]), Encoded(a[1..]), Encoded(b));
      hide Pair;
    }
  }

  /** No two byte strings render alike, and the digits are all lowercase. */
  lemma {:induction false} EncodedInjective(a: Bytes, b: Bytes)
    requires Encoded(a) == Encoded(b)
    ensures a == b && Lowercase(Encoded(a))
  {
    if a != [] {
      assert Encoded(a)[2..] == Encoded(a[1..]) && Encoded(b)[2..] == Encoded(b[1..]);
      EncodedInjective(a[1..], b[1..]);
      DigitRoundTrip(a[0] / 16);
      DigitRoundTrip(a[0] % 16);
      DigitRoundTrip(b[0] / 16);
      DigitRoundTrip(b[0] % 16);
      assert Encoded(a)[0] == Encoded(b)[0] && Encoded(a)[1] == Encoded(b)[1];
      forall i | 0 <= i < |Encoded(a)| ensures NibbleOf(Encoded(a)[i]).Some? {
        if i >= 2 { assert Encoded(a)[i] == Encoded(a[1..])[i - 2]; }
      }
    }
  }

  /** Every even run of lowercase digits renders some bytes. */
  lemma {:induction false} LowercaseIsEncoded(text: string) returns (bytes: Bytes)
    requires Lowercase(text) && |text| % 2 == 0
    ensures Encoded(bytes) == text
    decreases |text|
  {
    if text == "" {
      bytes := [];
    } else {
      var rest := LowercaseIsEncoded(text[2..]);
      NibbleRoundTrip(text[0]);
      NibbleRoundTrip(text[1]);
      var high, low := NibbleOf(text[0]).value, NibbleOf(text[1]).value;
      JoinedPair(high, low);
      hide Pair, Joined, NibbleOf, Digit;
      bytes := [Joined(high, low)] + rest;
      assert bytes[1..] == rest && text == [text[0], text[1]] + text[2..];
    }
  }

  method Encode(bytes: Bytes) returns (encoded: string)
    ensures encoded == Encoded(bytes)
  {
    encoded := "";
    for i := 0 to |bytes|
      invariant encoded == Encoded(bytes[..i])
    {
      encoded := encoded + [Digit(bytes[i] / 16)];
      encoded := encoded + [Digit(bytes[i] % 16)];
      assert bytes[..i + 1] == bytes[..i] + [bytes[i]];
      EncodedSplit(bytes[..i], [bytes[i]]);
      assert Encoded([bytes[i]]) == Pair(bytes[i]);
    }
    assert bytes[..|bytes|] == bytes;
  }

  // Nothing renders to a text with a character that is no lowercase digit.
  lemma NotEncoded(text: string, i: nat)
    requires i < |text| && NibbleOf(text[i]).None?
    ensures forall b: Bytes :: Encoded(b) != text
  {
    forall b: Bytes ensures Encoded(b) != text {
      if Encoded(b) == text { EncodedInjective(b, b); }
    }
  }

  lemma EncodedEmpty()
    ensures Encoded([]) == ""
  {}

  lemma OneMore(text: string, i: nat, decoded: Bytes, high: Nibble, low: Nibble)
    requires 2 * i + 1 < |text| && Encoded(decoded) == text[..2 * i]
    requires NibbleOf(text[2 * i]) == Some(high) && NibbleOf(text[2 * i + 1]) == Some(low)
    ensures Encoded(decoded + [Joined(high, low)]) == text[..2 * (i + 1)]
  {
    NibbleRoundTrip(text[2 * i]);
    NibbleRoundTrip(text[2 * i + 1]);
    JoinedPair(high, low);
    hide Joined, NibbleOf, Digit;
    EncodedSplit(decoded, [Joined(high, low)]);
    assert Encoded([Joined(high, low)]) == [text[2 * i], text[2 * i + 1]];
  }

  /** A stored key is read exactly when it is the rendering of thirty-two bytes, and reads as those. */
  method DecodeHex(text: string) returns (r: Option<Bytes>)
    ensures r.Some? ==> |r.value| == PSK_BYTES && Encoded(r.value) == text
    ensures forall b: Bytes :: |b| == PSK_BYTES && Encoded(b) == text ==> r == Some(b)
  {
    if |text| != 2 * PSK_BYTES {
      return None;
    }
    hide NibbleOf, Joined, Pair, Encoded;
    assert Encoded([]) == "" by { EncodedEmpty(); }
    var decoded := [];
    for i := 0 to PSK_BYTES
      invariant |decoded| == i && Encoded(decoded) == text[..2 * i]
    {
      var high: Option<Nibble>, low: Option<Nibble> := NibbleOf(text[2 * i]), NibbleOf(text[2 * i + 1]);
      if high.None? || low.None? {
        NotEncoded(text, if high.None? then 2 * i else 2 * i + 1);
        return None;
      }
      OneMore(text, i, decoded, high.value, low.value);
      decoded := decoded + [Joined(high.value, low.value)];
    }
    assert text[..2 * PSK_BYTES] == text;
    forall b: Bytes | |b| == PSK_BYTES && Encoded(b) == text ensures Some(decoded) == Some(b) {
      EncodedInjective(decoded, b);
    }
    return Some(decoded);
  }
}
