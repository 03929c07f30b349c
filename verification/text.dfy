/** String helpers the grid relies on: decimal rendering of integers (what a
    JavaScript template literal does to a number), HTML entity encoding of cell
    text, `String.prototype.split` on one separator character, `length` in
    UTF-16 code units, and `indexOf` for a character. Decimal rendering and
    HTML encoding are proved against their inverses. */
module Text {

  // ---------------------------------------------------------------------------
  // Decimal rendering

  function DigitChar(d: nat): char
    requires d < 10
  {
    "0123456789"[d]
  }

  predicate IsDigit(c: char) {
    '0' <= c <= '9'
  }

  function DigitValue(c: char): nat
    requires IsDigit(c)
  {
    (c as int - '0' as int) as nat
  }

  /** Decimal digits of `n`, most significant first, without leading zeros. */
  function NatToString(n: nat): (s: string)
    ensures |s| >= 1
    ensures forall i :: 0 <= i < |s| ==> IsDigit(s[i])
    decreases n
  {
    if n < 10 then [DigitChar(n)] else NatToString(n / 10) + [DigitChar(n % 10)]
  }

  /** `${n}` for an integer `n`: a minus sign for negatives, then the digits. */
  function IntToString(n: int): string {
    if n < 0 then "-" + NatToString(-n) else NatToString(n)
  }

  /** Reads a string of decimal digits (the empty string reads as 0). */
  function ParseNat(s: string): nat
    requires forall i :: 0 <= i < |s| ==> IsDigit(s[i])
    decreases |s|
  {
    if |s| == 0 then 0 else ParseNat(s[..|s| - 1]) * 10 + DigitValue(s[|s| - 1])
  }

  predicate IsIntText(s: string) {
    if |s| > 0 && s[0] == '-' then
      forall i :: 1 <= i < |s| ==> IsDigit(s[i])
    else
      forall i :: 0 <= i < |s| ==> IsDigit(s[i])
  }

  /** Reference reader for `IntToString`'s output. */
  function ParseInt(s: string): int
    requires IsIntText(s)
  {
    if |s| > 0 && s[0] == '-' then -(ParseNat(s[1..]) as int) else ParseNat(s)
  }

  lemma DigitRoundTrip(d: nat)
    requires d < 10
    ensures IsDigit(DigitChar(d)) && DigitValue(DigitChar(d)) == d
  {
  }

  lemma {:induction false} ParseNatToString(n: nat)
    ensures ParseNat(NatToString(n)) == n
    decreases n
  {
    if n < 10 {
      DigitRoundTrip(n);
    } else {
      var prefix := NatToString(n / 10);
      var s := prefix + [DigitChar(n % 10)];
      assert s[..|s| - 1] == prefix;
      DigitRoundTrip(n % 10);
      ParseNatToString(n / 10);
    }
  }

  lemma NegativeText(m: nat)
    requires m > 0
    ensures IsIntText("-" + NatToString(m))
    ensures ParseInt("-" + NatToString(m)) == -(m as int)
  {
    var digits := NatToString(m);
    var s := "-" + digits;
    assert s[1..] == digits;
    forall i | 1 <= i < |s|
      ensures IsDigit(s[i])
    {
      assert s[i] == digits[i - 1];
    }
    ParseNatToString(m);
  }

  /** Every integer's decimal text reads back as that integer. */
  lemma IntToStringRoundTrip(n: int)
    ensures IsIntText(IntToString(n))
    ensures ParseInt(IntToString(n)) == n
  {
    if n < 0 {
      NegativeText(-n);
    } else {
      var s := NatToString(n);
      assert s[0] != '-' by { assert IsDigit(s[0]); }
      assert IntToString(n) == s;
      ParseNatToString(n);
    }
  }

  // ---------------------------------------------------------------------------
  // HTML encoding of text placed inside markup

  /** The characters the encoder replaces by an entity. */
  predicate IsHtmlSpecial(c: char) {
    c == '&' || c == '<' || c == '>' || c == '"' || c == '\''
  }

  function EncodeChar(c: char): string {
    match c
    case '&' => "&amp;"
    case '<' => "&lt;"
    case '>' => "&gt;"
    case '"' => "&quot;"
    case '\'' => "&#39;"
    case _ => [c]
  }

  /** Replaces each of `& < > " '` by its entity and keeps every other character. */
  function HtmlEncode(s: string): (r: string)
    ensures |r| >= |s|
    ensures forall i :: 0 <= i < |r| ==> r[i] != '<' && r[i] != '>' && r[i] != '"' && r[i] != '\''
    ensures (forall i :: 0 <= i < |s| ==> !IsHtmlSpecial(s[i])) ==> r == s
    decreases |s|
  {
    if |s| == 0 then "" else EncodeChar(s[0]) + HtmlEncode(s[1..])
  }

  /** Reference decoder: turns the five entities back into their characters. */
  function HtmlDecode(s: string): string
    decreases |s|
  {
    if |s| == 0 then ""
    else if |s| >= 5 && s[..5] == "&amp;" then "&" + HtmlDecode(s[5..])
    else if |s| >= 4 && s[..4] == "&lt;" then "<" + HtmlDecode(s[4..])
    else if |s| >= 4 && s[..4] == "&gt;" then ">" + HtmlDecode(s[4..])
    else if |s| >= 6 && s[..6] == "&quot;" then "\"" + HtmlDecode(s[6..])
    else if |s| >= 5 && s[..5] == "&#39;" then "'" + HtmlDecode(s[5..])
    else [s[0]] + HtmlDecode(s[1..])
  }

  lemma DecodePlainChar(c: char, rest: string)
    requires !IsHtmlSpecial(c)
    ensures HtmlDecode([c] + rest) == [c] + HtmlDecode(rest)
  {
    var s := [c] + rest;
    assert s[0] == c && s[1..] == rest;
  }

  lemma DecodeAmp(rest: string)
    ensures HtmlDecode("&amp;" + rest) == "&" + HtmlDecode(rest)
  {
    var s := "&amp;" + rest;
    assert s[..5] == "&amp;" && s[5..] == rest;
  }

  lemma DecodeLt(rest: string)
    ensures HtmlDecode("&lt;" + rest) == "<" + HtmlDecode(rest)
  {
    var s := "&lt;" + rest;
    assert s[1] == 'l';
    assert |s| >= 5 ==> s[..5] != "&amp;" by {
      if |s| >= 5 { assert s[..5][1] == 'l'; }
    }
    assert s[..4] == "&lt;" && s[4..] == rest;
  }

  lemma DecodeGt(rest: string)
    ensures HtmlDecode("&gt;" + rest) == ">" + HtmlDecode(rest)
  {
    var s := "&gt;" + rest;
    assert |s| >= 5 ==> s[..5] != "&amp;" by {
      if |s| >= 5 { assert s[..5][1] == 'g'; }
    }
    assert s[..4] != "&lt;" by { assert s[..4][1] == 'g'; }
    assert s[..4] == "&gt;" && s[4..] == rest;
  }

  lemma DecodeQuot(rest: string)
    ensures HtmlDecode("&quot;" + rest) == "\"" + HtmlDecode(rest)
  {
    var s := "&quot;" + rest;
    assert s[..5] != "&amp;" by { assert s[..5][1] == 'q'; }
    assert s[..4] != "&lt;" by { assert s[..4][1] == 'q'; }
    assert s[..4] != "&gt;" by { assert s[..4][1] == 'q'; }
    assert s[..6] == "&quot;" && s[6..] == rest;
  }

  lemma DecodeApos(rest: string)
    ensures HtmlDecode("&#39;" + rest) == "'" + HtmlDecode(rest)
  {
    var s := "&#39;" + rest;
    assert s[..5] != "&amp;" by { assert s[..5][1] == '#'; }
    assert s[..4] != "&lt;" by { assert s[..4][1] == '#'; }
    assert s[..4] != "&gt;" by { assert s[..4][1] == '#'; }
    assert |s| >= 6 ==> s[..6] != "&quot;" by {
      if |s| >= 6 { assert s[..6][1] == '#'; }
    }
    assert s[..5] == "&#39;" && s[5..] == rest;
  }

  lemma DecodeEncodedChar(c: char, rest: string)
    ensures HtmlDecode(EncodeChar(c) + rest) == [c] + HtmlDecode(rest)
  {
    if c == '&' {
      DecodeAmp(rest);
    } else if c == '<' {
      DecodeLt(rest);
    } else if c == '>' {
      DecodeGt(rest);
    } else if c == '"' {
      DecodeQuot(rest);
    } else if c == '\'' {
      DecodeApos(rest);
    } else {
      DecodePlainChar(c, rest);
    }
  }

  /** Encoding loses nothing: the decoder recovers the original text. */
  lemma {:induction false} HtmlEncodeRoundTrip(s: string)
    ensures HtmlDecode(HtmlEncode(s)) == s
    decreases |s|
  {
    if |s| > 0 {
      DecodeEncodedChar(s[0], HtmlEncode(s[1..]));
      HtmlEncodeRoundTrip(s[1..]);
      assert [s[0]] + s[1..] == s;
    }
  }

  // ---------------------------------------------------------------------------
  // split on one separator character

  /** `s.split(sep)`: one part more than there are separators, none containing `sep`. */
  function Split(s: string, sep: char): (parts: seq<string>)
    ensures |parts| >= 1
    ensures forall i :: 0 <= i < |parts| ==> sep !in parts[i]
    decreases |s|
  {
    if |s| == 0 then [""]
    else
      var rest := Split(s[1..], sep);
      if s[0] == sep then [""] + rest else [[s[0]] + rest[0]] + rest[1..]
  }

  // ---------------------------------------------------------------------------
  // JavaScript string length

  /** `s.length`: the number of UTF-16 code units, two for a character above
      the Basic Multilingual Plane. */
  function Utf16Length(s: string): nat
    decreases |s|
  {
    if |s| == 0 then 0 else (if s[0] as int > 0xFFFF then 2 else 1) + Utf16Length(s[1..])
  }

  /** The UTF-16 length lies between the character count and twice it, and is
      the character count exactly when no character lies above U+FFFF. */
  lemma {:induction false} Utf16LengthBounds(s: string)
    ensures |s| <= Utf16Length(s) <= 2 * |s|
    ensures Utf16Length(s) == |s| <==> forall i :: 0 <= i < |s| ==> s[i] as int <= 0xFFFF
    decreases |s|
  {
    if |s| > 0 {
      Utf16LengthBounds(s[1..]);
      assert forall i :: 1 <= i < |s| ==> s[i] == s[1..][i - 1];
    }
  }

  // ---------------------------------------------------------------------------
  // indexOf

  /** `s.indexOf(c)`: the first position of `c`, or -1 when `c` does not occur. */
  function IndexOf(s: string, c: char): (r: int)
    ensures -1 <= r < |s|
    ensures r == -1 <==> c !in s
    ensures r >= 0 ==> s[r] == c && c !in s[..r]
    decreases |s|
  {
    if |s| == 0 then -1
    else if s[0] == c then 0
    else
      var k := IndexOf(s[1..], c);
      if k < 0 then -1
      else
        assert s[..k + 1] == [s[0]] + s[1..][..k];
        k + 1
  }
}
