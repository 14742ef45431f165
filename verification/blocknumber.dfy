/**
 * Block numbers on the wire. The engine formats a height for a request with
 * the Go verb "0x%x" and reads a height back by dropping the first two
 * bytes and calling strconv.ParseInt(_, 16, 64). Strings are sequences of
 * characters here, which agrees with Go's bytes for ASCII replies. Go's int
 * is taken to be 64 bits wide (a 64-bit target), so the arithmetic the
 * engine does on heights wraps around at 2^64.
 */
module BlockNumber {
  import opened Models

  const MinInt64: int := -0x8000_0000_0000_0000
  const MaxInt64: int := 0x7fff_ffff_ffff_ffff
  const TwoTo64: int := 0x1_0000_0000_0000_0000

  /** Two's-complement wrap-around of a mathematical integer into int64. */
  function Wrap64(x: int): (r: int)
    ensures MinInt64 <= r <= MaxInt64
    ensures MinInt64 <= x <= MaxInt64 ==> r == x
    ensures (r - x) % TwoTo64 == 0
  {
    (x - MinInt64) % TwoTo64 + MinInt64
  }

  // ---------------------------------------------------------------------
  // Formatting: fmt.Sprintf("0x%x", n)
  // ---------------------------------------------------------------------

  /** The lower-case hex digit for d. */
  function Digit(d: nat): char
    requires d < 16
  {
    "0123456789abcdef"[d]
  }

  /** %x of a non-negative number: lower-case digits, no leading zeros. */
  function HexDigits(n: nat): string
    decreases n
  {
    if n < 16 then [Digit(n)] else HexDigits(n / 16) + [Digit(n % 16)]
  }

  /** %x prints a negative int as a minus sign followed by the digits of its magnitude. */
  function FormatHex(n: int): string
  {
    if n < 0 then "-" + HexDigits(-n) else HexDigits(n)
  }

  /** The request parameter for eth_getBlockByNumber. */
  function FormatBlockNumber(n: int): (s: string)
    ensures |s| >= 3 && s[..2] == "0x"
  {
    "0x" + FormatHex(n)
  }

  // ---------------------------------------------------------------------
  // Parsing: strconv.ParseInt(s, 16, 64)
  // ---------------------------------------------------------------------

  predicate IsHexDigit(c: char)
  {
    ('0' <= c <= '9') || ('a' <= c <= 'f') || ('A' <= c <= 'F')
  }

  predicate AllHexDigits(s: string)
  {
    forall i :: 0 <= i < |s| ==> IsHexDigit(s[i])
  }

  function DigitValue(c: char): (d: nat)
    requires IsHexDigit(c)
    ensures d < 16
  {
    if '0' <= c <= '9' then c as int - '0' as int
    else if 'a' <= c <= 'f' then c as int - 'a' as int + 10
    else c as int - 'A' as int + 10
  }

  /** The value of a string of hex digits, most significant first. */
  function HexValue(s: string): nat
    requires AllHexDigits(s)
  {
    if s == [] then 0 else 16 * HexValue(s[..|s| - 1]) + DigitValue(s[|s| - 1])
  }

  /**
   * strconv.ParseInt with base 16 and bit size 64: an optional sign, then
   * at least one hex digit of either case (no "0x" prefix and no
   * underscores, which Go accepts only with base 0); a value outside int64
   * is a range error.
   */
  function ParseInt16(s: string): (r: Option<int>)
    ensures r.Some? ==> MinInt64 <= r.value <= MaxInt64
    ensures r.Some? ==> s != [] && (r.value < 0 ==> s[0] == '-')
  {
    if s == [] then None
    else
      var neg := s[0] == '-';
      var digits := Magnitude(s);
      if digits == [] || !AllHexDigits(digits) then None
      else
        var m: int := HexValue(digits);
        if neg then (if m <= -MinInt64 then Some(-m) else None)
        else (if m <= MaxInt64 then Some(m) else None)
  }

  /** The digits ParseInt reads: the string after an optional leading sign. */
  function Magnitude(s: string): (d: string)
    ensures |d| <= |s|
  {
    if s != [] && (s[0] == '+' || s[0] == '-') then s[1..] else s
  }

  /** ParseInt's syntax error: nothing after the sign, or a character that is not a hex digit. */
  lemma ParseInt16SyntaxError(s: string)
    requires Magnitude(s) == [] || exists i :: 0 <= i < |Magnitude(s)| && !IsHexDigit(Magnitude(s)[i])
    ensures ParseInt16(s).None?
  {
  }

  /** ParseInt's range error: a magnitude beyond int64 on the side of the sign. */
  lemma ParseInt16RangeError(s: string)
    requires s != [] && AllHexDigits(Magnitude(s))
    requires if s[0] == '-' then HexValue(Magnitude(s)) > -MinInt64 else HexValue(Magnitude(s)) > MaxInt64
    ensures ParseInt16(s).None?
  {
  }

  /** A successful parse is the value of the digits, negated after a minus sign. */
  lemma ParseInt16Value(s: string)
    requires ParseInt16(s).Some?
    ensures s != [] && Magnitude(s) != [] && AllHexDigits(Magnitude(s))
    ensures ParseInt16(s).value == if s[0] == '-' then -(HexValue(Magnitude(s)) as int) else HexValue(Magnitude(s))
  {
  }

  /** Digits of either case, after an optional sign, with a magnitude inside int64 on the side of the sign, parse. */
  lemma ParseInt16Accepts(s: string)
    requires s != [] && Magnitude(s) != [] && AllHexDigits(Magnitude(s))
    requires if s[0] == '-' then HexValue(Magnitude(s)) <= -MinInt64 else HexValue(Magnitude(s)) <= MaxInt64
    ensures ParseInt16(s).Some?
  {
  }

  /** A node reply in upper case parses: ParseInt accepts digits of either case. */
  lemma UpperCaseReplyParses()
    ensures ParseBlockNumber("0x4B7") == Some(0x4b7)
  {
    assert "0x4B7"[2..] == "4B7";
    assert HexValue("4B7") == 0x4b7 by {
      assert "4B7"[..2] == "4B" && "4B"[..1] == "4" && "4"[..0] == [];
    }
  }

  /** A plus sign after the two dropped characters is accepted. */
  lemma SignedReplyParses()
    ensures ParseBlockNumber("0x+ff") == Some(255)
  {
    assert "0x+ff"[2..] == "+ff" && "+ff"[1..] == "ff";
    assert HexValue("ff") == 255 by { assert "ff"[..1] == "f" && "f"[..0] == []; }
  }

  /** Leading zeros, which the engine never prints, are accepted. */
  lemma PaddedReplyParses()
    ensures ParseBlockNumber("0x00ff") == Some(255)
  {
    assert "0x00ff"[2..] == "00ff";
    assert HexValue("00ff") == 255 by {
      assert "00ff"[..3] == "00f" && "00f"[..2] == "00" && "00"[..1] == "0" && "0"[..0] == [];
    }
  }

  /** Only two characters are dropped, so a second "0x" prefix is a syntax error. */
  lemma DoublePrefixFails()
    ensures ParseBlockNumber("0x0x1") == None
  {
    assert "0x0x1"[2..] == "0x1" && !IsHexDigit("0x1"[1]);
  }

  /**
   * ParseInt(s[2:], 16, 64) as the engine writes it: the first two
   * bytes are dropped without being looked at, which for an ASCII reply
   * are its first two characters. A reply shorter than two bytes makes
   * Go's slice expression panic; here it is a parse failure.
   */
  function ParseBlockNumber(s: string): (r: Option<int>)
    ensures |s| <= 2 ==> r.None?
    ensures r.Some? ==> MinInt64 <= r.value <= MaxInt64
  {
    if |s| < 2 then None else ParseInt16(s[2..])
  }

  // ---------------------------------------------------------------------
  // Round trip
  // ---------------------------------------------------------------------

  lemma DigitRoundTrip(d: nat)
    requires d < 16
    ensures IsHexDigit(Digit(d)) && DigitValue(Digit(d)) == d
  {
  }

  /** Appending a digit to a string of hex digits: the value shifts by one digit. */
  lemma HexValueSnoc(s: string, c: char)
    requires AllHexDigits(s) && IsHexDigit(c)
    ensures AllHexDigits(s + [c])
    ensures HexValue(s + [c]) == 16 * HexValue(s) + DigitValue(c)
  {
    var t := s + [c];
    assert forall i :: 0 <= i < |s| ==> t[i] == s[i];
    assert t[..|t| - 1] == s && t[|t| - 1] == c;
  }

  /** The digits %x prints for n read back as n. */
  lemma {:induction false} HexDigitsRoundTrip(n: nat)
    ensures HexDigits(n) != [] && AllHexDigits(HexDigits(n))
    ensures HexValue(HexDigits(n)) == n
    decreases n
  {
    if n < 16 {
      DigitRoundTrip(n);
      HexValueSnoc([], Digit(n));
      assert [] + [Digit(n)] == HexDigits(n);
    } else {
      var q, d := n / 16, n % 16;
      HexDigitsRoundTrip(q);
      DigitRoundTrip(d);
      HexValueSnoc(HexDigits(q), Digit(d));
      assert HexDigits(n) == HexDigits(q) + [Digit(d)];
    }
  }

  /**
   * For every int64 n, the engine's parse of its own request parameter
   * gives n back: ParseInt(Sprintf("0x%x", n)[2:], 16, 64) == n.
   */
  lemma FormatParseRoundTrip(n: int)
    requires MinInt64 <= n <= MaxInt64
    ensures ParseBlockNumber(FormatBlockNumber(n)) == Some(n)
  {
    var s := FormatBlockNumber(n);
    assert s[2..] == FormatHex(n);
    if n < 0 {
      NegativeParses(-n);
    } else {
      HexDigitsRoundTrip(n);
      var d := HexDigits(n);
      assert IsHexDigit(d[0]);
      assert ParseInt16(d) == Some(HexValue(d));
    }
  }

  lemma NegativeParses(m: nat)
    requires 0 < m <= -MinInt64
    ensures ParseInt16("-" + HexDigits(m)) == Some(-(m as int))
  {
    HexDigitsRoundTrip(m);
    var t := "-" + HexDigits(m);
    assert t[0] == '-' && t[1..] == HexDigits(m);
  }

  /** Distinct int64 heights are requested with distinct parameters. */
  lemma FormatBlockNumberInjective(m: int, n: int)
    requires MinInt64 <= m <= MaxInt64 && MinInt64 <= n <= MaxInt64
    ensures FormatBlockNumber(m) == FormatBlockNumber(n) <==> m == n
  {
    FormatParseRoundTrip(m);
    FormatParseRoundTrip(n);
  }
}
