/** The pieces of .NET text handling the claim parser leans on:
    `string.Split(".")` and `int.Parse` with '-' and '+' as the signs
    (surrounding white space, one optional sign, decimal digits, 32-bit
    range), with the decimal rendering of an integer as the inverse.
 */
module Numbers {
  import opened Wrappers

  const Int32Min := -0x8000_0000
  const Int32Max := 0x7FFF_FFFF

  predicate InInt32(n: int) {
    Int32Min <= n <= Int32Max
  }

  // ---------------------------------------------------------------- split

  /** The position of the first `c` in `s`. */
  function IndexOf(s: string, c: char): (i: nat)
    requires c in s
    ensures i < |s| && s[i] == c
    ensures forall k :: 0 <= k < i ==> s[k] != c
  {
    if s[0] == c then 0
    else
      assert c in s[1..];
      1 + IndexOf(s[1..], c)
  }

  /** `s.Split(".")`: the pieces between dots, empty pieces included. */
  function Split(s: string): (parts: seq<string>)
    ensures |parts| >= 1
    ensures forall k :: 0 <= k < |parts| ==> '.' !in parts[k]
    decreases |s|
  {
    if '.' !in s then [s]
    else
      var i := IndexOf(s, '.');
      [s[..i]] + Split(s[i + 1..])
  }

  /** The pieces joined back with dots. */
  function JoinDots(parts: seq<string>): string
    requires |parts| >= 1
  {
    if |parts| == 1 then parts[0] else parts[0] + "." + JoinDots(parts[1..])
  }

  /** Splitting loses nothing: joining the pieces gives back the input. */
  lemma {:induction false} SplitJoin(s: string)
    ensures JoinDots(Split(s)) == s
    decreases |s|
  {
    if '.' in s {
      var i := IndexOf(s, '.');
      var rest := Split(s[i + 1..]);
      assert Split(s) == [s[..i]] + rest;
      assert JoinDots(Split(s)) == s[..i] + "." + JoinDots(rest);
      SplitJoin(s[i + 1..]);
      assert s == s[..i] + "." + s[i + 1..];
    }
  }

  /** The first piece is everything before the first dot. */
  lemma SplitAtFirstDot(a: string, b: string)
    requires '.' !in a
    ensures Split(a + "." + b) == [a] + Split(b)
  {
    var s := a + "." + b;
    assert s[..|a|] == a && s[|a|] == '.';
    var i := IndexOf(s, '.');
    assert i == |a|;
    assert s[..i] == a && s[i + 1..] == b;
  }

  // --------------------------------------------------------------- digits

  predicate IsDigit(c: char) {
    '0' <= c <= '9'
  }

  function DigitValue(c: char): nat
    requires IsDigit(c)
  {
    (c as int) - ('0' as int)
  }

  function DigitChar(d: nat): (c: char)
    requires d < 10
    ensures IsDigit(c) && DigitValue(c) == d
  {
    ('0' as int + d) as char
  }

  predicate AllDigits(s: string) {
    forall k :: 0 <= k < |s| ==> IsDigit(s[k])
  }

  /** The value of a decimal digit string, most significant digit first. */
  function DigitsValue(s: string): nat
    requires AllDigits(s)
  {
    if s == [] then 0
    else DigitsValue(s[..|s| - 1]) * 10 + DigitValue(s[|s| - 1])
  }

  /** The decimal digits of a natural number, without leading zeros. */
  function NatDigits(n: nat): (s: string)
    ensures |s| >= 1 && AllDigits(s)
  {
    if n < 10 then [DigitChar(n)] else NatDigits(n / 10) + [DigitChar(n % 10)]
  }

  lemma {:induction false} NatDigitsValue(n: nat)
    ensures DigitsValue(NatDigits(n)) == n
  {
    var s := NatDigits(n);
    if n >= 10 {
      NatDigitsValue(n / 10);
      assert s[..|s| - 1] == NatDigits(n / 10);
    }
  }

  /** `n.ToString()` with '-' as the negative sign. */
  function IntToString(n: int): (s: string)
    ensures |s| >= 1 && '.' !in s
  {
    var s := if n < 0 then "-" + NatDigits(-n) else NatDigits(n);
    assert forall k :: 0 <= k < |s| ==> s[k] != '.' by {
      if n < 0 {
        assert forall k :: 1 <= k < |s| ==> s[k] == NatDigits(-n)[k - 1];
      }
    }
    s
  }

  // ---------------------------------------------------------------- parse

  /** The white space `NumberStyles.Integer` lets surround a number. */
  predicate IsNumberWhite(c: char) {
    c == ' ' || '\t' <= c <= '\r'
  }

  function TrimStart(s: string): (t: string)
    ensures |t| <= |s| && (t == [] || !IsNumberWhite(t[0]))
  {
    if s != [] && IsNumberWhite(s[0]) then TrimStart(s[1..]) else s
  }

  function TrimEnd(s: string): (t: string)
    ensures |t| <= |s| && (t == [] || !IsNumberWhite(t[|t| - 1]))
  {
    if s != [] && IsNumberWhite(s[|s| - 1]) then TrimEnd(s[..|s| - 1]) else s
  }

  /** `int.Parse(s)`: a format error unless what is left after trimming is an
      optional sign followed by at least one digit; an overflow error when the
      value does not fit 32 bits. */
  function ParseInt(s: string): (r: Result<int>)
    ensures r.Success? ==> InInt32(r.value)
    ensures r.Failure? ==> r.error == FormatError || r.error == Overflow
    ensures s == [] ==> r == Failure(FormatError)
  {
    var t := TrimEnd(TrimStart(s));
    var negative := t != [] && t[0] == '-';
    var digits := if t != [] && (t[0] == '-' || t[0] == '+') then t[1..] else t;
    if digits == [] || !AllDigits(digits) then Failure(FormatError)
    else
      var magnitude: int := DigitsValue(digits);
      var v := if negative then -magnitude else magnitude;
      if InInt32(v) then Success(v) else Failure(Overflow)
  }

  /** The length of the sign a trimmed numeral may start with. */
  function SignLength(t: string): (n: nat)
    ensures n <= 1 && n <= |t|
  {
    if t != [] && (t[0] == '-' || t[0] == '+') then 1 else 0
  }

  /** Only a numeral is accepted: the parse escapes a format error exactly
      when, once trimmed, the text is an optional sign followed by at least
      one decimal digit. */
  lemma ParseIntAcceptsNumerals(s: string)
    ensures var t := TrimEnd(TrimStart(s));
            ParseInt(s) != Failure(FormatError)
            <==> SignLength(t) < |t| && forall k :: SignLength(t) <= k < |t| ==> IsDigit(t[k])
  {
  }

  /** A numeral parses to its signed value when that fits 32 bits, and is an
      overflow otherwise. */
  lemma ParseIntOfNumeral(s: string, sign: string, digits: string)
    requires sign == "" || sign == "-" || sign == "+"
    requires digits != [] && AllDigits(digits)
    requires TrimEnd(TrimStart(s)) == sign + digits
    ensures var m: int := DigitsValue(digits); var v := if sign == "-" then -m else m;
            ParseInt(s) == if InInt32(v) then Success(v) else Failure(Overflow)
  {
    var t := TrimEnd(TrimStart(s));
    if sign == "" {
      assert t == digits && IsDigit(t[0]);
    } else {
      assert t[0] == sign[0] && t[1..] == digits;
    }
  }

  /** Parsing a rendered 32-bit integer gives it back. */
  lemma ParseIntToString(n: int)
    requires InInt32(n)
    ensures ParseInt(IntToString(n)) == Success(n)
  {
    var s := IntToString(n);
    assert TrimStart(s) == s;
    assert TrimEnd(s) == s by {
      var last := s[|s| - 1];
      if n < 0 {
        assert last == NatDigits(-n)[|NatDigits(-n)| - 1];
      }
    }
    if n < 0 {
      assert s[1..] == NatDigits(-n);
      NatDigitsValue(-n);
    } else {
      NatDigitsValue(n);
    }
  }
}
