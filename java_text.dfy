/**
 * The parts of the Java class library that the mapper relies on, modelled on
 * strings: String.split with a one-character delimiter, String.equalsIgnoreCase,
 * Integer.parseInt and Float.parseFloat followed by the comparison `< 7.0`.
 */
module JavaText {
  import opened Base

  // ---------------------------------------------------------------------------
  // String.split(d) for a delimiter d that is one ordinary character
  // ---------------------------------------------------------------------------

  /** The substrings between the occurrences of `d`, empty ones included. */
  function Pieces(s: string, d: char): (r: seq<string>)
    ensures |r| >= 1
    ensures forall p :: p in r ==> d !in p
  {
    if s == [] then [[]]
    else
      var rest := Pieces(s[1..], d);
      if s[0] == d then [[]] + rest
      else [[s[0]] + rest[0]] + rest[1..]
  }

  /** Glues pieces back together with `d` between neighbours. */
  function Join(ps: seq<string>, d: char): string
  {
    if ps == [] then []
    else if |ps| == 1 then ps[0]
    else ps[0] + [d] + Join(ps[1..], d)
  }

  /** Splitting at `d` loses nothing: joining the pieces gives back the string. */
  lemma {:induction false} JoinPieces(s: string, d: char)
    ensures Join(Pieces(s, d), d) == s
  {
    if s != [] {
      var rest := Pieces(s[1..], d);
      JoinPieces(s[1..], d);
      if s[0] == d {
        assert Pieces(s, d) == [[]] + rest;
        assert s == [d] + s[1..];
      } else {
        var p := [[s[0]] + rest[0]] + rest[1..];
        assert Pieces(s, d) == p;
        if |rest| == 1 {
          assert Join(p, d) == [s[0]] + rest[0];
        } else {
          assert rest == [rest[0]] + rest[1..];
          assert Join(rest, d) == rest[0] + [d] + Join(rest[1..], d);
          assert Join(p, d) == ([s[0]] + rest[0]) + [d] + Join(rest[1..], d);
        }
        assert s == [s[0]] + s[1..];
      }
    }
  }

  /** A string without the delimiter is one piece. */
  lemma {:induction false} PiecesWithoutDelimiter(s: string, d: char)
    requires d !in s
    ensures Pieces(s, d) == [s]
  {
    if s != [] {
      PiecesWithoutDelimiter(s[1..], d);
      assert s == [s[0]] + s[1..];
    }
  }

  /** Removes the empty strings at the end of a list of pieces. */
  function DropTrailingEmpty(ps: seq<string>): (r: seq<string>)
    ensures r <= ps
    ensures r == [] || r[|r| - 1] != []
    ensures forall i :: |r| <= i < |ps| ==> ps[i] == []
  {
    if ps != [] && ps[|ps| - 1] == [] then DropTrailingEmpty(ps[..|ps| - 1]) else ps
  }

  /**
   * Java's s.split(d) with the default limit 0: the whole string when `d` does
   * not occur, otherwise the pieces with the trailing empty ones removed.
   */
  function Split(s: string, d: char): (r: seq<string>)
    ensures d !in s ==> r == [s]
    ensures forall p :: p in r ==> d !in p
    ensures d in s ==> r == [] || r[|r| - 1] != []
  {
    if d !in s then [s] else DropTrailingEmpty(Pieces(s, d))
  }

  /** A non-empty string is an element of the split exactly when it lies between two delimiters. */
  lemma SplitKeepsNonEmpty(s: string, d: char, x: string)
    requires x != []
    ensures x in Split(s, d) <==> x in Pieces(s, d)
  {
    if d !in s {
      PiecesWithoutDelimiter(s, d);
    } else {
      var ps := Pieces(s, d);
      var r := DropTrailingEmpty(ps);
      if x in ps {
        var i :| 0 <= i < |ps| && ps[i] == x;
        assert i < |r|;
        assert r[i] == x;
      }
    }
  }

  /** A delimiter-free head followed by the delimiter is split off as one piece. */
  lemma {:induction false} PiecesAfterHead(a: string, t: string, d: char)
    requires d !in a
    ensures Pieces(a + [d] + t, d) == [a] + Pieces(t, d)
  {
    if a == [] {
      assert a + [d] + t == [d] + t;
      assert ([d] + t)[1..] == t;
    } else {
      PiecesAfterHead(a[1..], t, d);
      assert (a + [d] + t)[1..] == a[1..] + [d] + t;
      assert [a[0]] + a[1..] == a;
    }
  }

  /** Splitting what Join glued gives back the pieces, when none holds the delimiter. */
  lemma {:induction false} PiecesOfJoin(ps: seq<string>, d: char)
    requires ps != []
    requires forall i :: 0 <= i < |ps| ==> d !in ps[i]
    ensures Pieces(Join(ps, d), d) == ps
  {
    if |ps| == 1 {
      PiecesWithoutDelimiter(ps[0], d);
    } else {
      PiecesOfJoin(ps[1..], d);
      PiecesAfterHead(ps[0], Join(ps[1..], d), d);
      assert [ps[0]] + ps[1..] == ps;
    }
  }

  /**
   * Java's split inverts Join for two or more delimiter-free fields whose last
   * one is not empty (a trailing empty field would be dropped).
   */
  lemma SplitOfJoin(ps: seq<string>, d: char)
    requires |ps| >= 2 && ps[|ps| - 1] != []
    requires forall i :: 0 <= i < |ps| ==> d !in ps[i]
    ensures Split(Join(ps, d), d) == ps
  {
    PiecesOfJoin(ps, d);
    assert Join(ps, d) == ps[0] + [d] + Join(ps[1..], d);
    assert Join(ps, d)[|ps[0]|] == d;
  }

  // ---------------------------------------------------------------------------
  // String.equalsIgnoreCase
  // ---------------------------------------------------------------------------

  /**
   * Character.toUpperCase, with the case table restricted to ASCII letters and
   * the dotless small i (U+0131), whose upper case is 'I'.
   */
  function ToUpper(c: char): char
  {
    if 'a' <= c <= 'z' then (c as int - 32) as char
    else if c == '\U{0131}' then 'I'
    else c
  }

  /**
   * Character.toLowerCase, with the case table restricted to ASCII letters and
   * the dotted capital I (U+0130), whose lower case is 'i'.
   */
  function ToLower(c: char): char
  {
    if 'A' <= c <= 'Z' then (c as int + 32) as char
    else if c == '\U{0130}' then 'i'
    else c
  }

  /** The per-character test of String.regionMatches(ignoreCase = true). */
  predicate CharEqualsIgnoreCase(a: char, b: char)
  {
    a == b || ToUpper(a) == ToUpper(b) || ToLower(ToUpper(a)) == ToLower(ToUpper(b))
  }

  /** a.equalsIgnoreCase(b): same length and every position matches ignoring case. */
  predicate EqualsIgnoreCase(a: string, b: string): (r: bool)
    ensures a == b ==> r
    ensures r ==> |a| == |b|
  {
    |a| == |b| && forall i :: 0 <= i < |a| ==> CharEqualsIgnoreCase(a[i], b[i])
  }

  predicate IsAscii(s: string)
  {
    forall i :: 0 <= i < |s| ==> s[i] < '\U{80}'
  }

  /** The ASCII lower case of a character, the reference for case-insensitive comparison. */
  function AsciiLower(c: char): char
  {
    if 'A' <= c <= 'Z' then (c as int + 32) as char else c
  }

  /** On ASCII text, equalsIgnoreCase agrees with comparing the lower-cased strings. */
  lemma EqualsIgnoreCaseAscii(a: string, b: string)
    requires IsAscii(a) && IsAscii(b)
    ensures EqualsIgnoreCase(a, b) <==>
              |a| == |b| && forall i :: 0 <= i < |a| ==> AsciiLower(a[i]) == AsciiLower(b[i])
  {
    if |a| == |b| {
      forall i | 0 <= i < |a|
        ensures CharEqualsIgnoreCase(a[i], b[i]) <==> AsciiLower(a[i]) == AsciiLower(b[i])
      {
        assert a[i] < '\U{80}' && b[i] < '\U{80}';
      }
    }
  }

  // ---------------------------------------------------------------------------
  // Decimal digits
  // ---------------------------------------------------------------------------

  predicate IsDigit(c: char)
  {
    '0' <= c <= '9'
  }

  predicate AllDigits(s: string)
  {
    forall i :: 0 <= i < |s| ==> IsDigit(s[i])
  }

  function Pow10(k: nat): (p: nat)
    ensures p >= 1
  {
    if k == 0 then 1 else 10 * Pow10(k - 1)
  }

  /** The number written by a string of decimal digits, most significant first. */
  function DigitsValue(s: string): (n: nat)
    requires AllDigits(s)
    ensures n < Pow10(|s|)
  {
    if s == [] then 0
    else 10 * DigitsValue(s[..|s| - 1]) + (s[|s| - 1] as int - '0' as int)
  }

  /** The digit character of n's last decimal place. */
  function DigitChar(n: nat): char
  {
    ('0' as int + n % 10) as char
  }

  /** The canonical decimal form of a natural number (no sign, no leading zeros). */
  function Decimal(n: nat): (s: string)
    ensures s != [] && AllDigits(s)
  {
    if n < 10 then [DigitChar(n)] else Decimal(n / 10) + [DigitChar(n)]
  }

  /** Appending a digit d to the decimal text of q >= 1 gives the text of 10 * q + d. */
  lemma DecimalAppend(q: nat, d: nat)
    requires 1 <= q && d <= 9
    ensures Decimal(10 * q + d) == Decimal(q) + [DigitChar(d)]
  {
    var n := 10 * q + d;
    assert n / 10 == q && n % 10 == d;
  }

  /** The canonical text of a four-digit number is its four digits, place by place. */
  lemma DecimalFourDigits(a: nat, b: nat, c: nat, d: nat)
    requires 1 <= a <= 9 && b <= 9 && c <= 9 && d <= 9
    ensures Decimal(1000 * a + 100 * b + 10 * c + d) == Decimal(a) + [DigitChar(b)] + [DigitChar(c)] + [DigitChar(d)]
    ensures Decimal(a) == [DigitChar(a)]
  {
    var ab := 10 * a + b;
    var abc := 10 * ab + c;
    calc {
      Decimal(1000 * a + 100 * b + 10 * c + d);
      { assert 1000 * a + 100 * b + 10 * c + d == 10 * abc + d; }
      Decimal(10 * abc + d);
      { DecimalAppend(abc, d); }
      Decimal(abc) + [DigitChar(d)];
      { DecimalAppend(ab, c); }
      Decimal(ab) + [DigitChar(c)] + [DigitChar(d)];
      { DecimalAppend(a, b); }
      Decimal(a) + [DigitChar(b)] + [DigitChar(c)] + [DigitChar(d)];
    }
  }

  /** Reading back the canonical decimal form of n gives n. */
  lemma {:induction false} DecimalRoundTrip(n: nat)
    ensures DigitsValue(Decimal(n)) == n
  {
    var s := Decimal(n);
    if n >= 10 {
      DecimalRoundTrip(n / 10);
      assert s[..|s| - 1] == Decimal(n / 10);
    }
  }

  /** The length of the longest prefix of `s` made of digits. */
  function DigitRun(s: string): (n: nat)
    ensures n <= |s|
    ensures AllDigits(s[..n])
    ensures n < |s| ==> !IsDigit(s[n])
  {
    if s != [] && IsDigit(s[0]) then 1 + DigitRun(s[1..]) else 0
  }

  // ---------------------------------------------------------------------------
  // Integer.parseInt
  // ---------------------------------------------------------------------------

  const MinInt: int := -0x8000_0000
  const MaxInt: int := 0x7fff_ffff

  /**
   * Integer.parseInt(s): an optional sign and at least one digit, nothing else
   * (no blanks), and a value within the 32-bit range; None stands for the
   * NumberFormatException.
   */
  function ParseInt(s: string): (r: Option<int>)
    ensures r.Some? ==> MinInt <= r.value <= MaxInt
    ensures r.Some? ==> s != [] && (IsDigit(s[0]) || s[0] == '-' || s[0] == '+')
  {
    if s == [] then None
    else
      var digits := if s[0] == '-' || s[0] == '+' then s[1..] else s;
      if digits == [] || !AllDigits(digits) then None
      else
        var magnitude: int := DigitsValue(digits);
        var v := if s[0] == '-' then -magnitude else magnitude;
        if MinInt <= v <= MaxInt then Some(v) else None
  }

  /** The canonical decimal form of every 32-bit int parses back to it. */
  lemma ParseIntOfDecimal(n: int)
    requires MinInt <= n <= MaxInt
    ensures n >= 0 ==> ParseInt(Decimal(n)) == Some(n)
    ensures n < 0 ==> ParseInt("-" + Decimal(-n)) == Some(n)
  {
    if n >= 0 {
      DecimalRoundTrip(n);
    } else {
      DecimalRoundTrip(-n);
      assert ("-" + Decimal(-n))[1..] == Decimal(-n);
    }
  }

  /**
   * A magnitude beyond the 32-bit range is a NumberFormatException: above
   * 2^31 - 1 without a sign, above 2^31 after a minus sign.
   */
  lemma ParseIntOverflow(n: nat)
    requires n > MaxInt
    ensures ParseInt(Decimal(n)) == None
    ensures n > -MinInt ==> ParseInt("-" + Decimal(n)) == None
  {
    DecimalRoundTrip(n);
    assert ("-" + Decimal(n))[1..] == Decimal(n);
  }

  // ---------------------------------------------------------------------------
  // Float.parseFloat and the comparison `rating < 7.0`
  // ---------------------------------------------------------------------------

  /**
   * What a decimal floating-point literal denotes, exactly, before Java rounds
   * it to the nearest float: NaN, a signed infinity, or the signed value
   * digits * 10^exponent.
   */
  datatype FloatLiteral =
    | NaN
    | Infinity(negative: bool)
    | Finite(negative: bool, digits: nat, exponent: int)

  /** String.trim: drops the characters up to U+0020 at both ends. */
  function Trim(s: string): (r: string)
    ensures |r| <= |s|
    ensures r != [] ==> r[0] > ' ' && r[|r| - 1] > ' '
  {
    TrimEnd(TrimStart(s))
  }

  function TrimStart(s: string): (r: string)
    ensures |r| <= |s| && r == s[|s| - |r|..]
    ensures r != [] ==> r[0] > ' '
  {
    if s != [] && s[0] <= ' ' then TrimStart(s[1..]) else s
  }

  function TrimEnd(s: string): (r: string)
    ensures |r| <= |s| && r == s[..|r|]
    ensures r != [] ==> r[|r| - 1] > ' '
  {
    if s != [] && s[|s| - 1] <= ' ' then TrimEnd(s[..|s| - 1]) else s
  }

  /**
   * The optional exponent part `e`/`E`, sign, digits, and what follows it.
   * None when an exponent marker has no digits.
   */
  function ParseExponent(s: string): (r: Option<(int, string)>)
    ensures r.Some? ==> |r.value.1| <= |s|
  {
    if s != [] && (s[0] == 'e' || s[0] == 'E') then
      var t := s[1..];
      var signed := t != [] && (t[0] == '-' || t[0] == '+');
      var u := if signed then t[1..] else t;
      var n := DigitRun(u);
      if n == 0 then None
      else
        var magnitude: int := DigitsValue(u[..n]);
        Some((if signed && t[0] == '-' then -magnitude else magnitude, u[n..]))
    else Some((0, s))
  }

  /**
   * The unsigned decimal part of a literal: digits, an optional point and
   * digits (at least one digit in all), an optional exponent, and an optional
   * type suffix f, F, d or D; the result is (digits, exponent).
   */
  function ParseUnsignedDecimal(s: string): (r: Option<(nat, int)>)
    ensures r.Some? ==> s != [] && (IsDigit(s[0]) || s[0] == '.')
  {
    var n1 := DigitRun(s);
    var afterInt := s[n1..];
    var hasPoint := afterInt != [] && afterInt[0] == '.';
    var afterPoint := if hasPoint then afterInt[1..] else afterInt;
    var n2 := DigitRun(afterPoint);
    if n1 + n2 == 0 then None
    else
      match ParseExponent(afterPoint[n2..])
      case None => None
      case Some((e, tail)) =>
        if tail == [] || tail in {"f", "F", "d", "D"} then
          Some((DigitsValue(s[..n1] + afterPoint[..n2]), e - n2))
        else None
  }

  /**
   * Float.parseFloat(s) for decimal literals, as the exact value it denotes;
   * None stands for the NumberFormatException.
   */
  function ParseFloat(s: string): (r: Option<FloatLiteral>)
    ensures Trim(s) == [] ==> r == None
  {
    var t := Trim(s);
    if t == [] then None
    else
      var negative := t[0] == '-';
      var body := if t[0] == '-' || t[0] == '+' then t[1..] else t;
      if body == "NaN" then Some(NaN)
      else if body == "Infinity" then Some(Infinity(negative))
      else
        match ParseUnsignedDecimal(body)
        case None => None
        case Some((m, e)) => Some(Finite(negative, m, e))
  }

  /** A digit string followed by a non-digit: the digit run is exactly the digit string. */
  lemma DigitRunStopsAt(digits: string, rest: string)
    requires AllDigits(digits)
    requires rest == [] || !IsDigit(rest[0])
    ensures DigitRun(digits + rest) == |digits|
  {
    var s := digits + rest;
    assert forall i :: 0 <= i < |digits| ==> s[i] == digits[i];
    assert |digits| < |s| ==> s[|digits|] == rest[0];
  }

  /** Text that starts and ends with a printable character is left alone by trim. */
  lemma TrimPrintable(s: string)
    requires s != [] && s[0] > ' ' && s[|s| - 1] > ' '
    ensures Trim(s) == s
  {
  }

  /** The unsigned decimal part of "ddd.fff". */
  lemma FixedPointDigits(whole: string, fraction: string)
    requires whole != [] && AllDigits(whole) && AllDigits(fraction)
    ensures ParseUnsignedDecimal(whole + "." + fraction)
         == Some((DigitsValue(whole + fraction), -|fraction|))
  {
    var s := whole + "." + fraction;
    DigitRunStopsAt(whole, "." + fraction);
    assert s == whole + ("." + fraction);
    assert s[|whole|..] == "." + fraction;
    assert ("." + fraction)[1..] == fraction;
    DigitRunStopsAt(fraction, []);
    assert fraction + [] == fraction;
    assert fraction[|fraction|..] == [];
    assert s[..|whole|] == whole;
  }

  /** "ddd.fff" starts with a digit and ends with a digit or the point. */
  lemma FixedPointEnds(whole: string, fraction: string)
    requires whole != [] && AllDigits(whole) && AllDigits(fraction)
    ensures var s := whole + "." + fraction;
            IsDigit(s[0]) && s[|s| - 1] > ' '
  {
    var s := whole + "." + fraction;
    assert s[0] == whole[0];
    if fraction == [] {
      assert s[|s| - 1] == '.';
    } else {
      assert s[|s| - 1] == fraction[|fraction| - 1];
    }
  }

  /** Two digit strings together are a digit string. */
  lemma AllDigitsConcat(a: string, b: string)
    requires AllDigits(a) && AllDigits(b)
    ensures AllDigits(a + b)
  {
    assert forall i :: |a| <= i < |a + b| ==> (a + b)[i] == b[i - |a|];
  }

  /** Text that starts with a digit and ends printable is read as an unsigned decimal. */
  lemma UnsignedLiteral(s: string, m: nat, e: int)
    requires s != [] && IsDigit(s[0]) && s[|s| - 1] > ' '
    requires ParseUnsignedDecimal(s) == Some((m, e))
    ensures ParseFloat(s) == Some(Finite(false, m, e))
  {
    TrimPrintable(s);
    assert s != "NaN" && s != "Infinity";
  }

  /** A plain fixed-point literal "ddd.fff" denotes its digits scaled down by its fraction length. */
  lemma FixedPointLiteral(whole: string, fraction: string)
    requires whole != [] && AllDigits(whole) && AllDigits(fraction)
    ensures ParseFloat(whole + "." + fraction)
         == Some(Finite(false, DigitsValue(whole + fraction), -|fraction|))
  {
    var s := whole + "." + fraction;
    AllDigitsConcat(whole, fraction);
    FixedPointEnds(whole, fraction);
    FixedPointDigits(whole, fraction);
    UnsignedLiteral(s, DigitsValue(whole + fraction), -|fraction|);
  }

  /** Whether digits * 10^exponent >= num / den, in integers. */
  predicate AtLeast(digits: nat, exponent: int, num: nat, den: nat)
  {
    if exponent >= 0 then digits * Pow10(exponent) * den >= num
    else digits * den >= num * Pow10(-exponent)
  }

  /**
   * `Float.parseFloat(s) < 7.0` in terms of the literal. The float nearest to a
   * non-negative value is below 7.0 exactly when the value is below the midpoint
   * 7 - 2^-22 = 29360127 / 4194304 between 7.0 and the float under it (a tie
   * goes to 7.0, whose significand is even). NaN compares false, so it passes.
   */
  predicate LessThanSeven(f: FloatLiteral): (r: bool)
    ensures f == NaN ==> !r
    ensures f.Finite? && f.negative ==> r
    ensures f.Infinity? ==> (r <==> f.negative)
  {
    match f
    case NaN => false
    case Infinity(negative) => negative
    case Finite(negative, m, e) => negative || !AtLeast(m, e, 29360127, 4194304)
  }

  /** Every rating of at least 7 passes the threshold. */
  lemma AtLeastSevenPasses(m: nat, e: int)
    requires AtLeast(m, e, 7, 1)
    ensures !LessThanSeven(Finite(false, m, e))
  {
  }

  /** Every rating below 6.9999997 is under the threshold. */
  lemma BelowSevenFails(m: nat, e: int)
    requires !AtLeast(m, e, 69999997, 10000000)
    ensures LessThanSeven(Finite(false, m, e))
  {
  }
}
