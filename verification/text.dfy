/**
 * The JavaScript string built-ins the registration form relies on:
 * `toLowerCase`/`toUpperCase` (on ASCII letters), `includes`, `trim`,
 * `parseInt(s, 10)` and the decimal rendering of an integer in a template
 * literal.
 */
module Text {
  import opened Wrappers

  predicate IsDigit(c: char) { '0' <= c <= '9' }

  predicate IsLowerAscii(c: char) { 'a' <= c <= 'z' }

  predicate IsUpperAscii(c: char) { 'A' <= c <= 'Z' }

  /** The characters `trim` and `parseInt` skip (the ASCII ones plus NBSP and BOM). */
  predicate IsSpace(c: char) {
    c == ' ' || c == '\t' || c == '\n' || c == '\r' || c == '\U{B}' || c == '\U{C}'
    || c == '\U{A0}' || c == '\U{FEFF}'
  }

  function LowerChar(c: char): char {
    if IsUpperAscii(c) then (c as int + 32) as char else c
  }

  function UpperChar(c: char): (u: char)
    ensures !IsLowerAscii(u)
  {
    if IsLowerAscii(c) then (c as int - 32) as char else c
  }

  /** `s.toLowerCase()`: each upper-case ASCII letter becomes its lower-case partner; nothing else moves. */
  function ToLower(s: string): (r: string)
    ensures |r| == |s|
    ensures forall i :: 0 <= i < |s| && IsUpperAscii(s[i]) ==> IsLowerAscii(r[i]) && r[i] as int == s[i] as int + 32
    ensures forall i :: 0 <= i < |s| && !IsUpperAscii(s[i]) ==> r[i] == s[i]
  {
    seq(|s|, i requires 0 <= i < |s| => LowerChar(s[i]))
  }

  /** `s.toUpperCase()`: each lower-case ASCII letter becomes its upper-case partner; nothing else moves. */
  function ToUpper(s: string): (r: string)
    ensures |r| == |s|
    ensures forall i :: 0 <= i < |s| && IsLowerAscii(s[i]) ==> IsUpperAscii(r[i]) && r[i] as int == s[i] as int - 32
    ensures forall i :: 0 <= i < |s| && !IsLowerAscii(s[i]) ==> r[i] == s[i]
    ensures forall i :: 0 <= i < |r| ==> !IsLowerAscii(r[i])
  {
    seq(|s|, i requires 0 <= i < |s| => UpperChar(s[i]))
  }

  lemma ToUpperIdempotent(s: string)
    ensures ToUpper(ToUpper(s)) == ToUpper(s)
  {
  }

  /** `key` occurs in `s` starting at position `i`. */
  ghost predicate OccursAt(s: string, key: string, i: int) {
    0 <= i && i + |key| <= |s| && s[i..i + |key|] == key
  }

  /** `s.includes(key)`, as a left-to-right scan. */
  function Contains(s: string, key: string): (r: bool)
    ensures r <==> exists i :: OccursAt(s, key, i)
    decreases |s|
  {
    if |key| <= |s| && s[..|key|] == key then
      assert OccursAt(s, key, 0);
      true
    else if |s| == 0 then
      assert forall i :: !OccursAt(s, key, i);
      false
    else
      var r := Contains(s[1..], key);
      assert forall i :: OccursAt(s, key, i + 1) <==> OccursAt(s[1..], key, i) by {
        forall i ensures OccursAt(s, key, i + 1) <==> OccursAt(s[1..], key, i) {
          if 0 <= i && i + 1 + |key| <= |s| {
            assert s[i + 1..i + 1 + |key|] == s[1..][i..i + |key|];
          }
        }
      }
      assert !OccursAt(s, key, 0);
      assert r ==> exists i :: OccursAt(s, key, i) by {
        if r {
          var i :| OccursAt(s[1..], key, i);
          assert OccursAt(s, key, i + 1);
        }
      }
      assert (exists i :: OccursAt(s, key, i)) ==> r by {
        if exists i :: OccursAt(s, key, i) {
          var i :| OccursAt(s, key, i);
          assert i != 0;
          assert OccursAt(s[1..], key, i - 1);
        }
      }
      r
  }

  function TrimStart(s: string): (r: string)
    ensures |r| <= |s| && r == s[|s| - |r|..]
    ensures forall k :: 0 <= k < |s| - |r| ==> IsSpace(s[k])
    ensures r == [] || !IsSpace(r[0])
  {
    if s != [] && IsSpace(s[0]) then TrimStart(s[1..]) else s
  }

  function TrimEnd(s: string): (r: string)
    ensures |r| <= |s| && r == s[..|r|]
    ensures forall k :: |r| <= k < |s| ==> IsSpace(s[k])
    ensures r == [] || !IsSpace(r[|r| - 1])
  {
    if s != [] && IsSpace(s[|s| - 1]) then TrimEnd(s[..|s| - 1]) else s
  }

  /** `r` is `s[a..b]`, and everything outside `a..b` is white space. */
  ghost predicate SpaceAround(s: string, r: string, a: int, b: int) {
    0 <= a <= b <= |s| && r == s[a..b] && forall k :: (0 <= k < a || b <= k < |s|) ==> IsSpace(s[k])
  }

  /**
   * `s.trim()`: the slice of `s` left after removing white space from both
   * ends; it neither starts nor ends with white space.
   */
  function Trim(s: string): (r: string)
    ensures exists a, b :: SpaceAround(s, r, a, b)
    ensures r == [] || (!IsSpace(r[0]) && !IsSpace(r[|r| - 1]))
  {
    var t := TrimStart(s);
    TrimEndSpaceAround(s, t);
    TrimEnd(t)
  }

  /** Trimming the end of the suffix `t` of `s` leaves a slice of `s` with white space around it. */
  lemma TrimEndSpaceAround(s: string, t: string)
    requires |t| <= |s| && t == s[|s| - |t|..]
    requires forall k :: 0 <= k < |s| - |t| ==> IsSpace(s[k])
    ensures SpaceAround(s, TrimEnd(t), |s| - |t|, |s| - |t| + |TrimEnd(t)|)
  {
    var a := |s| - |t|;
    var r := TrimEnd(t);
    assert r == s[a..a + |r|];
    forall k | a + |r| <= k < |s| ensures IsSpace(s[k]) {
      assert s[k] == t[k - a];
    }
  }

  function DigitValue(c: char): (d: nat)
    requires IsDigit(c)
    ensures d < 10
  {
    c as int - '0' as int
  }

  function DigitChar(d: nat): (c: char)
    requires d < 10
    ensures IsDigit(c) && DigitValue(c) == d
  {
    ('0' as int + d) as char
  }

  predicate AllDigits(s: string) {
    forall i :: 0 <= i < |s| ==> IsDigit(s[i])
  }

  /** The longest prefix of `s` made of decimal digits. */
  function DigitPrefix(s: string): (r: string)
    ensures AllDigits(r) && |r| <= |s| && r == s[..|r|]
    ensures |r| < |s| ==> !IsDigit(s[|r|])
  {
    if s != [] && IsDigit(s[0]) then [s[0]] + DigitPrefix(s[1..]) else []
  }

  /** The value of a decimal numeral, most significant digit first. */
  function DecimalValue(s: string): nat
    requires AllDigits(s)
  {
    if s == [] then 0 else DecimalValue(s[..|s| - 1]) * 10 + DigitValue(s[|s| - 1])
  }

  /** The shortest decimal numeral of `n`. */
  function NatToDecimal(n: nat): (r: string)
    ensures r != [] && AllDigits(r)
  {
    if n < 10 then [DigitChar(n)] else NatToDecimal(n / 10) + [DigitChar(n % 10)]
  }

  /** The text of integer `n` in a template literal, `${n}` (a '-' before negatives). */
  function IntToString(n: int): (r: string)
    ensures r != []
  {
    if n < 0 then "-" + NatToDecimal(-n) else NatToDecimal(n)
  }

  /**
   * `parseInt(s, 10)`: skip leading white space, take an optional sign and the
   * longest run of digits after it. `None` stands for `NaN` (no digits).
   */
  function ParseInt(s: string): (r: Option<int>)
    ensures r.Some? <==> DigitPrefix(SignStripped(TrimStart(s))) != []
  {
    ParseSigned(TrimStart(s))
  }

  /** `parseInt` after the leading white space: an optional sign and the digits after it. */
  function ParseSigned(t: string): Option<int> {
    var digits := DigitPrefix(SignStripped(t));
    if digits == [] then None
    else
      var v: int := DecimalValue(digits);
      if t[0] == '-' then Some(-v) else Some(v)
  }

  function SignStripped(t: string): string {
    if t != [] && (t[0] == '-' || t[0] == '+') then t[1..] else t
  }

  lemma {:induction false} DecimalValueOfNatToDecimal(n: nat)
    ensures DecimalValue(NatToDecimal(n)) == n
  {
    if n >= 10 {
      var r := NatToDecimal(n);
      DecimalValueOfNatToDecimal(n / 10);
      assert r[..|r| - 1] == NatToDecimal(n / 10);
    }
  }

  lemma DigitPrefixOfDigits(s: string)
    requires AllDigits(s)
    ensures DigitPrefix(s) == s
  {
  }

  lemma TrimStartUnchanged(s: string)
    requires s != [] && !IsSpace(s[0])
    ensures TrimStart(s) == s
  {
  }

  /** The numeral of `m` parses to `m`. */
  lemma ParseIntOfNatToDecimal(m: nat)
    ensures ParseInt(NatToDecimal(m)) == Some(m)
  {
    var digits := NatToDecimal(m);
    DigitPrefixOfDigits(digits);
    DecimalValueOfNatToDecimal(m);
    assert IsDigit(digits[0]);
    TrimStartUnchanged(digits);
    assert SignStripped(digits) == digits;
  }

  /** '-' followed by the numeral of `m` parses to `-m`. */
  lemma ParseIntOfNegative(m: nat)
    ensures ParseInt("-" + NatToDecimal(m)) == Some(-(m as int))
  {
    var digits := NatToDecimal(m);
    var s := "-" + digits;
    DigitPrefixOfDigits(digits);
    DecimalValueOfNatToDecimal(m);
    assert s[0] == '-' && s[1..] == digits;
    TrimStartUnchanged(s);
    assert SignStripped(s) == digits;
  }

  /** Leading white space before a non-space character is skipped entirely. */
  lemma {:induction false} TrimStartPadded(w: string, u: string)
    requires forall k :: 0 <= k < |w| ==> IsSpace(w[k])
    requires u != [] && !IsSpace(u[0])
    ensures TrimStart(w + u) == u
  {
    if w == [] {
      assert w + u == u;
      TrimStartUnchanged(u);
    } else {
      assert (w + u)[0] == w[0];
      assert (w + u)[1..] == w[1..] + u;
      TrimStartPadded(w[1..], u);
    }
  }

  /** The digit run of a numeral followed by a non-digit (or nothing) is the numeral. */
  lemma {:induction false} DigitPrefixOfDigitsThen(d: string, t: string)
    requires AllDigits(d)
    requires t == [] || !IsDigit(t[0])
    ensures DigitPrefix(d + t) == d
  {
    if d == [] {
      assert d + t == t;
    } else {
      assert (d + t)[0] == d[0];
      assert (d + t)[1..] == d[1..] + t;
      DigitPrefixOfDigitsThen(d[1..], t);
    }
  }

  /**
   * The grammar `parseInt(_, 10)` accepts: white space, an optional sign, a
   * non-empty run of digits and any tail that does not start with a digit
   * parses to the signed value of the digits; the tail is ignored.
   */
  lemma ParseIntOfPadded(w: string, sign: string, d: string, t: string)
    requires forall k :: 0 <= k < |w| ==> IsSpace(w[k])
    requires sign == "" || sign == "+" || sign == "-"
    requires d != [] && AllDigits(d)
    requires t == [] || !IsDigit(t[0])
    ensures ParseInt(w + (sign + (d + t))) == Some(if sign == "-" then -(DecimalValue(d) as int) else DecimalValue(d))
  {
    var u := sign + (d + t);
    assert u[0] == if sign == "" then d[0] else sign[0];
    ParseIntSkipsSpace(w, u);
    ParseSignedOfDigits(sign, d, t);
  }

  /** Leading white space does not change what `parseInt` reads. */
  lemma ParseIntSkipsSpace(w: string, u: string)
    requires forall k :: 0 <= k < |w| ==> IsSpace(w[k])
    requires u != [] && !IsSpace(u[0])
    ensures ParseInt(w + u) == ParseSigned(u)
  {
    TrimStartPadded(w, u);
  }

  /** An optional sign, digits and a tail not starting with a digit read as the signed digits. */
  lemma ParseSignedOfDigits(sign: string, d: string, t: string)
    requires sign == "" || sign == "+" || sign == "-"
    requires d != [] && AllDigits(d)
    requires t == [] || !IsDigit(t[0])
    ensures ParseSigned(sign + (d + t)) == Some(if sign == "-" then -(DecimalValue(d) as int) else DecimalValue(d))
  {
    var u := sign + (d + t);
    assert u[0] == '-' <==> sign == "-" by {
      if sign == "" {
        assert u[0] == d[0];
      }
    }
    SignStrippedOfSigned(sign, d + t);
    DigitPrefixOfDigitsThen(d, t);
    ParseSignedOfPrefix(u, d);
  }

  /** Stripping the sign leaves what followed it. */
  lemma SignStrippedOfSigned(sign: string, rest: string)
    requires sign == "" || sign == "+" || sign == "-"
    requires rest != [] && rest[0] != '-' && rest[0] != '+'
    ensures SignStripped(sign + rest) == rest
  {
    if sign != "" {
      assert (sign + rest)[1..] == rest;
    }
  }

  /** `parseInt` past the white space yields the signed value of the digits after the sign. */
  lemma ParseSignedOfPrefix(u: string, d: string)
    requires u != [] && d != [] && DigitPrefix(SignStripped(u)) == d
    ensures ParseSigned(u) == Some(if u[0] == '-' then -(DecimalValue(d) as int) else DecimalValue(d))
  {
  }

  /** Rendering an integer and parsing it back with `parseInt(_, 10)` gives the integer. */
  lemma ParseIntOfIntToString(n: int)
    ensures ParseInt(IntToString(n)) == Some(n)
  {
    if n < 0 {
      assert IntToString(n) == "-" + NatToDecimal(-n);
      ParseIntOfNegative(-n);
    } else {
      assert IntToString(n) == NatToDecimal(n);
      ParseIntOfNatToDecimal(n);
    }
  }
}
