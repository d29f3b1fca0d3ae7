/**
 * The string helpers of Go's standard library that the handlers and the
 * repository rely on: decimal formatting and parsing (`strconv`), case
 * mapping, trimming, suffix and substring tests (`strings`), and the
 * lexicographic code-point order the model uses to sort text columns.
 */
module Text {
  import opened Outcomes

  /** The largest value plus one of Go's `uint64` and of `int64`. */
  const Two64: nat := 0x1_0000_0000_0000_0000
  const Two63: nat := 0x8000_0000_0000_0000

  // ---------------------------------------------------------------- decimal

  predicate IsDigit(c: char) { '0' <= c <= '9' }

  predicate AllDigits(s: string) { forall i :: 0 <= i < |s| ==> IsDigit(s[i]) }

  function DigitValue(c: char): nat
    requires IsDigit(c)
  {
    (c - '0') as nat
  }

  function DigitChar(d: nat): (c: char)
    requires d < 10
    ensures IsDigit(c) && DigitValue(c) == d
  {
    ('0' as int + d) as char
  }

  /** The number a string of decimal digits denotes (leading zeros allowed). */
  function DecimalValue(s: string): nat
    requires AllDigits(s)
  {
    if s == [] then 0 else DecimalValue(s[..|s| - 1]) * 10 + DigitValue(s[|s| - 1])
  }

  /** `strconv.FormatUint(n, 10)` and `fmt.Sprintf("%d", n)` for a non-negative n. */
  function NatToString(n: nat): (s: string)
    ensures |s| > 0 && AllDigits(s)
  {
    if n < 10 then [DigitChar(n)] else NatToString(n / 10) + [DigitChar(n % 10)]
  }

  /** The decimal text of n denotes n: formatting loses nothing. */
  lemma {:induction false} NatToStringValue(n: nat)
    ensures DecimalValue(NatToString(n)) == n
  {
    var s := NatToString(n);
    if n >= 10 {
      NatToStringValue(n / 10);
      assert s[..|s| - 1] == NatToString(n / 10);
    }
  }

  /**
   * `strconv.ParseUint(s, 10, 64)`: one or more decimal digits, no sign, no
   * underscores, and a value that fits in 64 bits.
   */
  function ParseUint(s: string): (r: Option<nat>)
    ensures r.Some? ==> r.value < Two64 && |s| > 0 && AllDigits(s)
  {
    if |s| > 0 && AllDigits(s) && DecimalValue(s) < Two64 then Some(DecimalValue(s)) else None
  }

  /** `strconv.Atoi(s)`: an optional sign, one or more digits, and a value that fits in an `int`. */
  function Atoi(s: string): (r: Option<int>)
    ensures r.Some? ==> -(Two63 as int) <= r.value < Two63
  {
    var neg := |s| > 0 && s[0] == '-';
    var body := if |s| > 0 && (s[0] == '-' || s[0] == '+') then s[1..] else s;
    if |body| == 0 || !AllDigits(body) then None
    else
      var v := if neg then -(DecimalValue(body) as int) else DecimalValue(body) as int;
      if -(Two63 as int) <= v < Two63 then Some(v) else None
  }

  /** Parsing the decimal text of any 64-bit value gives that value back. */
  lemma ParseUintFormat(n: nat)
    requires n < Two64
    ensures ParseUint(NatToString(n)) == Some(n)
  {
    NatToStringValue(n);
  }

  /** Atoi reads back the decimal text of any non-negative `int`. */
  lemma AtoiFormat(n: nat)
    requires n < Two63
    ensures Atoi(NatToString(n)) == Some(n)
  {
    NatToStringValue(n);
  }

  /** A string parsed by ParseUint is exactly the decimal text of its value, up to leading zeros. */
  lemma {:induction false} DecimalValueLeadingZeros(s: string)
    requires |s| > 0 && AllDigits(s) && s[0] != '0'
    ensures NatToString(DecimalValue(s)) == s
  {
    if |s| == 1 {
    } else {
      var p := s[..|s| - 1];
      DecimalValueLeadingZeros(p);
      DecimalPositive(p);
      var n := DecimalValue(s);
      assert n / 10 == DecimalValue(p) && n % 10 == DigitValue(s[|s| - 1]);
      assert DigitChar(n % 10) == s[|s| - 1];
    }
  }

  lemma {:induction false} DecimalPositive(s: string)
    requires |s| > 0 && AllDigits(s) && s[0] != '0'
    ensures DecimalValue(s) > 0
  {
    if |s| > 1 {
      DecimalPositive(s[..|s| - 1]);
    }
  }

  // ---------------------------------------------------------- case, spaces

  /** `strings.ToLower` restricted to ASCII letters. */
  function ToLower(s: string): (r: string)
    ensures |r| == |s|
    ensures forall i :: 0 <= i < |s| ==> r[i] == LowerChar(s[i])
  {
    if s == [] then [] else [LowerChar(s[0])] + ToLower(s[1..])
  }

  /** `strings.ToUpper` restricted to ASCII letters. */
  function ToUpper(s: string): (r: string)
    ensures |r| == |s|
    ensures forall i :: 0 <= i < |s| ==> r[i] == UpperChar(s[i])
  {
    if s == [] then [] else [UpperChar(s[0])] + ToUpper(s[1..])
  }

  function LowerChar(c: char): char { if 'A' <= c <= 'Z' then (c as int + 32) as char else c }

  function UpperChar(c: char): char { if 'a' <= c <= 'z' then (c as int - 32) as char else c }

  /** Lower-casing an upper-cased string is the same as lower-casing the original. */
  lemma LowerOfUpper(s: string)
    ensures ToLower(ToUpper(s)) == ToLower(s)
  {
    assert forall i :: 0 <= i < |s| ==> LowerChar(UpperChar(s[i])) == LowerChar(s[i]);
  }

  /** Go's `unicode.IsSpace`: the ASCII white space, NEL, NBSP and the Unicode space separators. */
  predicate IsSpace(c: char)
  {
    c == '\t' || c == '\n' || c == '\U{000B}' || c == '\U{000C}' || c == '\r' || c == ' ' ||
    c == '\U{0085}' || c == '\U{00A0}' || c == '\U{1680}' || ('\U{2000}' <= c <= '\U{200A}') ||
    c == '\U{2028}' || c == '\U{2029}' || c == '\U{202F}' || c == '\U{205F}' || c == '\U{3000}'
  }

  predicate IsBlank(s: string) { forall i :: 0 <= i < |s| ==> IsSpace(s[i]) }

  function TrimLeft(s: string): (r: string)
    ensures |r| <= |s| && r == s[|s| - |r|..]
    ensures r == [] || !IsSpace(r[0])
    ensures IsBlank(s[..|s| - |r|])
  {
    if s != [] && IsSpace(s[0]) then TrimLeft(s[1..]) else s
  }

  function TrimRight(s: string): (r: string)
    ensures |r| <= |s| && r == s[..|r|]
    ensures r == [] || !IsSpace(r[|r| - 1])
    ensures IsBlank(s[|r|..])
  {
    if s != [] && IsSpace(s[|s| - 1]) then TrimRight(s[..|s| - 1]) else s
  }

  /** `strings.TrimSpace`: drop leading and trailing white space. */
  function TrimSpace(s: string): (r: string)
  {
    TrimRight(TrimLeft(s))
  }

  /** Trimming leaves nothing exactly when the string is all white space. */
  lemma TrimSpaceEmpty(s: string)
    ensures TrimSpace(s) == [] <==> IsBlank(s)
  {
    var l := TrimLeft(s);
    if IsBlank(s) {
      BlankTrimsLeft(s);
    }
    if TrimSpace(s) == [] {
      assert s == s[..|s| - |l|] + l;
      BlankConcat(s[..|s| - |l|], l);
    }
  }

  lemma {:induction false} BlankTrimsLeft(s: string)
    requires IsBlank(s)
    ensures TrimLeft(s) == []
  {
    if s != [] {
      BlankTrimsLeft(s[1..]);
    }
  }

  lemma BlankConcat(a: string, b: string)
    requires IsBlank(a) && IsBlank(b)
    ensures IsBlank(a + b)
  {
  }

  // ------------------------------------------------------ suffix, substring

  /** `strings.HasSuffix`. */
  predicate HasSuffix(s: string, suffix: string)
  {
    |suffix| <= |s| && s[|s| - |suffix|..] == suffix
  }

  /** `strings.Contains`, the meaning given here to SQL `LIKE '%x%'`. */
  predicate Contains(s: string, part: string)
  {
    HasPrefix(s, part) || (s != [] && Contains(s[1..], part))
  }

  /** `strings.HasPrefix`. */
  predicate HasPrefix(s: string, prefix: string)
  {
    |prefix| <= |s| && s[..|prefix|] == prefix
  }

  // ----------------------------------------------------------------- order

  /**
   * Lexicographic order on text by code point. The database sorts text by its
   * collation, which this order stands in for.
   */
  predicate TextLessEq(a: string, b: string)
  {
    a == [] || (b != [] && (a[0] < b[0] || (a[0] == b[0] && TextLessEq(a[1..], b[1..]))))
  }

  /** Any two texts are comparable. */
  lemma {:induction false} TextLessEqTotal(a: string, b: string)
    ensures TextLessEq(a, b) || TextLessEq(b, a)
  {
    if a != [] && b != [] && a[0] == b[0] {
      TextLessEqTotal(a[1..], b[1..]);
    }
  }
}
