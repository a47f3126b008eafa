/** The string-to-number conversions the handlers apply to the `bookId` path
    parameter: `parseInt(s, 10)` (ECMA-262, section 19.2.5) and `Number(s)`
    (ECMA-262, section 7.1.4.1.1, StringToNumber), restricted to integers, and
    the decimal rendering of an integer in a template literal. */
module JsNumbers {
  import opened Wrappers

  /** StrWhiteSpaceChar: the white space and line terminators both
      conversions skip (tab, VT, FF, space, NBSP, ZWNBSP, the other Zs
      characters, LF, CR, LS, PS). */
  predicate IsWhitespace(c: char) {
    c == '\t' || c == '\n' || c == '\U{000B}' || c == '\U{000C}' || c == '\r' ||
    c == ' ' || c == '\U{00A0}' || c == '\U{1680}' || ('\U{2000}' <= c <= '\U{200A}') ||
    c == '\U{2028}' || c == '\U{2029}' || c == '\U{202F}' || c == '\U{205F}' ||
    c == '\U{3000}' || c == '\U{FEFF}'
  }

  predicate IsDigit(c: char) {
    '0' <= c <= '9'
  }

  predicate AllDigits(s: string) {
    forall i :: 0 <= i < |s| ==> IsDigit(s[i])
  }

  function DigitValue(c: char): (d: nat)
    requires IsDigit(c)
    ensures d < 10
  {
    (c - '0') as nat
  }

  function DigitChar(d: nat): (c: char)
    requires d < 10
    ensures IsDigit(c) && DigitValue(c) == d
  {
    ('0' as int + d) as char
  }

  /** `s` with its leading white space removed. */
  function TrimStart(s: string): (t: string)
    ensures |t| <= |s|
    ensures t == [] || !IsWhitespace(t[0])
    ensures forall i :: 0 <= i < |s| - |t| ==> IsWhitespace(s[i])
  {
    if |s| > 0 && IsWhitespace(s[0]) then TrimStart(s[1..]) else s
  }

  /** `s` with its trailing white space removed. */
  function TrimEnd(s: string): (t: string)
    ensures |t| <= |s|
    ensures t == [] || !IsWhitespace(t[|t| - 1])
    ensures forall i :: |t| <= i < |s| ==> IsWhitespace(s[i])
  {
    if |s| > 0 && IsWhitespace(s[|s| - 1]) then TrimEnd(s[..|s| - 1]) else s
  }

  /** Trimming at the front leaves a suffix of the input. */
  lemma {:induction false} TrimStartIsSuffix(s: string)
    ensures TrimStart(s) == s[|s| - |TrimStart(s)|..]
  {
    if |s| > 0 && IsWhitespace(s[0]) {
      TrimStartIsSuffix(s[1..]);
    }
  }

  /** Trimming at the end leaves a prefix of the input. */
  lemma {:induction false} TrimEndIsPrefix(s: string)
    ensures TrimEnd(s) == s[..|TrimEnd(s)|]
  {
    if |s| > 0 && IsWhitespace(s[|s| - 1]) {
      TrimEndIsPrefix(s[..|s| - 1]);
    }
  }

  /** The length of the longest run of decimal digits at the front of `s`. */
  function LeadingDigits(s: string): (k: nat)
    ensures k <= |s|
    ensures AllDigits(s[..k])
    ensures k < |s| ==> !IsDigit(s[k])
  {
    if |s| > 0 && IsDigit(s[0]) then 1 + LeadingDigits(s[1..]) else 0
  }

  /** The value of a run of decimal digits, most significant first. */
  function DecimalValue(ds: string): nat
    requires AllDigits(ds)
  {
    if ds == [] then 0 else DecimalValue(ds[..|ds| - 1]) * 10 + DigitValue(ds[|ds| - 1])
  }

  /** A number-valued conversion result: `NaN`, or a finite integer. */
  datatype ParsedNumber = NaN | Finite(value: int)

  /** `s` without one leading sign character, and whether that sign was `-`. */
  function Unsigned(t: string): (string, bool) {
    if |t| > 0 && (t[0] == '-' || t[0] == '+') then (t[1..], t[0] == '-') else (t, false)
  }

  /** `parseInt(s, 10)`: skip leading white space, take an optional sign,
      then the longest run of decimal digits; no digits gives `NaN`, and
      whatever follows the run is ignored. */
  function ParseInt(s: string): (r: ParsedNumber)
    ensures r.NaN? <==> LeadingDigits(Unsigned(TrimStart(s)).0) == 0
  {
    var (u, negative) := Unsigned(TrimStart(s));
    var k := LeadingDigits(u);
    if k == 0 then NaN
    else
      var v: int := DecimalValue(u[..k]);
      Finite(if negative then -v else v)
  }

  /** `Number(s)` for the forms this model keeps: white space around an
      optionally signed run of decimal digits, or white space alone (which
      is 0). `None` stands for every other string: `NaN` and the decimal
      fraction, exponent, hexadecimal, binary, octal and Infinity forms. */
  function NumberOf(s: string): (r: Option<int>)
    ensures TrimEnd(TrimStart(s)) == [] ==> r == Some(0)
    ensures r.None? <==>
              && TrimEnd(TrimStart(s)) != []
              && !(Unsigned(TrimEnd(TrimStart(s))).0 != [] && AllDigits(Unsigned(TrimEnd(TrimStart(s))).0))
  {
    var t := TrimEnd(TrimStart(s));
    if t == [] then Some(0)
    else
      var (u, negative) := Unsigned(t);
      if u != [] && AllDigits(u) then
        var v: int := DecimalValue(u);
        Some(if negative then -v else v)
      else None
  }

  /** The decimal rendering of a natural number, without leading zeros. */
  function ShowNat(n: nat): string {
    if n < 10 then [DigitChar(n)] else ShowNat(n / 10) + [DigitChar(n % 10)]
  }

  /** `${n}` for an integer `n`. */
  function ShowInt(n: int): string {
    if n < 0 then "-" + ShowNat(-n) else ShowNat(n)
  }

  /** `ShowNat` writes digits only, and reading them back gives `n`. */
  lemma {:induction false} ShowNatDigits(n: nat)
    ensures |ShowNat(n)| > 0 && AllDigits(ShowNat(n))
    ensures DecimalValue(ShowNat(n)) == n
    ensures ShowNat(n)[0] == '0' ==> n == 0
  {
    if n >= 10 {
      ShowNatDigits(n / 10);
      var s := ShowNat(n);
      assert s[..|s| - 1] == ShowNat(n / 10);
      assert s[0] == ShowNat(n / 10)[0];
    }
  }

  /** A digit run followed by a non-digit is exactly the leading run. */
  lemma {:induction false} LeadingDigitsOfRun(ds: string, rest: string)
    requires AllDigits(ds)
    requires rest == [] || !IsDigit(rest[0])
    ensures LeadingDigits(ds + rest) == |ds|
  {
    if ds != [] {
      assert (ds + rest)[1..] == ds[1..] + rest;
      LeadingDigitsOfRun(ds[1..], rest);
    }
  }

  /** Leading white space does not change what `parseInt` reads. */
  lemma {:induction false} TrimStartSkipsWhitespace(w: string, s: string)
    requires forall i :: 0 <= i < |w| ==> IsWhitespace(w[i])
    ensures TrimStart(w + s) == TrimStart(s)
  {
    if w == [] {
      assert w + s == s;
    } else {
      assert (w + s)[0] == w[0] && IsWhitespace(w[0]);
      assert (w + s)[1..] == w[1..] + s;
      assert TrimStart(w + s) == TrimStart((w + s)[1..]);
      TrimStartSkipsWhitespace(w[1..], s);
    }
  }

  /** Trailing white space does not change what `Number` reads. */
  lemma {:induction false} TrimEndSkipsWhitespace(s: string, w: string)
    requires forall i :: 0 <= i < |w| ==> IsWhitespace(w[i])
    ensures TrimEnd(s + w) == TrimEnd(s)
    decreases |w|
  {
    if w == [] {
      assert s + w == s;
    } else {
      var sw := s + w;
      assert sw[|sw| - 1] == w[|w| - 1];
      assert sw[..|sw| - 1] == s + w[..|w| - 1];
      TrimEndSkipsWhitespace(s, w[..|w| - 1]);
    }
  }

  /** Once a string starts with something other than white space, text
      appended to it survives front trimming untouched. */
  lemma {:induction false} TrimStartAppend(s: string, w: string)
    requires TrimStart(s) != []
    ensures TrimStart(s + w) == TrimStart(s) + w
  {
    var sw := s + w;
    assert sw[0] == s[0];
    if IsWhitespace(s[0]) {
      assert sw[1..] == s[1..] + w;
      TrimStartAppend(s[1..], w);
    }
  }

  /** A digit is neither white space nor a sign. */
  lemma DigitIsPlain(c: char)
    requires IsDigit(c)
    ensures !IsWhitespace(c) && c != '-' && c != '+'
  {
  }

  /** `(negative ? "-" : "") + u`: how a signed rendering is assembled. */
  function Signed(negative: bool, u: string): (s: string)
    ensures |s| == |u| + (if negative then 1 else 0)
  {
    if negative then "-" + u else u
  }

  lemma SignedAppend(negative: bool, u: string, rest: string)
    ensures Signed(negative, u) + rest == Signed(negative, u + rest)
  {
    if negative {
      assert ("-" + u) + rest == "-" + (u + rest);
    }
  }

  /** A signed string whose unsigned part starts with a digit has no
      leading white space, and its sign is read off as written. */
  lemma SignedShape(negative: bool, u: string)
    requires u != [] && IsDigit(u[0])
    ensures TrimStart(Signed(negative, u)) == Signed(negative, u)
    ensures Unsigned(Signed(negative, u)) == (u, negative)
  {
    var s := Signed(negative, u);
    DigitIsPlain(u[0]);
    assert s[0] == (if negative then '-' else u[0]);
    if negative {
      assert s[1..] == u;
    }
  }

  /** A signed string whose last character is a digit has no trailing
      white space. */
  lemma SignedEnd(negative: bool, u: string)
    requires u != [] && IsDigit(u[|u| - 1])
    ensures TrimEnd(Signed(negative, u)) == Signed(negative, u)
  {
    var s := Signed(negative, u);
    DigitIsPlain(u[|u| - 1]);
    assert s[|s| - 1] == u[|u| - 1];
  }

  /** A non-empty digit run followed by a non-digit parses to the run's value. */
  lemma ParseUnsignedRun(ds: string, rest: string, negative: bool)
    requires ds != [] && AllDigits(ds)
    requires rest == [] || !IsDigit(rest[0])
    ensures var v: int := DecimalValue(ds);
      ParseInt(Signed(negative, ds + rest)) == Finite(if negative then -v else v)
  {
    var u := ds + rest;
    assert u[0] == ds[0];
    SignedShape(negative, u);
    LeadingDigitsOfRun(ds, rest);
    assert u[..|ds|] == ds;
  }

  /** An explicit `+` sign is accepted and read as positive. */
  lemma ParsePlusRun(ds: string, rest: string)
    requires ds != [] && AllDigits(ds)
    requires rest == [] || !IsDigit(rest[0])
    ensures ParseInt("+" + ds + rest) == Finite(DecimalValue(ds))
  {
    var u := ds + rest;
    var s := "+" + ds + rest;
    assert s == "+" + u && s[0] == '+' && s[1..] == u;
    assert TrimStart(s) == s;
    LeadingDigitsOfRun(ds, rest);
    assert u[..|ds|] == ds;
  }

  /** `parseInt` reads back the rendering of any integer, whatever non-digit
      text follows it: `parseInt(`${n}` + rest, 10) == n`. */
  lemma ParseIntShowInt(n: int, rest: string)
    requires rest == [] || !IsDigit(rest[0])
    ensures ParseInt(ShowInt(n) + rest) == Finite(n)
  {
    var m: nat := if n < 0 then -n else n;
    ShowNatDigits(m);
    ParseUnsignedRun(ShowNat(m), rest, n < 0);
    assert ShowInt(n) == Signed(n < 0, ShowNat(m));
    SignedAppend(n < 0, ShowNat(m), rest);
  }

  /** `parseInt` ignores leading white space. */
  lemma ParseIntSkipsWhitespace(w: string, s: string)
    requires forall i :: 0 <= i < |w| ==> IsWhitespace(w[i])
    ensures ParseInt(w + s) == ParseInt(s)
  {
    TrimStartSkipsWhitespace(w, s);
  }

  /** `Number` reads back the rendering of any integer. */
  lemma NumberOfShowInt(n: int)
    ensures NumberOf(ShowInt(n)) == Some(n)
  {
    var m: nat := if n < 0 then -n else n;
    ShowNatDigits(m);
    NumberOfRun(ShowNat(m), n < 0);
    assert ShowInt(n) == Signed(n < 0, ShowNat(m));
  }

  /** `Number` ignores white space on both sides. */
  lemma NumberOfSkipsWhitespace(w1: string, s: string, w2: string)
    requires forall i :: 0 <= i < |w1| ==> IsWhitespace(w1[i])
    requires forall i :: 0 <= i < |w2| ==> IsWhitespace(w2[i])
    ensures NumberOf(w1 + s + w2) == NumberOf(s)
  {
    assert w1 + s + w2 == w1 + (s + w2);
    TrimStartSkipsWhitespace(w1, s + w2);
    if TrimStart(s) == [] {
      TrimStartSkipsWhitespace(s, w2);
      TrimStartSkipsWhitespace(w2, []);
      assert w2 + [] == w2;
    } else {
      TrimStartAppend(s, w2);
      TrimEndSkipsWhitespace(TrimStart(s), w2);
    }
  }

  /** An optionally negated, non-empty digit run converts to its value. */
  lemma NumberOfRun(ds: string, negative: bool)
    requires ds != [] && AllDigits(ds)
    ensures var v: int := DecimalValue(ds); NumberOf(Signed(negative, ds)) == Some(if negative then -v else v)
  {
    SignedShape(negative, ds);
    SignedEnd(negative, ds);
    NumberOfTrimmed(Signed(negative, ds), ds, negative);
  }

  /** A string with no surrounding white space that is a signed digit run
      converts to the run's signed value. */
  lemma NumberOfTrimmed(s: string, ds: string, negative: bool)
    requires s != [] && TrimStart(s) == s && TrimEnd(s) == s
    requires Unsigned(s) == (ds, negative) && ds != [] && AllDigits(ds)
    ensures var v: int := DecimalValue(ds); NumberOf(s) == Some(if negative then -v else v)
  {
  }
}
