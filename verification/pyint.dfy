/** Python's `int(x)` as the age join applies it to a demographic `age` value
    (audcog_agm_agehistogram.py, lines 113-116). */
module PyInt {
  import opened Wrappers
  import opened Text
  import opened JsonValues

  /** How `int(x)` ends: with a value, with an exception the script catches
      (ValueError or TypeError, after which the age counts as missing), or with
      an OverflowError, which the script does not catch. */
  datatype Conversion = Converted(value: int) | Rejected | Overflow

  /** `s` without its leading spaces. */
  function TrimStart(s: string): string {
    if |s| > 0 && IsSpace(s[0]) then TrimStart(s[1..]) else s
  }

  /** `s` without its trailing spaces. */
  function TrimEnd(s: string): string {
    if |s| > 0 && IsSpace(s[|s| - 1]) then TrimEnd(s[..|s| - 1]) else s
  }

  /** Stripping the start removes the whole leading run of spaces and
      nothing else. */
  lemma {:induction false} TrimStartRemovesSpaces(s: string) returns (lead: string)
    ensures s == lead + TrimStart(s) && AllSpace(lead)
    ensures TrimStart(s) == [] || !IsSpace(TrimStart(s)[0])
  {
    if |s| > 0 && IsSpace(s[0]) {
      var rest := TrimStartRemovesSpaces(s[1..]);
      lead := [s[0]] + rest;
      assert s == [s[0]] + s[1..];
    } else {
      lead := "";
    }
  }

  /** Stripping the end removes the whole trailing run of spaces and
      nothing else. */
  lemma {:induction false} TrimEndRemovesSpaces(s: string) returns (trail: string)
    ensures s == TrimEnd(s) + trail && AllSpace(trail)
    ensures TrimEnd(s) == [] || !IsSpace(TrimEnd(s)[|TrimEnd(s)| - 1])
  {
    if |s| > 0 && IsSpace(s[|s| - 1]) {
      var rest := TrimEndRemovesSpaces(s[..|s| - 1]);
      trail := rest + [s[|s| - 1]];
      assert s == s[..|s| - 1] + [s[|s| - 1]];
    } else {
      trail := "";
    }
  }

  /** The value of a string of decimal digits; leading zeros are allowed. */
  function DigitsValue(d: string): nat
    requires AllDigits(d)
  {
    if |d| == 0 then 0 else 10 * DigitsValue(d[..|d| - 1]) + (d[|d| - 1] as int - '0' as int)
  }

  function SignedValue(sign: string, digits: string): int
    requires AllDigits(digits)
  {
    if sign == "-" then -(DigitsValue(digits) as int) else DigitsValue(digits)
  }

  /** CPython's default `sys.int_max_str_digits` (Python 3.11 and later, and
      the security releases 3.7.14, 3.8.14, 3.9.14 and 3.10.7): `int()` of a
      decimal string with more digits than this, leading zeros included,
      raises ValueError. */
  const MaxStrDigits: nat := 4300

  /** The stripped text as `int()` reads it: an optional sign, then at most
      `MaxStrDigits` digits. */
  function SignedDigits(t: string): Option<int> {
    if |t| > 0 && (t[0] == '+' || t[0] == '-') then
      if |t| > 1 && AllDigits(t[1..]) && |t| - 1 <= MaxStrDigits then Some(SignedValue(t[..1], t[1..])) else None
    else if |t| > 0 && AllDigits(t) && |t| <= MaxStrDigits then Some(DigitsValue(t))
    else None
  }

  /** `int(s)` for a string `s`, or None where Python raises ValueError. */
  function IntOfString(s: string): Option<int> {
    SignedDigits(TrimEnd(TrimStart(s)))
  }

  /** `s` is spaces `lead`, an optional `sign`, one or more `digits`, spaces `trail`. */
  ghost predicate IntLiteral(s: string, lead: string, sign: string, digits: string, trail: string) {
    && s == lead + sign + digits + trail
    && AllSpace(lead) && AllSpace(trail)
    && (sign == "" || sign == "+" || sign == "-")
    && |digits| > 0 && AllDigits(digits)
  }

  lemma {:induction false} TrimStartSpaces(lead: string, x: string)
    requires AllSpace(lead) && |x| > 0 && !IsSpace(x[0])
    ensures TrimStart(lead + x) == x
    decreases |lead|
  {
    if |lead| > 0 {
      assert (lead + x)[1..] == lead[1..] + x;
      TrimStartSpaces(lead[1..], x);
    } else {
      assert lead + x == x;
    }
  }

  lemma {:induction false} TrimEndSpaces(x: string, trail: string)
    requires AllSpace(trail) && |x| > 0 && !IsSpace(x[|x| - 1])
    ensures TrimEnd(x + trail) == x
    decreases |trail|
  {
    if |trail| > 0 {
      assert (x + trail)[..|x + trail| - 1] == x + trail[..|trail| - 1];
      TrimEndSpaces(x, trail[..|trail| - 1]);
    } else {
      assert x + trail == x;
    }
  }

  /** What `SignedDigits` accepts is exactly an optional sign and a digit run. */
  lemma SignedDigitsOf(sign: string, digits: string)
    requires sign == "" || sign == "+" || sign == "-"
    requires |digits| > 0 && AllDigits(digits)
    ensures SignedDigits(sign + digits)
      == if |digits| <= MaxStrDigits then Some(SignedValue(sign, digits)) else None
  {
    var t := sign + digits;
    if sign == "" {
      assert t == digits;
      assert IsDigit(t[0]);
    } else {
      assert t[..1] == sign && t[1..] == digits;
    }
  }

  lemma TrimBoth(s: string, lead: string, core: string, trail: string)
    requires s == lead + core + trail
    requires AllSpace(lead) && AllSpace(trail)
    requires |core| > 0 && !IsSpace(core[0]) && !IsSpace(core[|core| - 1])
    ensures TrimEnd(TrimStart(s)) == core
  {
    assert s == lead + (core + trail);
    assert (core + trail)[0] == core[0];
    TrimStartSpaces(lead, core + trail);
    TrimEndSpaces(core, trail);
  }

  /** A text `SignedDigits` accepts splits into its sign and its digit run. */
  lemma SignedDigitsSplit(t: string) returns (sign: string, digits: string)
    requires SignedDigits(t).Some?
    ensures sign == "" || sign == "+" || sign == "-"
    ensures |digits| > 0 && AllDigits(digits) && t == sign + digits
    ensures |digits| <= MaxStrDigits
    ensures SignedDigits(t).value == SignedValue(sign, digits)
  {
    if t[0] == '+' || t[0] == '-' {
      sign, digits := t[..1], t[1..];
    } else {
      sign, digits := "", t;
    }
  }

  /** Stripping removes only spaces, from both ends. */
  lemma TrimPieces(s: string) returns (lead: string, trail: string)
    ensures s == lead + TrimEnd(TrimStart(s)) + trail
    ensures AllSpace(lead) && AllSpace(trail)
  {
    lead := TrimStartRemovesSpaces(s);
    trail := TrimEndRemovesSpaces(TrimStart(s));
    Regroup(s, lead, TrimStart(s), TrimEnd(TrimStart(s)), trail);
  }

  lemma Regroup<T>(s: seq<T>, a: seq<T>, b: seq<T>, c: seq<T>, d: seq<T>)
    requires s == a + b && b == c + d
    ensures s == a + c + d
  {
  }

  lemma Substitute<T>(s: seq<T>, a: seq<T>, t: seq<T>, d: seq<T>, b: seq<T>, c: seq<T>)
    requires s == a + t + d && t == b + c
    ensures s == a + b + c + d
  {
  }

  /** Every string `int()` accepts is a spaced, optionally signed run of at
      most `MaxStrDigits` digits, and the result is that run's value. */
  lemma IntOfStringSound(s: string)
    ensures IntOfString(s).Some? ==>
      exists lead, sign, digits, trail ::
        && IntLiteral(s, lead, sign, digits, trail) && |digits| <= MaxStrDigits
        && IntOfString(s).value == SignedValue(sign, digits)
  {
    var t := TrimEnd(TrimStart(s));
    if SignedDigits(t).Some? {
      var lead, trail := TrimPieces(s);
      var sign, digits := SignedDigitsSplit(t);
      Substitute(s, lead, t, trail, sign, digits);
      assert IntLiteral(s, lead, sign, digits, trail);
    }
  }

  /** Every spaced, optionally signed run of digits converts, to its value,
      unless it has more than `MaxStrDigits` digits. */
  lemma IntOfStringComplete(s: string, lead: string, sign: string, digits: string, trail: string)
    requires IntLiteral(s, lead, sign, digits, trail)
    ensures IntOfString(s) == if |digits| <= MaxStrDigits then Some(SignedValue(sign, digits)) else None
  {
    var core := sign + digits;
    assert IsDigit(digits[|digits| - 1]);
    assert core[|core| - 1] == digits[|digits| - 1];
    assert core[0] == if sign == "" then digits[0] else sign[0];
    assert IsDigit(digits[0]);
    assert s == lead + core + trail;
    TrimBoth(s, lead, core, trail);
    SignedDigitsOf(sign, digits);
  }

  /** `int(x)` for a parsed JSON value. Booleans are integers in Python; null,
      lists and dicts raise TypeError; a float truncates, except that NaN
      raises ValueError and an infinity raises OverflowError. */
  function ToInt(v: Json): (r: Conversion)
    ensures r.Overflow? <==> v.JFloat? && v.f.Infinite?
    ensures v.JNull? || v.JArray? || v.JObject? ==> r == Rejected
  {
    match v
    case JInt(i) => Converted(i)
    case JBool(b) => Converted(if b then 1 else 0)
    case JFloat(Finite(t)) => Converted(t)
    case JFloat(Infinite(_)) => Overflow
    case JFloat(NaN) => Rejected
    case JString(s) =>
      (match IntOfString(s)
       case Some(n) => Converted(n)
       case None => Rejected)
    case _ => Rejected
  }

  /** The conversions the demographic records rely on: padded and signed
      numerals convert, words and embedded spaces do not. */
  lemma IntOfStringExamples()
    ensures IntOfString(" 45\n") == Some(45)
    ensures IntOfString("-07") == Some(-7)
    ensures IntOfString("foo") == None
    ensures IntOfString("4 5") == None
    ensures IntOfString("+") == None
    ensures IntOfString([28 as char] + "45") == None
  {
    assert DigitsValue("4") == 4;
    assert DigitsValue("45") == 45 by { assert "45"[..1] == "4"; }
    assert IntLiteral(" 45\n", " ", "", "45", "\n");
    IntOfStringComplete(" 45\n", " ", "", "45", "\n");
    assert DigitsValue("0") == 0;
    assert DigitsValue("07") == 7 by { assert "07"[..1] == "0"; }
    assert IntLiteral("-07", "", "-", "07", "");
    IntOfStringComplete("-07", "", "-", "07", "");
    assert !IsDigit('f') && !IsSpace('f') && !IsSpace('o');
    assert TrimEnd(TrimStart("foo")) == "foo";
    assert TrimEnd(TrimStart("4 5")) == "4 5";
    assert !IsDigit(' ');
    assert "4 5"[1] == ' ';
    assert TrimEnd(TrimStart("+")) == "+";
    assert !IsSpace(28 as char) && !IsDigit(28 as char);
    assert TrimEnd(TrimStart([28 as char] + "45")) == [28 as char] + "45";
  }
}
