/** The few Python built-ins the service leans on, stated exactly:
    dynamically typed values, `str()` of an integer or a bool, `int()` of a
    value or a string, and `str.startswith`. */
module PyBuiltins {

  datatype Option<T> = None | Some(value: T)

  /** A value or the error raised instead of it. */
  datatype Result<T, E> = Ok(value: T) | Err(error: E)

  /** A JSON-like Python value as the service's dictionaries hold it. A dict
      is its list of entries in insertion order. */
  datatype Value =
    | VNone
    | VBool(b: bool)
    | VInt(i: int)
    | VStr(s: string)
    | VDict(entries: seq<(string, Value)>)

  predicate IsDigit(c: char) { '0' <= c <= '9' }

  /** The ASCII characters `str.strip()` and `int()` treat as white space:
      tab, line feed, vertical tab, form feed, carriage return, the four
      separators 0x1C..0x1F, and the space. */
  predicate IsSpace(c: char) { '\t' <= c <= '\r' || '\U{1C}' <= c <= '\U{1F}' || c == ' ' }

  function DigitChar(d: nat): (c: char)
    requires d < 10
    ensures IsDigit(c) && c as int - '0' as int == d
  {
    ('0' as int + d) as char
  }

  /** Decimal digits of a natural number, most significant first. */
  function NatToStr(n: nat): (r: string)
    ensures |r| >= 1 && forall i :: 0 <= i < |r| ==> IsDigit(r[i])
    ensures n < 10 <==> |r| == 1
    decreases n
  {
    if n < 10 then [DigitChar(n)] else NatToStr(n / 10) + [DigitChar(n % 10)]
  }

  /** Python's `str(i)` for an int. */
  function IntToStr(i: int): string {
    if i < 0 then "-" + NatToStr(-i) else NatToStr(i)
  }

  /** Python's `str(b)` for a bool. */
  function BoolToStr(b: bool): string {
    if b then "True" else "False"
  }

  /** Python's `str(v)` for the scalar values that reach a histogram bucket. */
  function Str(v: Value): string {
    match v
    case VNone => "None"
    case VBool(b) => BoolToStr(b)
    case VInt(i) => IntToStr(i)
    case VStr(s) => s
    case VDict(_) => "{...}"
  }

  /** Value of a non-empty run of decimal digits. */
  function DigitsValue(s: string): nat
    requires forall i :: 0 <= i < |s| ==> IsDigit(s[i])
    decreases |s|
  {
    if s == [] then 0
    else
      assert IsDigit(s[|s| - 1]);
      DigitsValue(s[..|s| - 1]) * 10 + (s[|s| - 1] as int - '0' as int)
  }

  function TrimStart(s: string): (r: string)
    ensures |r| <= |s| && r == s[|s| - |r|..]
    ensures r != [] ==> !IsSpace(r[0])
    decreases |s|
  {
    if s != [] && IsSpace(s[0]) then TrimStart(s[1..]) else s
  }

  function TrimEnd(s: string): (r: string)
    ensures |r| <= |s| && r == s[..|r|]
    ensures r != [] ==> !IsSpace(r[|r| - 1])
    decreases |s|
  {
    if s != [] && IsSpace(s[|s| - 1]) then TrimEnd(s[..|s| - 1]) else s
  }

  /** Trimming the end of a text whose first character is not white space
      keeps that first character. */
  lemma {:induction false} TrimEndKeepsFirst(s: string)
    requires s != [] && !IsSpace(s[0])
    ensures TrimEnd(s) != [] && TrimEnd(s)[0] == s[0]
    decreases |s|
  {
    if IsSpace(s[|s| - 1]) {
      TrimEndKeepsFirst(s[..|s| - 1]);
    }
  }

  predicate AllDigits(s: string) {
    forall i :: 0 <= i < |s| ==> IsDigit(s[i])
  }

  /** `s.strip()` for ASCII white space. */
  function Strip(s: string): (r: string)
    ensures |r| <= |s|
  {
    TrimEnd(TrimStart(s))
  }

  /** Python's `int(s)` for a string: surrounding white space, an optional
      sign and at least one decimal digit; anything else raises (None). */
  function ParseInt(s: string): Option<int> {
    ParseStripped(Strip(s))
  }

  /** `int()` of text already stripped of white space. */
  function ParseStripped(t: string): (r: Option<int>)
    ensures r.Some? ==> exists k :: 0 <= k < |t| && IsDigit(t[k])
  {
    if t == [] then None
    else
      var negative := t[0] == '-';
      var body := if t[0] == '-' || t[0] == '+' then t[1..] else t;
      if body == [] || !AllDigits(body) then None
      else
        assert IsDigit(body[0]);
        Some(if negative then -(DigitsValue(body) as int) else DigitsValue(body))
  }

  /** Python's `int(v)` for a value: an int is itself, a bool is 0 or 1, a
      string is parsed; None and dicts raise (None). */
  function IntOf(v: Value): Option<int> {
    match v
    case VInt(i) => Some(i)
    case VBool(b) => Some(if b then 1 else 0)
    case VStr(s) => ParseInt(s)
    case _ => None
  }

  /** Python's `s.startswith(p)`. */
  predicate StartsWith(s: string, p: string) {
    |p| <= |s| && s[..|p|] == p
  }

  lemma {:induction false} DigitsOfNatToStr(n: nat)
    ensures DigitsValue(NatToStr(n)) == n
    decreases n
  {
    if n >= 10 {
      var s := NatToStr(n);
      DigitsOfNatToStr(n / 10);
      assert s[..|s| - 1] == NatToStr(n / 10);
    }
  }

  /** Stripping a string with no white space at either end changes nothing. */
  lemma StripNothing(s: string)
    requires s != [] && !IsSpace(s[0]) && !IsSpace(s[|s| - 1])
    ensures Strip(s) == s
  {
  }

  /** `int(str(i)) == i`: the text `str()` writes reads back as the same int. */
  lemma IntToStrRoundTrip(i: int)
    ensures ParseInt(IntToStr(i)) == Some(i)
  {
    if i < 0 {
      var n: nat := -i;
      assert IntToStr(i) == "-" + NatToStr(n);
      NegativeRoundTrip(n);
      assert ParseInt("-" + NatToStr(n)) == Some(i);
    } else {
      assert IntToStr(i) == NatToStr(i);
      NatRoundTrip(i);
    }
  }

  lemma NatRoundTrip(n: nat)
    ensures ParseInt(NatToStr(n)) == Some(n)
  {
    var d := NatToStr(n);
    assert IsDigit(d[0]) && IsDigit(d[|d| - 1]);
    StripNothing(d);
    DigitsParse(n);
  }

  lemma NegativeRoundTrip(n: nat)
    ensures ParseInt("-" + NatToStr(n)) == Some(-(n as int))
  {
    var d := NatToStr(n);
    var s := "-" + d;
    assert s[0] == '-' && s[|s| - 1] == d[|d| - 1] && IsDigit(d[|d| - 1]);
    StripNothing(s);
    NegativeParses(n);
  }

  /** The digits of `n` read back as `n`. */
  lemma DigitsParse(n: nat)
    ensures ParseStripped(NatToStr(n)) == Some(n)
  {
    var d := NatToStr(n);
    assert IsDigit(d[0]) && AllDigits(d);
    DigitsOfNatToStr(n);
  }

  /** `"-"` and the digits of `n` read back as `-n`. */
  lemma NegativeParses(n: nat)
    ensures ParseStripped("-" + NatToStr(n)) == Some(-(n as int))
  {
    var d := NatToStr(n);
    var s := "-" + d;
    assert s[0] == '-' && s[1..] == d && AllDigits(d);
    DigitsOfNatToStr(n);
  }

  /** `str(i)` is one of the six one-digit labels "0".."5" exactly when
      0 <= i <= 5. */
  lemma IntToStrIsDigitLabel(i: int)
    ensures IntToStr(i) in {"0", "1", "2", "3", "4", "5"} <==> 0 <= i <= 5
  {
    var s := IntToStr(i);
    if i < 0 {
      assert s[0] == '-';
    } else if i >= 10 {
      assert |s| >= 2;
    } else {
      assert s == [DigitChar(i)];
    }
  }
}
