/** The pieces of Python's runtime that the handlers of app.py rely on:
    looking up keys of decoded JSON objects, the exceptions an unguarded
    lookup raises, and `str()` of an integer. */
module Python {

  datatype Option<+T> = None | Some(value: T)

  /** The exceptions a handler can raise; Flask answers each of them with an
      internal server error. */
  datatype PyException =
    | KeyError        // `obj["key"]` on a missing key
    | AttributeError  // `.get(...)` called on `None` (a JSON null)
    | TypeError       // `None` subscripted or compared with an int
    | IndexError      // a list subscript past its end
    | ValueError      // `int()` of a text that is not an integer
    | BuildError      // `url_for` missing a path argument whose value was `None`

  /** A value computed by Python code, or the exception it raised. */
  datatype Result<+T> = Ok(value: T) | Raise(exc: PyException)

  /** One key of a decoded JSON object: missing, present with `null`, or
      present with a value. */
  datatype Field<+T> = Absent | Null | Present(value: T)

  /** `obj.get(key, default)`: the default for a missing key, `None` for a
      JSON null, the value otherwise. */
  function Get<T>(f: Field<T>, default: T): Option<T>
  {
    match f
    case Absent => Some(default)
    case Null => None
    case Present(v) => Some(v)
  }

  /** `obj.get(key)`: `None` for a missing key and for a JSON null. */
  function GetOrNone<T>(f: Field<T>): Option<T>
  {
    match f
    case Present(v) => Some(v)
    case _ => None
  }

  /** `obj[key]`: raises `KeyError` for a missing key; a JSON null is `None`. */
  function Subscript<T>(f: Field<T>): Result<Option<T>>
  {
    match f
    case Absent => Raise(KeyError)
    case Null => Ok(None)
    case Present(v) => Ok(Some(v))
  }

  /** `not xs` for a list that may be `None`: true of `None` and of `[]`. */
  predicate EmptyOrNone<T>(xs: Option<seq<T>>)
  {
    xs.None? || xs.value == []
  }

  predicate IsDigit(c: char) { '0' <= c <= '9' }

  predicate AllDigits(s: string) { forall i :: 0 <= i < |s| ==> IsDigit(s[i]) }

  function DigitChar(d: nat): (c: char)
    requires d < 10
    ensures IsDigit(c) && c as int - '0' as int == d
  {
    ('0' as int + d) as char
  }

  /** The decimal digits of a natural number, most significant first, with
      no leading zero. */
  function NatToStr(n: nat): (s: string)
    ensures |s| > 0 && AllDigits(s)
    ensures |s| > 1 ==> s[0] != '0'
  {
    if n < 10 then [DigitChar(n)] else NatToStr(n / 10) + [DigitChar(n % 10)]
  }

  /** `str(n)` for a Python int: an optional minus sign and the digits. */
  function IntToStr(n: int): string
  {
    if n < 0 then "-" + NatToStr(-n) else NatToStr(n)
  }

  /** The number a string of decimal digits denotes. */
  function DecimalValue(s: string): nat
    requires AllDigits(s)
  {
    if s == [] then 0 else DecimalValue(s[..|s| - 1]) * 10 + (s[|s| - 1] as int - '0' as int)
  }

  /** What `int()` makes of a text made only of an optional minus sign and
      ASCII digits; `None` for every other text. This is the part of `int()`
      that reads back the texts `str()` writes. */
  function ParseDecimal(s: string): (r: Option<int>)
    ensures r.Some? ==> IntToStr(r.value) == s || LeadingZero(s)
  {
    if |s| > 1 && s[0] == '-' && AllDigits(s[1..]) then
      NatToStrOfDecimal(s[1..]);
      var v: int := DecimalValue(s[1..]);
      Some(-v)
    else if |s| > 0 && AllDigits(s) then
      NatToStrOfDecimal(s);
      Some(DecimalValue(s))
    else None
  }

  /** A number text that `str()` never writes: a zero before further digits,
      or a minus sign before a zero. */
  predicate LeadingZero(s: string)
  {
    |s| > 1 && (s[0] == '0' || (s[0] == '-' && s[1] == '0'))
  }

  /** Reading back the digits of a number gives the number. */
  lemma {:induction false} DecimalOfNatToStr(n: nat)
    ensures DecimalValue(NatToStr(n)) == n
  {
    if n >= 10 {
      var s := NatToStr(n);
      assert s[..|s| - 1] == NatToStr(n / 10);
      DecimalOfNatToStr(n / 10);
    }
  }

  /** Writing the value of a digit string without leading zeros gives the
      string back. */
  lemma {:induction false} NatToStrOfDecimal(s: string)
    requires |s| > 0 && AllDigits(s)
    ensures NatToStr(DecimalValue(s)) == s || (|s| > 1 && s[0] == '0')
    decreases |s|
  {
    var last := s[|s| - 1] as int - '0' as int;
    if |s| == 1 {
      assert DecimalValue(s) == DecimalValue([]) * 10 + last == last;
      assert [DigitChar(last)] == s;
    } else {
      var init := s[..|s| - 1];
      assert init[0] == s[0];
      NatToStrOfDecimal(init);
      var v := DecimalValue(s);
      assert v == DecimalValue(init) * 10 + last;
      if s[0] != '0' {
        assert NatToStr(DecimalValue(init)) == init;
        assert DecimalValue(init) != 0 by { assert NatToStr(0) == "0"; }
        assert v / 10 == DecimalValue(init) && v % 10 == last;
        assert NatToStr(v) == init + [DigitChar(last)];
        assert init + [s[|s| - 1]] == s;
      }
    }
  }

  /** A model of `int()` that agrees with Python's on every text made only
      of an optional minus sign and decimal digits. */
  ghost predicate ReadsDecimals(parseInt: string -> Option<int>)
  {
    forall s :: ParseDecimal(s).Some? ==> parseInt(s) == ParseDecimal(s)
  }

  /** `int(str(n)) == n`: the text `str()` writes for any integer reads back
      as that integer. */
  lemma ParseDecimalOfIntToStr(n: int)
    ensures ParseDecimal(IntToStr(n)) == Some(n)
  {
    if n < 0 {
      var s := IntToStr(n);
      assert s[1..] == NatToStr(-n);
      DecimalOfNatToStr(-n);
    } else {
      DecimalOfNatToStr(n);
      assert IntToStr(n)[0] != '-';
    }
  }
}
