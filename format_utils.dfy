/** lib/format-utils.ts: rendering a phone number as "(000) 000-0000". */
module FormatUtils {
  import opened Common

  /** `s.replace(/\D/g, "")`: the decimal digits of `s`, in order. */
  function DigitsOnly(s: string): (r: string)
    ensures AllDigits(r)
    ensures |r| <= |s|
    ensures AllDigits(s) ==> r == s
    decreases |s|
  {
    if s == [] then []
    else if IsDigit(s[0]) then [s[0]] + DigitsOnly(s[1..])
    else DigitsOnly(s[1..])
  }

  lemma {:induction false} DigitsOnlyAppend(a: string, b: string)
    ensures DigitsOnly(a + b) == DigitsOnly(a) + DigitsOnly(b)
    decreases |a|
  {
    if a == [] {
      assert a + b == b;
    } else {
      assert (a + b)[0] == a[0];
      assert (a + b)[1..] == a[1..] + b;
      DigitsOnlyAppend(a[1..], b);
    }
  }

  /** The characters the formatter may emit. */
  predicate PhoneChar(c: char) {
    IsDigit(c) || c == '(' || c == ')' || c == ' ' || c == '-'
  }

  function Min(a: int, b: int): int {
    if a <= b then a else b
  }

  /** `formatPhoneNumber`. An undefined or empty input gives ""; fewer than
      ten digits give the digits alone; otherwise the first ten digits are
      laid out as "(ddd) ddd-dddd" and the rest are dropped. */
  function FormatPhoneNumber(phoneNumber: Option<string>): (r: string)
    ensures !Truthy(phoneNumber) ==> r == ""
    ensures Truthy(phoneNumber) && |DigitsOnly(phoneNumber.value)| < 10 ==> r == DigitsOnly(phoneNumber.value)
    ensures forall i :: 0 <= i < |r| ==> PhoneChar(r[i])
  {
    if !Truthy(phoneNumber) then ""
    else
      var digitsOnly := DigitsOnly(phoneNumber.value);
      if |digitsOnly| < 10 then digitsOnly
      else "(" + digitsOnly[0..3] + ") " + digitsOnly[3..6] + "-" + digitsOnly[6..10]
  }

  /** Ten or more digits give a 14-character string with the punctuation at
      fixed places, whose digits are exactly the first ten of the input. */
  lemma {:induction false} FormatLongNumber(phoneNumber: Option<string>)
    requires Truthy(phoneNumber) && |DigitsOnly(phoneNumber.value)| >= 10
    ensures var r := FormatPhoneNumber(phoneNumber);
      |r| == 14 && r[0] == '(' && r[4] == ')' && r[5] == ' ' && r[9] == '-'
      && DigitsOnly(r) == DigitsOnly(phoneNumber.value)[..10]
  {
    var d := DigitsOnly(phoneNumber.value);
    var area, prefix, line := d[0..3], d[3..6], d[6..10];
    assert AllDigits(area) && AllDigits(prefix) && AllDigits(line);
    LaidOutDigits(area, prefix, line);
    assert area + prefix + line == d[..10];
  }

  /** The punctuation of "(ddd) ddd-dddd" adds no digits. */
  lemma LaidOutDigits(area: string, prefix: string, line: string)
    requires AllDigits(area) && AllDigits(prefix) && AllDigits(line)
    ensures DigitsOnly("(" + area + ") " + prefix + "-" + line) == area + prefix + line
  {
    assert DigitsOnly("(") == [] && DigitsOnly(") ") == [] && DigitsOnly("-") == [];
    Interleaved("(", area, ") ", prefix, "-", line);
  }

  /** Runs of digits separated by marks that hold no digit keep only the runs. */
  lemma Interleaved(m1: string, a: string, m2: string, b: string, m3: string, c: string)
    requires DigitsOnly(m1) == [] && DigitsOnly(m2) == [] && DigitsOnly(m3) == []
    requires AllDigits(a) && AllDigits(b) && AllDigits(c)
    ensures DigitsOnly(m1 + a + m2 + b + m3 + c) == a + b + c
  {
    DigitsOnlyAppend(m1, a);
    DigitsOnlyAppend(m1 + a, m2);
    DigitsOnlyAppend(m1 + a + m2, b);
    DigitsOnlyAppend(m1 + a + m2 + b, m3);
    DigitsOnlyAppend(m1 + a + m2 + b + m3, c);
  }

  /** The digits of the output are the input's first (at most ten) digits. */
  lemma FormatKeepsLeadingDigits(phoneNumber: Option<string>)
    ensures var d := DigitsOnly(phoneNumber.GetOr(""));
      DigitsOnly(FormatPhoneNumber(phoneNumber)) == d[..Min(10, |d|)]
  {
    var d := DigitsOnly(phoneNumber.GetOr(""));
    if Truthy(phoneNumber) && |d| >= 10 {
      FormatLongNumber(phoneNumber);
    } else if !Truthy(phoneNumber) {
      assert phoneNumber.GetOr("") == "";
    }
  }

  /** The output depends on the input's digits only. */
  lemma FormatDependsOnDigitsOnly(phoneNumber: Option<string>)
    ensures FormatPhoneNumber(phoneNumber) == FormatPhoneNumber(Some(DigitsOnly(phoneNumber.GetOr(""))))
  {
  }

  /** Formatting an already formatted number changes nothing. */
  lemma FormatIdempotent(phoneNumber: Option<string>)
    ensures FormatPhoneNumber(Some(FormatPhoneNumber(phoneNumber))) == FormatPhoneNumber(phoneNumber)
  {
    var r := FormatPhoneNumber(phoneNumber);
    var d := DigitsOnly(phoneNumber.GetOr(""));
    FormatKeepsLeadingDigits(phoneNumber);
    if Truthy(phoneNumber) && |d| >= 10 {
      FormatLongNumber(phoneNumber);
      var e := DigitsOnly(r);
      assert e == d[..10];
      assert e[0..3] == d[0..3] && e[3..6] == d[3..6] && e[6..10] == d[6..10];
      assert FormatPhoneNumber(Some(r)) == "(" + e[0..3] + ") " + e[3..6] + "-" + e[6..10];
    } else if Truthy(phoneNumber) {
      assert r == d && AllDigits(r);
    }
  }
}
