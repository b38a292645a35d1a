/**
 * `parseNumberField` (server.js): turns a follower or subscriber count typed
 * by a user into an integer, or `null` when none can be read from it.
 * It deletes every thousands separator, trims, and applies ECMAScript's
 * `parseInt(…, 10)`, whose prefix semantics are modelled here as well.
 */
module NumberField {
  import opened JsString

  predicate IsDigit(c: char) {
    '0' <= c <= '9'
  }

  predicate AllDigits(s: string) {
    forall i :: 0 <= i < |s| ==> IsDigit(s[i])
  }

  function DigitValue(c: char): (d: nat)
    requires IsDigit(c)
    ensures d < 10
  {
    c as int - '0' as int
  }

  function DigitChar(d: nat): (c: char)
    requires d < 10
    ensures IsDigit(c) && DigitValue(c) == d
  {
    ('0' as int + d) as char
  }

  /** The number a string of decimal digits denotes, most significant digit first. */
  function DecimalValue(ds: string): nat
    requires AllDigits(ds)
  {
    if ds == [] then 0 else DecimalValue(ds[..|ds| - 1]) * 10 + DigitValue(ds[|ds| - 1])
  }

  /** The decimal numeral of `n`: its digits, most significant first, with no leading zero. */
  function Numeral(n: nat): (r: string)
    ensures AllDigits(r) && r != []
    ensures |r| > 1 ==> r[0] != '0'
  {
    if n < 10 then [DigitChar(n)] else Numeral(n / 10) + [DigitChar(n % 10)]
  }

  /** Reading a numeral back gives the number it was written from. */
  lemma {:induction false} NumeralValue(n: nat)
    ensures DecimalValue(Numeral(n)) == n
  {
    if n >= 10 {
      NumeralValue(n / 10);
      var r := Numeral(n);
      assert r[..|r| - 1] == Numeral(n / 10);
    }
  }

  predicate CommaFree(s: string) {
    forall i :: 0 <= i < |s| ==> s[i] != ','
  }

  /** `s.replace(/,/g, '')`: `s` with every comma deleted and nothing else changed. */
  function RemoveCommas(s: string): (r: string)
    ensures |r| <= |s|
  {
    if s == [] then [] else (if s[0] == ',' then [] else [s[0]]) + RemoveCommas(s[1..])
  }

  /** No comma is left after `RemoveCommas`. */
  lemma {:induction false} RemoveCommasLeavesNone(s: string)
    ensures CommaFree(RemoveCommas(s))
  {
    if s != [] {
      RemoveCommasLeavesNone(s[1..]);
    }
  }

  lemma {:induction false} RemoveCommasAppend(a: string, b: string)
    ensures RemoveCommas(a + b) == RemoveCommas(a) + RemoveCommas(b)
  {
    if a != [] {
      assert (a + b)[1..] == a[1..] + b;
      RemoveCommasAppend(a[1..], b);
    } else {
      assert a + b == b;
    }
  }

  /**
   * Each comma is deleted, not replaced: with `RemoveCommasAppend` and
   * `RemoveCommasOfCommaFree` this fixes `RemoveCommas` on every input.
   */
  lemma CommaDeleted(a: string, b: string)
    ensures RemoveCommas([',']) == []
    ensures RemoveCommas(a + [','] + b) == RemoveCommas(a) + RemoveCommas(b)
  {
    assert RemoveCommas([',']) == [] + RemoveCommas([]);
    RemoveCommasAppend(a + [','], b);
    RemoveCommasAppend(a, [',']);
  }

  /** A string without commas is left as it is. */
  lemma {:induction false} RemoveCommasOfCommaFree(s: string)
    requires CommaFree(s)
    ensures RemoveCommas(s) == s
  {
    if s != [] {
      assert CommaFree(s[1..]);
      RemoveCommasOfCommaFree(s[1..]);
    }
  }

  /** Deleting the commas twice deletes nothing more. */
  lemma RemoveCommasIdempotent(s: string)
    ensures RemoveCommas(RemoveCommas(s)) == RemoveCommas(s)
  {
    RemoveCommasLeavesNone(s);
    RemoveCommasOfCommaFree(RemoveCommas(s));
  }

  /** The longest prefix of `s` made of decimal digits. */
  function LeadingDigits(s: string): (r: string)
    ensures |r| <= |s| && r == s[..|r|] && AllDigits(r)
    ensures |r| < |s| ==> !IsDigit(s[|r|])
  {
    if s != [] && IsDigit(s[0]) then [s[0]] + LeadingDigits(s[1..]) else []
  }

  /**
   * After its leading white space, `s` goes on with a digit, or with a
   * sign directly followed by a digit.
   */
  predicate StartsWithNumber(s: string) {
    var t := TrimStart(s);
    || (t != [] && IsDigit(t[0]))
    || (|t| >= 2 && (t[0] == '+' || t[0] == '-') && IsDigit(t[1]))
  }

  /**
   * `parseInt(s, 10)`, with `None` for `NaN`: skip leading white space, take
   * an optional sign, then the longest run of decimal digits; no digits
   * means `NaN`.
   */
  function ParseInt(s: string): (r: Option<int>)
    ensures r.Some? <==> StartsWithNumber(s)
  {
    var t := TrimStart(s);
    var negative := t != [] && t[0] == '-';
    var u := if t != [] && (t[0] == '+' || t[0] == '-') then t[1..] else t;
    var z := LeadingDigits(u);
    if z == [] then None else Some(Signed(negative, DecimalValue(z)))
  }

  function Signed(negative: bool, n: nat): int {
    if negative then -(n as int) else n
  }

  /**
   * `parseNumberField(val)` with `val` absent (`undefined`/`null`) or a
   * string: absent and `''` give `null`; otherwise the commas are deleted,
   * the rest is trimmed and read by `parseInt(…, 10)`.
   */
  function ParseNumberField(val: Option<string>): (r: Option<int>)
    ensures val.None? || val == Some("") ==> r.None?
  {
    if val.None? || val.value == "" then None
    else ParseInt(Trim(RemoveCommas(val.value)))
  }

  /** A run of digits followed by something that is not a digit is read as that run. */
  lemma {:induction false} LeadingDigitsOfRun(d: string, rest: string)
    requires AllDigits(d)
    requires rest == [] || !IsDigit(rest[0])
    ensures LeadingDigits(d + rest) == d
  {
    if d == [] {
      assert d + rest == rest;
    } else {
      assert (d + rest)[1..] == d[1..] + rest;
      LeadingDigitsOfRun(d[1..], rest);
    }
  }

  /**
   * `parseInt` prefix semantics: after optional white space and an optional
   * sign, a run of digits is read and everything from the first non-digit
   * on is ignored.
   */
  lemma ParseIntReadsDigitRun(w: string, sign: string, d: string, rest: string)
    requires AllWhitespace(w) && AllDigits(d) && d != []
    requires sign == "" || sign == "+" || sign == "-"
    requires rest == [] || !IsDigit(rest[0])
    ensures ParseInt(w + sign + d + rest)
         == Some(Signed(sign == "-", DecimalValue(d)))
  {
    var y := d + rest;
    var x := sign + y;
    assert w + sign + d + rest == w + x;
    assert IsDigit(y[0]);
    assert x[0] == if sign == "" then y[0] else sign[0];
    assert TrimStart(w + x) == x by {
      assert !IsWhitespace(x[0]);
      TrimStartPadded(w, x);
    }
    assert (x[0] == '-') == (sign == "-");
    assert (x[0] == '+' || x[0] == '-') == (sign != "");
    var u := if sign == "" then x else x[1..];
    assert u == y;
    LeadingDigitsOfRun(d, rest);
  }

  predicate NoDigits(s: string) {
    forall i :: 0 <= i < |s| ==> !IsDigit(s[i])
  }

  lemma {:induction false} RemoveCommasKeepsNoDigits(s: string)
    requires NoDigits(s)
    ensures NoDigits(RemoveCommas(s))
  {
    if s != [] {
      assert NoDigits(s[1..]);
      RemoveCommasKeepsNoDigits(s[1..]);
    }
  }

  /** A string without any digit is `NaN` to `parseInt`. */
  lemma ParseIntWithoutDigits(s: string)
    requires NoDigits(s)
    ensures ParseInt(s) == None
  {
    var t := TrimStart(s);
    assert NoDigits(t) by {
      forall i | 0 <= i < |t| ensures !IsDigit(t[i]) {
        assert t[i] == s[|s| - |t| + i];
      }
    }
    assert !StartsWithNumber(s);
  }

  lemma TrimKeepsNoDigits(m: string)
    requires NoDigits(m)
    ensures NoDigits(Trim(m))
  {
    var a := TrimStart(m);
    assert NoDigits(a) by {
      forall i | 0 <= i < |a| ensures !IsDigit(a[i]) {
        assert a[i] == m[|m| - |a| + i];
      }
    }
    var b := TrimEnd(a);
    forall i | 0 <= i < |b| ensures !IsDigit(b[i]) {
      assert b[i] == a[i];
    }
    assert Trim(m) == b;
  }

  /** Input in which no digit occurs, such as `"abc"` or white space only, yields `null`. */
  lemma NoDigitsIsNull(s: string)
    requires NoDigits(s)
    ensures ParseNumberField(Some(s)) == None
  {
    if s != "" {
      RemoveCommasKeepsNoDigits(s);
      TrimKeepsNoDigits(RemoveCommas(s));
      ParseIntWithoutDigits(Trim(RemoveCommas(s)));
    }
  }

  /** Thousands separators do not matter: only the input with every comma deleted counts. */
  lemma CommasIrrelevant(s: string)
    ensures ParseNumberField(Some(s)) == ParseNumberField(Some(RemoveCommas(s)))
  {
    RemoveCommasIdempotent(s);
    if RemoveCommas(s) == "" {
      assert Trim(RemoveCommas(s)) == "";
      assert ParseInt("") == None;
    }
  }

  /**
   * A string of decimal digits, padded with white space on either side,
   * is read as the number the digits denote.
   */
  lemma DigitsParse(w1: string, d: string, w2: string)
    requires AllWhitespace(w1) && AllWhitespace(w2) && AllDigits(d) && d != []
    ensures ParseNumberField(Some(w1 + d + w2)) == Some(DecimalValue(d))
  {
    var s := w1 + d + w2;
    PaddedDigitsHaveNoComma(w1, d, w2);
    RemoveCommasOfCommaFree(s);
    TrimPadded(w1, d, w2);
    ParseIntOfDigits(d);
  }

  lemma PaddedDigitsHaveNoComma(w1: string, d: string, w2: string)
    requires AllWhitespace(w1) && AllWhitespace(w2) && AllDigits(d)
    ensures CommaFree(w1 + d + w2)
  {
    var s := w1 + d + w2;
    forall i | 0 <= i < |s| ensures s[i] != ',' {
      if i < |w1| { assert s[i] == w1[i]; }
      else if i < |w1| + |d| { assert s[i] == d[i - |w1|]; }
      else { assert s[i] == w2[i - |w1| - |d|]; }
    }
  }

  lemma ParseIntOfDigits(d: string)
    requires AllDigits(d) && d != []
    ensures ParseInt(d) == Some(DecimalValue(d))
  {
    assert !IsWhitespace(d[0]) && d[0] != '+' && d[0] != '-';
    assert TrimStart(d) == d;
    assert LeadingDigits(d) == d by {
      LeadingDigitsOfRun(d, []);
      assert d + [] == d;
    }
  }

  /** A plain string of decimal digits is read as the number it denotes. */
  lemma PlainDigitsParse(d: string)
    requires AllDigits(d) && d != []
    ensures ParseNumberField(Some(d)) == Some(DecimalValue(d))
  {
    assert RemoveCommas(d) == d by {
      assert forall i :: 0 <= i < |d| ==> d[i] != ',';
      RemoveCommasOfCommaFree(d);
    }
    assert Trim(d) == d by {
      assert !IsWhitespace(d[0]) && !IsWhitespace(d[|d| - 1]);
      TrimOfTrimmed(d);
    }
    ParseIntOfDigits(d);
  }

  /** Writing a count in decimal and reading it back gives the count. */
  lemma NumeralRoundTrip(n: nat)
    ensures ParseNumberField(Some(Numeral(n))) == Some(n)
  {
    PlainDigitsParse(Numeral(n));
    NumeralValue(n);
  }

  /** `ds` with a comma before every group of three digits, counted from the right. */
  function Grouped(ds: string): string {
    if |ds| <= 3 then ds else Grouped(ds[..|ds| - 3]) + "," + ds[|ds| - 3..]
  }

  lemma {:induction false} RemoveCommasOfGrouped(ds: string)
    requires CommaFree(ds)
    ensures RemoveCommas(Grouped(ds)) == ds
  {
    if |ds| <= 3 {
      RemoveCommasOfCommaFree(ds);
    } else {
      var hi, lo := ds[..|ds| - 3], ds[|ds| - 3..];
      assert CommaFree(hi) && CommaFree(lo) by {
        assert forall i :: 0 <= i < |hi| ==> hi[i] == ds[i];
        assert forall i :: 0 <= i < |lo| ==> lo[i] == ds[|ds| - 3 + i];
      }
      assert RemoveCommas(Grouped(hi)) == hi by {
        RemoveCommasOfGrouped(hi);
      }
      assert RemoveCommas(Grouped(hi) + ",") == hi by {
        RemoveCommasAppend(Grouped(hi), ",");
        assert RemoveCommas(",") == "";
      }
      assert RemoveCommas(lo) == lo by {
        RemoveCommasOfCommaFree(lo);
      }
      RemoveCommasAppend(Grouped(hi) + ",", lo);
      assert hi + lo == ds;
    }
  }

  /** A count written with thousands separators, such as `"10,500"`, reads back as the count. */
  lemma GroupedRoundTrip(n: nat)
    ensures ParseNumberField(Some(Grouped(Numeral(n)))) == Some(n)
  {
    var ds := Numeral(n);
    assert CommaFree(ds) by {
      assert forall i :: 0 <= i < |ds| ==> IsDigit(ds[i]);
    }
    CommasIrrelevant(Grouped(ds));
    RemoveCommasOfGrouped(ds);
    NumeralRoundTrip(n);
  }

  lemma NumeralOfTenThousandFiveHundred()
    ensures Numeral(10500) == "10500"
  {
    assert Numeral(1) == "1";
    assert Numeral(10) == Numeral(1) + "0" == "10";
    assert Numeral(105) == Numeral(10) + "5" == "105";
    assert Numeral(1050) == Numeral(105) + "0" == "1050";
  }

  /** The worked example: `"10,500"` becomes `10500`. */
  lemma TenThousandFiveHundred()
    ensures ParseNumberField(Some("10,500")) == Some(10500)
  {
    NumeralOfTenThousandFiveHundred();
    assert Grouped("10500") == "10,500";
    GroupedRoundTrip(10500);
  }

  /**
   * Input that starts, without white space, with a character other than a
   * digit, and not with a sign directly followed by a digit, is `NaN`.
   */
  lemma ParseIntNaN(s: string)
    requires s != [] && !IsWhitespace(s[0]) && !IsDigit(s[0])
    requires (s[0] == '+' || s[0] == '-') ==> |s| < 2 || !IsDigit(s[1])
    ensures ParseInt(s) == None
  {
    assert TrimStart(s) == s;
  }

  /** `parseInt` stops at the first character that does not fit: a letter before the digits gives `null`. */
  lemma LetterBeforeDigitsIsNaN()
    ensures ParseInt("abc1") == None && ParseInt("x10") == None
  {
    assert !IsWhitespace('a') && !IsWhitespace('x');
    ParseIntNaN("abc1");
    ParseIntNaN("x10");
  }

  /** A lone sign gives `null`. */
  lemma LoneSignIsNaN()
    ensures ParseInt("-") == None && ParseInt("+") == None
  {
    assert !IsWhitespace('-') && !IsWhitespace('+');
    ParseIntNaN("-");
    ParseIntNaN("+");
  }

  /** A second sign after the first gives `null`. */
  lemma DoubleSignIsNaN()
    ensures ParseInt("+-5") == None
  {
    assert !IsWhitespace('+');
    ParseIntNaN("+-5");
  }

  /** White space between the sign and the digits gives `null`. */
  lemma SpaceAfterSignIsNaN()
    ensures ParseInt("- 5") == None
  {
    assert !IsWhitespace('-');
    ParseIntNaN("- 5");
  }
}
