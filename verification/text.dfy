/** Decimal text of integers: Python's `str(int)` (used to build songplay ids)
    and the integer parsing done by pandas `astype(int)` and by PostgreSQL when
    a text field lands in a bigint column. */
module Text {
  import opened Rows

  predicate IsDigit(c: char) { '0' <= c <= '9' }

  predicate AllDigits(s: string) { forall i | 0 <= i < |s| :: IsDigit(s[i]) }

  function DigitChar(d: int): (c: char)
    requires 0 <= d <= 9
    ensures IsDigit(c) && c as int - '0' as int == d
  {
    (d + '0' as int) as char
  }

  /** Decimal digits of `n`, most significant first, without leading zeros. */
  function NatToString(n: nat): (s: string)
    ensures 1 <= |s| && AllDigits(s)
    ensures |s| > 1 ==> s[0] != '0'
    decreases n
  {
    if n < 10 then [DigitChar(n)] else NatToString(n / 10) + [DigitChar(n % 10)]
  }

  /** Value of a string of decimal digits. */
  function DigitsValue(s: string): nat
    requires AllDigits(s)
  {
    if s == [] then 0
    else DigitsValue(s[..|s| - 1]) * 10 + (s[|s| - 1] as int - '0' as int)
  }

  /** Python's `str(n)`: an optional minus sign, then the digits. */
  function IntToString(n: int): string
  {
    if n < 0 then "-" + NatToString(-n) else NatToString(n)
  }

  /** The integer a text field denotes: an optional minus sign followed by at
      least one decimal digit; anything else (the empty string included) is
      rejected. */
  function ParseInt(s: string): (r: Option<int>)
    ensures r.Some? <==> (AllDigits(s) && s != []) || (|s| >= 2 && s[0] == '-' && AllDigits(s[1..]))
  {
    if s != [] && AllDigits(s) then Some(DigitsValue(s))
    else if |s| >= 2 && s[0] == '-' && AllDigits(s[1..]) then Some(0 - DigitsValue(s[1..]) as int)
    else None
  }

  lemma {:induction false} DigitsValueOfNatToString(n: nat)
    ensures DigitsValue(NatToString(n)) == n
    decreases n
  {
    var s := NatToString(n);
    if n >= 10 {
      DigitsValueOfNatToString(n / 10);
      assert s[..|s| - 1] == NatToString(n / 10);
    }
  }

  /** Parsing the text of an integer gives the integer back. */
  lemma IntToStringRoundTrip(n: int)
    ensures ParseInt(IntToString(n)) == Some(n)
  {
    if n < 0 {
      var s := IntToString(n);
      assert s[1..] == NatToString(-n);
      assert !IsDigit(s[0]);
      DigitsValueOfNatToString(-n);
    } else {
      DigitsValueOfNatToString(n);
    }
  }

  lemma IntToStringInjective(a: int, b: int)
    requires IntToString(a) == IntToString(b)
    ensures a == b
  {
    IntToStringRoundTrip(a);
    IntToStringRoundTrip(b);
  }

  /** The text of a songplay id: `str(sessionId) + '-' + str(ts)`. */
  function SongplayIdText(id: SongplayId): string
  {
    IntToString(id.sessionId) + "-" + IntToString(id.ts)
  }

  /** Position of the first '-' in `s` (|s| when there is none). */
  function FirstDash(s: string): (k: nat)
    ensures k <= |s|
  {
    if s == [] || s[0] == '-' then 0 else 1 + FirstDash(s[1..])
  }

  lemma {:induction false} DashAfterDigits(a: string, b: string)
    requires AllDigits(a)
    ensures FirstDash(a + "-" + b) == |a|
  {
    if a != [] {
      assert (a + "-" + b)[1..] == a[1..] + "-" + b;
      DashAfterDigits(a[1..], b);
    }
  }

  /** After its first character, the text of an integer is all digits. */
  lemma IntToStringTail(n: int)
    ensures |IntToString(n)| >= 1 && AllDigits(IntToString(n)[1..])
  {
    if n < 0 {
      assert IntToString(n)[1..] == NatToString(-n);
    }
  }

  /** Distinct (session, timestamp) pairs get distinct songplay ids: the
      separator is the first '-' after the first character. */
  lemma SongplayIdTextInjective(a: SongplayId, b: SongplayId)
    requires SongplayIdText(a) == SongplayIdText(b)
    ensures a == b
  {
    var ra, rb := IntToString(a.sessionId), IntToString(b.sessionId);
    var x := SongplayIdText(a);
    IntToStringTail(a.sessionId);
    IntToStringTail(b.sessionId);
    assert x[1..] == ra[1..] + "-" + IntToString(a.ts);
    assert x[1..] == rb[1..] + "-" + IntToString(b.ts);
    DashAfterDigits(ra[1..], IntToString(a.ts));
    DashAfterDigits(rb[1..], IntToString(b.ts));
    assert ra == x[..|ra|] == rb;
    assert IntToString(a.ts) == x[|ra| + 1..] == IntToString(b.ts);
    IntToStringInjective(a.sessionId, b.sessionId);
    IntToStringInjective(a.ts, b.ts);
  }
}
