/** `java.time.LocalDateTime` as the session service uses it: `parse` with the
    ISO-8601 extended local date-time format (strict resolution), and
    `toString`, which prints seconds and fractions only when they are not
    zero. Years are the four-digit years 0000 to 9999. */
module LocalDateTimes {
  import opened Common

  datatype DateTime = DateTime(year: nat, month: nat, day: nat, hour: nat, minute: nat, second: nat, nano: nat)

  /** Proleptic Gregorian leap years, as the ISO chronology counts them. */
  predicate IsLeap(y: nat) {
    y % 4 == 0 && (y % 100 != 0 || y % 400 == 0)
  }

  function MonthLength(y: nat, m: nat): nat
    requires 1 <= m <= 12
  {
    if m == 2 then (if IsLeap(y) then 29 else 28)
    else if m == 4 || m == 6 || m == 9 || m == 11 then 30
    else 31
  }

  /** A date-time that strict resolution accepts. */
  predicate Valid(t: DateTime) {
    && t.year <= 9999
    && 1 <= t.month <= 12
    && 1 <= t.day <= MonthLength(t.year, t.month)
    && t.hour < 24 && t.minute < 60 && t.second < 60
    && t.nano < 1_000_000_000
  }

  // ---------------------------------------------------------------------------
  // Fixed-width decimal fields
  // ---------------------------------------------------------------------------

  predicate IsDigit(c: char) {
    '0' <= c <= '9'
  }

  predicate AllDigits(s: string) {
    forall i :: 0 <= i < |s| ==> IsDigit(s[i])
  }

  /** The number a run of ASCII digits spells, most significant first. */
  function ValueOf(s: string): nat
    requires AllDigits(s)
    decreases |s|
  {
    if |s| == 0 then 0
    else ValueOf(s[..|s| - 1]) * 10 + (s[|s| - 1] as int - '0' as int)
  }

  function Pow10(n: nat): (p: nat)
    ensures p >= 1
  {
    if n == 0 then 1 else 10 * Pow10(n - 1)
  }

  /** `n` printed in exactly `w` digits, with leading zeros. */
  function Padded(n: nat, w: nat): (r: string)
    ensures |r| == w && AllDigits(r)
  {
    if w == 0 then "" else Padded(n / 10, w - 1) + [DigitChar(n % 10)]
  }

  lemma {:induction false} ValueOfPadded(n: nat, w: nat)
    requires n < Pow10(w)
    ensures ValueOf(Padded(n, w)) == n
  {
    if w > 0 {
      var p := Padded(n, w);
      assert p[..|p| - 1] == Padded(n / 10, w - 1);
      ValueOfPadded(n / 10, w - 1);
    }
  }

  // ---------------------------------------------------------------------------
  // parse
  // ---------------------------------------------------------------------------

  /** The fixed part `yyyy-MM-ddTHH:mm`; the `T` matches in either case. */
  predicate DateAndMinute(s: string)
    requires |s| >= 16
  {
    && AllDigits(s[0..4]) && s[4] == '-'
    && AllDigits(s[5..7]) && s[7] == '-'
    && AllDigits(s[8..10]) && (s[10] == 'T' || s[10] == 't')
    && AllDigits(s[11..13]) && s[13] == ':'
    && AllDigits(s[14..16])
  }

  /** The optional tail `:ss` with an optional fraction of up to nine digits
      after a point: the seconds and the nanoseconds it stands for. */
  function ParseSeconds(s: string): (r: Option<(nat, nat)>)
    ensures r.Some? ==> r.value.1 < 1_000_000_000
  {
    if |s| == 0 then Some((0, 0))
    else if |s| >= 3 && s[0] == ':' && AllDigits(s[1..3]) then
      var second := ValueOf(s[1..3]);
      var f := s[3..];
      if |f| == 0 then Some((second, 0))
      else if f[0] == '.' && |f| <= 10 && AllDigits(f[1..]) then
        FractionBound(f[1..]);
        Some((second, ValueOf(f[1..]) * Pow10(10 - |f|)))
      else None
    else None
  }

  lemma {:induction false} ValueOfBound(s: string)
    requires AllDigits(s)
    ensures ValueOf(s) < Pow10(|s|)
    decreases |s|
  {
    if |s| > 0 {
      ValueOfBound(s[..|s| - 1]);
    }
  }

  lemma FractionBound(digits: string)
    requires AllDigits(digits) && |digits| <= 9
    ensures ValueOf(digits) * Pow10(9 - |digits|) < 1_000_000_000
  {
    ValueOfBound(digits);
    PowAdd(|digits|, 9 - |digits|);
    assert Pow10(9) == 1_000_000_000;
    var a, b := ValueOf(digits), Pow10(9 - |digits|);
    assert a * b < Pow10(|digits|) * b by {
      assert a + 1 <= Pow10(|digits|);
      assert (a + 1) * b <= Pow10(|digits|) * b;
    }
  }

  lemma {:induction false} PowAdd(m: nat, n: nat)
    ensures Pow10(m) * Pow10(n) == Pow10(m + n)
    decreases m
  {
    if m > 0 {
      PowAdd(m - 1, n);
    }
  }

  /** `LocalDateTime.parse`: the whole text must be one date-time in the
      format, and the fields must name a real instant of the calendar. */
  function Parse(s: string): (r: Option<DateTime>)
    ensures r.Some? ==> Valid(r.value)
    ensures r.Some? ==> |s| >= 16 && DateAndMinute(s)
  {
    if |s| < 16 || !DateAndMinute(s) then None
    else
      match ParseSeconds(s[16..])
      case None => None
      case Some(sn) =>
        var t := DateTime(ValueOf(s[0..4]), ValueOf(s[5..7]), ValueOf(s[8..10]),
                          ValueOf(s[11..13]), ValueOf(s[14..16]), sn.0, sn.1);
        if Valid(t) then Some(t) else None
  }

  // ---------------------------------------------------------------------------
  // toString
  // ---------------------------------------------------------------------------

  /** Seconds and fraction as `LocalTime.toString` prints them: nothing when
      both are zero, and the fraction in groups of three digits. */
  function ShowSeconds(second: nat, nano: nat): string {
    if second == 0 && nano == 0 then ""
    else
      ":" + Padded(second, 2) +
      (if nano == 0 then ""
       else if nano % 1_000_000 == 0 then "." + Padded(nano / 1_000_000, 3)
       else if nano % 1000 == 0 then "." + Padded(nano / 1000, 6)
       else "." + Padded(nano, 9))
  }

  function Show(t: DateTime): (s: string)
    ensures |s| >= 16
  {
    Padded(t.year, 4) + "-" + Padded(t.month, 2) + "-" + Padded(t.day, 2) + "T"
      + Padded(t.hour, 2) + ":" + Padded(t.minute, 2) + ShowSeconds(t.second, t.nano)
  }

  lemma SecondsRoundTrip(second: nat, nano: nat)
    requires second < 60 && nano < 1_000_000_000
    ensures ParseSeconds(ShowSeconds(second, nano)) == Some((second, nano))
  {
    var s := ShowSeconds(second, nano);
    if !(second == 0 && nano == 0) {
      assert Pow10(2) == 100;
      ValueOfPadded(second, 2);
      assert s[1..3] == Padded(second, 2);
      var f := s[3..];
      if nano != 0 {
        if nano % 1_000_000 == 0 {
          assert Pow10(3) == 1000 && Pow10(6) == 1_000_000;
          ValueOfPadded(nano / 1_000_000, 3);
          assert f[1..] == Padded(nano / 1_000_000, 3);
        } else if nano % 1000 == 0 {
          assert Pow10(3) == 1000 && Pow10(6) == 1_000_000;
          ValueOfPadded(nano / 1000, 6);
          assert f[1..] == Padded(nano / 1000, 6);
        } else {
          assert Pow10(9) == 1_000_000_000 && Pow10(0) == 1;
          ValueOfPadded(nano, 9);
          assert f[1..] == Padded(nano, 9);
        }
      }
    }
  }

  /** Printing a valid date-time and parsing the text gives it back. */
  lemma ParseShow(t: DateTime)
    requires Valid(t)
    ensures Parse(Show(t)) == Some(t)
  {
    var s := Show(t);
    assert Pow10(2) == 100 && Pow10(4) == 10000;
    assert s[0..4] == Padded(t.year, 4);
    assert s[5..7] == Padded(t.month, 2);
    assert s[8..10] == Padded(t.day, 2);
    assert s[11..13] == Padded(t.hour, 2);
    assert s[14..16] == Padded(t.minute, 2);
    assert s[16..] == ShowSeconds(t.second, t.nano);
    ValueOfPadded(t.year, 4);
    ValueOfPadded(t.month, 2);
    ValueOfPadded(t.day, 2);
    ValueOfPadded(t.hour, 2);
    ValueOfPadded(t.minute, 2);
    SecondsRoundTrip(t.second, t.nano);
  }

  /** A zone suffix, as a JavaScript `toISOString` value ends with, makes
      the text unparsable. */
  lemma ZoneSuffixIsRejected(t: DateTime)
    requires Valid(t)
    ensures Parse(Show(t) + "Z") == None
  {
    var s := Show(t) + "Z";
    var tail := s[16..];
    assert tail == ShowSeconds(t.second, t.nano) + "Z";
    assert tail[|tail| - 1] == 'Z';
  }
}
