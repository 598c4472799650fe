/** What may be submitted for each field type, said of the text and not of how it
    is read (packages/contracts/src/runtime/values.ts:264-344). */
module ValueShapes {
  import opened Definitions
  import opened ValueTypes

  predicate DigitsOnly(s: string) {
    forall i :: 0 <= i < |s| ==> '0' <= s[i] <= '9'
  }

  function Digit(n: nat): char
    requires n < 10
  {
    ('0' as int + n) as char
  }

  /** A number below a hundred in two digits, and a year in four. */
  function Two(n: nat): string
    requires n < 100
  {
    [Digit(n / 10), Digit(n % 10)]
  }

  function Four(n: nat): string
    requires n < 10000
  {
    Two(n / 100) + Two(n % 100)
  }

  /** The days of each month. Every fourth year leaps, save a century that four
      hundred does not divide; a year of two digits is of the 1900s. */
  function LastDay(year: nat, month: nat): nat
    requires 1 <= month <= 12
  {
    var y := if year < 100 then year + 1900 else year;
    var leaps := y % 4 == 0 && !(y % 100 == 0 && y % 400 != 0);
    match month
    case 2 => if leaps then 29 else 28
    case 4 => 30
    case 6 => 30
    case 9 => 30
    case 11 => 30
    case _ => 31
  }

  /** The text of a day there is. */
  predicate WritesDay(s: string, y: nat, m: nat, d: nat) {
    && y <= 9999 && 1 <= m <= 12 && 1 <= d <= LastDay(y, m)
    && s == Four(y) + "-" + Two(m) + "-" + Two(d)
  }

  ghost predicate IsDay(s: string) {
    exists y, m, d :: WritesDay(s, y, m, d)
  }


  // ---------------------------------------------------------------- digits

  lemma {:induction false} DigitsAreDigits(s: string)
    ensures AllDigits(s) <==> DigitsOnly(s)
  {
    if s != "" {
      DigitsAreDigits(s[1..]);
      assert forall i :: 0 <= i < |s| - 1 ==> s[1..][i] == s[i + 1];
      assert DigitsOnly(s) ==> DigitsOnly(s[1..]);
      if IsDigit(s[0]) && DigitsOnly(s[1..]) {
        forall i | 0 <= i < |s| ensures '0' <= s[i] <= '9' {
          assert i == 0 || s[i] == s[1..][i - 1];
        }
      }
    }
  }

  lemma OneReads(s: string)
    requires |s| == 1 && IsDigit(s[0])
    ensures AllDigits(s) && Numeral(s) == s[0] as int - '0' as int
  {
    DigitsAreDigits(s);
    assert s[..0] == "";
  }

  lemma TwoRead(s: string)
    requires |s| == 2 && IsDigit(s[0]) && IsDigit(s[1])
    ensures AllDigits(s) && Numeral(s) == 10 * (s[0] as int - '0' as int) + (s[1] as int - '0' as int)
  {
    DigitsAreDigits(s);
    OneReads(s[..1]);
  }

  lemma DigitReads(c: char)
    requires IsDigit(c)
    ensures Digit(c as int - '0' as int) == c
  {
  }

  /** Two digits, and the number they write. */
  lemma PairReads(s: string, from: nat)
    ensures DigitsAt(s, from, 2) <==> from + 2 <= |s| && IsDigit(s[from]) && IsDigit(s[from + 1])
    ensures DigitsAt(s, from, 2) ==> NumberAt(s, from, 2) < 100 && s[from..from + 2] == Two(NumberAt(s, from, 2))
  {
    if from + 2 <= |s| {
      var pair := s[from..from + 2];
      DigitsAreDigits(pair);
      assert pair[0] == s[from] && pair[1] == s[from + 1];
      if AllDigits(pair) {
        TwoRead(pair);
        DigitReads(pair[0]);
        DigitReads(pair[1]);
      }
    }
  }

  lemma TwoWrites(n: nat)
    requires n < 100
    ensures AllDigits(Two(n)) && Numeral(Two(n)) == n && IsDigit(Two(n)[0]) && IsDigit(Two(n)[1])
  {
    TwoRead(Two(n));
  }

  lemma FourAreTwice(s: string)
    requires |s| == 4
    ensures AllDigits(s) <==> AllDigits(s[..2]) && AllDigits(s[2..])
  {
    DigitsAreDigits(s);
    DigitsAreDigits(s[..2]);
    DigitsAreDigits(s[2..]);
    assert forall i :: 0 <= i < 2 ==> s[..2][i] == s[i] && s[2..][i] == s[i + 2];
    if DigitsOnly(s[..2]) && DigitsOnly(s[2..]) {
      forall i | 0 <= i < 4 ensures '0' <= s[i] <= '9' {
        assert if i < 2 then s[i] == s[..2][i] else s[i] == s[2..][i - 2];
      }
    }
  }

  lemma FourCount(s: string)
    requires |s| == 4 && AllDigits(s)
    ensures AllDigits(s[..2]) && AllDigits(s[2..]) && Numeral(s) == 100 * Numeral(s[..2]) + Numeral(s[2..])
  {
    FourAreTwice(s);
    NumeralPrefix(s);
    NumeralPrefix(s[..3]);
    assert s[..3][..2] == s[..2];
    DigitsAreDigits(s[2..]);
    TwoRead(s[2..]);
  }

  lemma FourRead(s: string)
    requires |s| >= 4
    ensures DigitsAt(s, 0, 4) <==> DigitsAt(s, 0, 2) && DigitsAt(s, 2, 2)
    ensures DigitsAt(s, 0, 4) ==> NumberAt(s, 0, 4) < 10000 && s[0..4] == Four(NumberAt(s, 0, 4))
  {
    var four := s[0..4];
    FourAreTwice(four);
    assert four[..2] == s[0..2] && four[2..] == s[2..4];
    PairReads(s, 0);
    PairReads(s, 2);
    if AllDigits(four) {
      FourCount(four);
      assert four == four[..2] + four[2..];
    }
  }

  // ------------------------------------------------------------------ days

  lemma TheLastDay(y: nat, m: nat)
    requires 1 <= m <= 12
    ensures DaysIn(y, m) == LastDay(y, m)
  {
  }

  lemma ADayIsWritten(s: string)
    requires StartsWithDay(s)
    ensures |s| >= 10 && IsDay(s[..10])
  {
    FourRead(s);
    PairReads(s, 5);
    PairReads(s, 8);
    var y, m, d := NumberAt(s, 0, 4), NumberAt(s, 5, 2), NumberAt(s, 8, 2);
    TheLastDay(y, m);
    assert s[..10] == s[0..4] + "-" + s[5..7] + "-" + s[8..10];
    assert WritesDay(s[..10], y, m, d);
  }

  lemma AWrittenDayIsRead(s: string, y: nat, m: nat, d: nat)
    requires |s| >= 10 && WritesDay(s[..10], y, m, d)
    ensures StartsWithDay(s)
  {
    var day := s[..10];
    assert s[0..2] == day[0..2] == Two(y / 100) && s[2..4] == day[2..4] == Two(y % 100);
    assert s[5..7] == day[5..7] == Two(m) && s[8..10] == day[8..10] == Two(d);
    assert s[4] == day[4] && s[7] == day[7];
    TwoWrites(y / 100);
    TwoWrites(y % 100);
    TwoWrites(m);
    TwoWrites(d);
    FourRead(s);
    PairReads(s, 0);
    PairReads(s, 2);
    TheLastDay(y, m);
    assert Four(NumberAt(s, 0, 4)) == Four(y);
    FourDiffer(NumberAt(s, 0, 4), y);
  }

  lemma FourDiffer(a: nat, b: nat)
    requires a < 10000 && b < 10000 && Four(a) == Four(b)
    ensures a == b
  {
    assert Four(a)[0..2] == Two(a / 100) && Four(b)[0..2] == Two(b / 100);
    assert Four(a)[2..4] == Two(a % 100) && Four(b)[2..4] == Two(b % 100);
    TwoWrites(a / 100);
    TwoWrites(b / 100);
    TwoWrites(a % 100);
    TwoWrites(b % 100);
  }

  lemma DaysAreDays(s: string)
    ensures StartsWithDay(s) <==> |s| >= 10 && IsDay(s[..10])
    ensures IsCalendarDate(s) <==> IsDay(s)
  {
    if StartsWithDay(s) {
      ADayIsWritten(s);
    }
    if |s| >= 10 && IsDay(s[..10]) {
      var y, m, d :| WritesDay(s[..10], y, m, d);
      AWrittenDayIsRead(s, y, m, d);
    }
    if IsDay(s) {
      var y, m, d :| WritesDay(s, y, m, d);
      assert |s| == 10 && s[..10] == s;
    }
    if |s| == 10 {
      assert s[..10] == s;
    }
  }

  // ----------------------------------------------------------------- moments

  /** A zone, if one is given: Z, or hours and minutes either way. */
  ghost predicate MayZone(z: string) {
    z == "" || z == "Z" ||
    exists sign, h, m :: WritesZone(z, sign, h, m)
  }

  predicate WritesZone(z: string, sign: char, h: nat, m: nat) {
    && (sign == '+' || sign == '-') && h < 100 && m < 100
    && |z| >= 5 && z[0] == sign && z[1..3] == Two(h) && (z[3..] == Two(m) || z[3..] == ":" + Two(m))
  }

  /** Seconds, if they are given, to the microsecond at most. */
  ghost predicate MaySeconds(t: string) {
    t == "" || exists n, fraction :: WritesSeconds(t, n, fraction)
  }

  predicate WritesSeconds(t: string, n: nat, fraction: string) {
    n <= 59 && MayFraction(fraction) && |t| >= 3 && t[0] == ':' && t[1..3] == Two(n) && t[3..] == fraction
  }

  predicate MayFraction(f: string) {
    f == "" || (2 <= |f| <= 7 && f[0] == '.' && DigitsOnly(f[1..]))
  }

  predicate WritesMoment(s: string, h: nat, m: nat, seconds: string, zone: string) {
    && h <= 23 && m <= 59 && |s| >= 16
    && s[10] == 'T' && s[11..13] == Two(h) && s[13] == ':' && s[14..16] == Two(m) && s[16..] == seconds + zone
  }

  ghost predicate IsMoment(s: string) {
    exists h, m, seconds, zone ::
      WritesMoment(s, h, m, seconds, zone) && IsDay(s[..10]) && MaySeconds(seconds) && MayZone(zone)
  }

  lemma AZoneIsWritten(z: string)
    requires IsZone(z)
    ensures MayZone(z)
  {
    PairReads(z, 1);
    PairReads(z, 3);
    PairReads(z, 4);
    hide NumberAt, DigitsAt, Two;
    if z != "" && z != "Z" {
      if |z| == 5 {
        assert z[3..] == z[3..5];
        assert WritesZone(z, z[0], NumberAt(z, 1, 2), NumberAt(z, 3, 2));
      } else {
        assert z[3..] == ":" + z[4..6];
        assert WritesZone(z, z[0], NumberAt(z, 1, 2), NumberAt(z, 4, 2));
      }
    }
  }

  lemma AWrittenZoneIsRead(z: string, sign: char, h: nat, m: nat)
    requires WritesZone(z, sign, h, m)
    ensures IsZone(z)
  {
    TwoWrites(h);
    TwoWrites(m);
    PairReads(z, 1);
    PairReads(z, 3);
    PairReads(z, 4);
    hide NumberAt, DigitsAt;
  }

  lemma ZonesAreZones(z: string)
    ensures IsZone(z) <==> MayZone(z)
  {
    hide IsZone, WritesZone;
    if IsZone(z) {
      AZoneIsWritten(z);
    }
    if z == "" || z == "Z" {
      Zoneless();
    }
    if sign, h, m :| WritesZone(z, sign, h, m) {
      AWrittenZoneIsRead(z, sign, h, m);
    }
  }

  lemma Zoneless()
    ensures IsZone("") && IsZone("Z")
  {
  }

  lemma ZonesStart(z: string)
    requires MayZone(z)
    ensures z == "" || (!IsDigit(z[0]) && z[0] != ':' && z[0] != '.')
  {
  }

  lemma {:induction false} DigitsStop(a: string, b: string)
    requires DigitsOnly(a) && (b == "" || !IsDigit(b[0]))
    ensures Digits(a + b) == |a|
  {
    if a != "" {
      assert (a + b)[1..] == a[1..] + b && (a + b)[0] == a[0];
      DigitsStop(a[1..], b);
    } else {
      assert a + b == b;
    }
  }

  lemma {:induction false} DigitsTaken(s: string)
    ensures DigitsOnly(s[..Digits(s)])
    ensures Digits(s) == |s| || !IsDigit(s[Digits(s)])
  {
    if s != "" && IsDigit(s[0]) {
      DigitsTaken(s[1..]);
      var n := Digits(s);
      forall i | 0 <= i < n ensures '0' <= s[i] <= '9' {
        assert i == 0 || s[i] == s[1..][..n - 1][i - 1];
      }
    }
  }

  lemma FractionsAreFractions(r: string)
    ensures AfterSeconds(r) <==> exists f, z :: MayFraction(f) && MayZone(z) && r == f + z
  {
    if AfterSeconds(r) {
      if r != "" && r[0] == '.' {
        var n := Digits(r[1..]);
        DigitsTaken(r[1..]);
        ZonesAreZones(r[1 + n..]);
        var f, z := r[..1 + n], r[1 + n..];
        assert f[1..] == r[1..][..n];
        assert MayFraction(f) && r == f + z;
      } else {
        ZonesAreZones(r);
        assert MayFraction("") && r == "" + r;
      }
    }
    if f, z :| MayFraction(f) && MayZone(z) && r == f + z {
      ZonesAreZones(z);
      if f == "" {
        assert r == z;
      } else {
        assert r[1..] == f[1..] + z && r[0] == '.';
        DigitsStop(f[1..], z);
        assert r[|f|..] == z;
      }
    }
  }

  /** What comes after the minutes. */
  predicate AfterMinutes(r: string) {
    if DigitsAt(r, 1, 2) && r[0] == ':' then NumberAt(r, 1, 2) <= 59 && AfterSeconds(r[3..]) else IsZone(r)
  }

  lemma Regrouped(a: string, b: string, c: string)
    ensures a + b + c == a + (b + c)
  {
  }

  lemma SecondsAreWritten(r: string) returns (t: string, z: string)
    requires AfterMinutes(r)
    ensures MaySeconds(t) && MayZone(z) && r == t + z
  {
    PairReads(r, 1);
    hide NumberAt, DigitsAt, Two, AfterSeconds, IsZone, MayZone, MayFraction;
    if DigitsAt(r, 1, 2) && r[0] == ':' {
      FractionsAreFractions(r[3..]);
      var f: string, zone: string :| MayFraction(f) && MayZone(zone) && r[3..] == f + zone;
      t, z := r[..3] + f, zone;
      assert r[..3] == ":" + r[1..3];
      assert WritesSeconds(t, NumberAt(r, 1, 2), f);
      assert r == r[..3] + r[3..];
      Regrouped(r[..3], f, zone);
    } else {
      ZonesAreZones(r);
      t, z := "", r;
    }
  }

  lemma WrittenSecondsAreRead(r: string, t: string, z: string)
    requires MaySeconds(t) && MayZone(z) && r == t + z
    ensures AfterMinutes(r)
  {
    PairReads(r, 1);
    ZonesStart(z);
    ZonesAreZones(z);
    hide NumberAt, DigitsAt, AfterSeconds, IsZone, MayZone;
    if t == "" {
      assert r == z;
    } else {
      var n, f :| WritesSeconds(t, n, f);
      TwoWrites(n);
      assert r[1..3] == Two(n) && r[0] == ':' && r[3..] == f + z;
      assert r[1] == Two(n)[0] && r[2] == Two(n)[1];
      FractionsAreFractions(r[3..]);
      TwoDiffer(NumberAt(r, 1, 2), n);
    }
  }

  lemma TwoDiffer(a: nat, b: nat)
    requires a < 100 && b < 100 && Two(a) == Two(b)
    ensures a == b
  {
    TwoWrites(a);
    TwoWrites(b);
  }

  lemma AMomentIsWritten(s: string)
    requires IsTimestamp(s)
    ensures IsMoment(s)
  {
    DaysAreDays(s);
    PairReads(s, 11);
    PairReads(s, 14);
    hide NumberAt, DigitsAt, Two, StartsWithDay, IsDay, MaySeconds, MayZone, AfterSeconds, IsZone;
    var h, m, r := NumberAt(s, 11, 2), NumberAt(s, 14, 2), s[16..];
    var t, z := SecondsAreWritten(r);
    assert WritesMoment(s, h, m, t, z);
  }

  lemma AWrittenMomentIsRead(s: string, h: nat, m: nat, t: string, z: string)
    requires WritesMoment(s, h, m, t, z) && IsDay(s[..10]) && MaySeconds(t) && MayZone(z)
    ensures IsTimestamp(s)
  {
    DaysAreDays(s);
    PairReads(s, 11);
    PairReads(s, 14);
    TwoWrites(h);
    TwoWrites(m);
    hide NumberAt, DigitsAt, StartsWithDay, IsDay, MaySeconds, MayZone, AfterSeconds, IsZone;
    assert s[11] == Two(h)[0] && s[12] == Two(h)[1] && s[14] == Two(m)[0] && s[15] == Two(m)[1];
    WrittenSecondsAreRead(s[16..], t, z);
    TwoDiffer(NumberAt(s, 11, 2), h);
    TwoDiffer(NumberAt(s, 14, 2), m);
  }

  lemma MomentsAreMoments(s: string)
    ensures IsTimestamp(s) <==> IsMoment(s)
  {
    hide IsTimestamp, IsDay, MaySeconds, MayZone;
    if IsTimestamp(s) {
      AMomentIsWritten(s);
    }
    if h, m, t, z :| WritesMoment(s, h, m, t, z) && |s| >= 10 && IsDay(s[..10]) && MaySeconds(t) && MayZone(z) {
      AWrittenMomentIsRead(s, h, m, t, z);
    }
  }

  // ----------------------------------------------------------------- numbers

  predicate MayExponent(e: string) {
    e == "" ||
    ((e[0] == 'e' || e[0] == 'E') &&
     (SomeDigits(e[1..]) || (|e| > 1 && (e[1] == '+' || e[1] == '-') && SomeDigits(e[2..]))))
  }

  predicate SomeDigits(s: string) {
    s != "" && DigitsOnly(s)
  }

  predicate MayDecimals(f: string) {
    f == "" || (f[0] == '.' && SomeDigits(f[1..]))
  }

  /** A sign, if any; digits; decimals, if any; an exponent, if any. */
  predicate WritesNumber(s: string, sign: string, whole: string, decimals: string, exponent: string) {
    && sign in ["", "-"] && SomeDigits(whole) && MayDecimals(decimals) && MayExponent(exponent)
    && s == sign + (whole + (decimals + exponent))
  }

  ghost predicate IsNumber(s: string) {
    exists sign, whole, decimals, exponent :: WritesNumber(s, sign, whole, decimals, exponent)
  }

  lemma ExponentsAreExponents(r: string)
    ensures AfterFraction(r) <==> MayExponent(r)
  {
    if |r| > 1 {
      DigitsAreDigits(r[1..]);
      DigitsAreDigits(r[2..]);
      assert r[1..][0] == r[1];
    }
  }

  lemma StartsAfterDigits(exponent: string, decimals: string)
    requires MayExponent(exponent) && MayDecimals(decimals)
    ensures exponent == "" || !IsDigit(exponent[0])
    ensures decimals + exponent == "" || !IsDigit((decimals + exponent)[0])
  {
  }

  lemma DecimalsAreWritten(r: string) returns (d: string, e: string)
    requires AfterWhole(r)
    ensures MayDecimals(d) && MayExponent(e) && r == d + e
  {
    if r != "" && r[0] == '.' {
      var n := Digits(r[1..]);
      DigitsTaken(r[1..]);
      d, e := r[..1 + n], r[1 + n..];
      assert e == r[1..][n..] && d[1..] == r[1..][..n];
      ExponentsAreExponents(e);
      hide AfterFraction, MayExponent;
    } else {
      ExponentsAreExponents(r);
      d, e := "", r;
      hide AfterFraction, MayExponent;
    }
  }

  lemma WrittenDecimalsAreRead(r: string, d: string, e: string)
    requires MayDecimals(d) && MayExponent(e) && r == d + e
    ensures AfterWhole(r)
  {
    ExponentsAreExponents(e);
    StartsAfterDigits(e, d);
    ExponentHasNoPoint(e);
    hide AfterFraction, MayExponent;
    if d == "" {
      assert r == e;
    } else {
      assert r[1..] == d[1..] + e && r[0] == '.';
      DigitsStop(d[1..], e);
      assert r[1..][|d| - 1..] == e;
    }
  }

  lemma ExponentHasNoPoint(e: string)
    requires MayExponent(e)
    ensures e == "" || e[0] != '.'
  {
  }

  lemma UnsignedIsWritten(t: string) returns (whole: string, d: string, e: string)
    requires Digits(t) > 0 && AfterWhole(t[Digits(t)..])
    ensures SomeDigits(whole) && MayDecimals(d) && MayExponent(e) && t == whole + (d + e)
  {
    DigitsTaken(t);
    hide Digits, AfterWhole, MayDecimals, MayExponent, DigitsOnly;
    var n := Digits(t);
    whole := t[..n];
    d, e := DecimalsAreWritten(t[n..]);
    assert t == t[..n] + t[n..];
  }

  lemma ANumberIsWritten(s: string)
    requires IsNumeral(s)
    ensures IsNumber(s)
  {
    hide Digits, AfterWhole, MayDecimals, MayExponent, SomeDigits;
    if s != "" && s[0] == '-' {
      var whole, d, e := UnsignedIsWritten(s[1..]);
      assert s == "-" + s[1..];
      assert WritesNumber(s, "-", whole, d, e);
    } else {
      var whole, d, e := UnsignedIsWritten(s);
      assert s == "" + s;
      assert WritesNumber(s, "", whole, d, e);
    }
  }

  lemma AWrittenNumberIsRead(s: string, sign: string, whole: string, d: string, e: string)
    requires WritesNumber(s, sign, whole, d, e)
    ensures IsNumeral(s)
  {
    StartsAfterDigits(e, d);
    hide AfterWhole, MayDecimals, MayExponent;
    var t := whole + (d + e);
    assert t[0] == whole[0];
    DigitsStop(whole, d + e);
    assert t[|whole|..] == d + e;
    WrittenDecimalsAreRead(d + e, d, e);
    if sign == "" {
      assert s == t;
    } else {
      assert s[0] == '-' && s[1..] == t;
    }
  }

  lemma NumbersAreNumbers(s: string)
    ensures IsNumeral(s) <==> IsNumber(s)
  {
    hide IsNumeral, WritesNumber;
    if IsNumeral(s) {
      ANumberIsWritten(s);
    }
    if sign, whole, d, e :| WritesNumber(s, sign, whole, d, e) {
      AWrittenNumberIsRead(s, sign, whole, d, e);
    }
  }

  // ------------------------------------------------------------------ values

  predicate StartsAt(s: string, prefix: string) {
    |prefix| < |s| && s[..|prefix|] == prefix && forall i :: |prefix| <= i < |s| ==> !IsSpace(s[i])
  }

  /** What a field takes, value by value: nothing is coerced, and a number may be
      sent as the digits of one. */
  ghost predicate Takes(field: Field, value: Value, isEmail: string -> bool) {
    var kind := field.kind;
    match value
    case Text(s) =>
      || kind.PlainText? || kind.LongText?
      || (kind.Email? && (s == "" || isEmail(s)))
      || (kind.Url? && (s == "" || StartsAt(s, "http://") || StartsAt(s, "https://")))
      || (kind.Number? && IsNumber(s))
      || (kind.Date? && IsDay(s))
      || (kind.DateTime? && IsMoment(s))
      || (kind.Enum? && s in kind.values)
      || (kind.Relation? && s != "")
    case Int(_) => kind.Number? || kind.Relation?
    case Fraction(_) => kind.Number? || kind.Relation?
    case Bool(_) => kind.Boolean?
    case _ => false
  }

  lemma UrlsAreUrls(s: string)
    ensures IsUrl(s) <==> StartsAt(s, "http://") || StartsAt(s, "https://")
  {
    if IsUrl(s) {
      var prefix :| prefix in ["http://", "https://"] && prefix < s && forall c :: c in s[|prefix|..] ==> !IsSpace(c);
      assert StartsAt(s, prefix);
    }
    forall prefix | prefix in ["http://", "https://"] && StartsAt(s, prefix) ensures IsUrl(s) {
      assert prefix < s && forall c :: c in s[|prefix|..] ==> !IsSpace(c);
    }
    assert "http://" in ["http://", "https://"] && "https://" in ["http://", "https://"];
  }

  /** A value fits a field exactly when the field takes it. */
  lemma FitsExactlyWhatItTakes(field: Field, value: Value, isEmail: string -> bool)
    ensures Fits(field, value, isEmail) <==> Takes(field, value, isEmail)
  {
    hide IsUrl, IsNumeral, IsNumber, IsCalendarDate, IsDay, IsTimestamp, IsMoment, StartsAt;
    if value.Text? {
      UrlsAreUrls(value.text);
      NumbersAreNumbers(value.text);
      DaysAreDays(value.text);
      MomentsAreMoments(value.text);
    }
  }
}
