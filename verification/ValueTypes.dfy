/** What a value of each field type is (packages/contracts/src/runtime/values.ts:264-344). */
module ValueTypes {
  import opened Definitions

  predicate IsDigit(c: char) {
    '0' <= c <= '9'
  }

  function Digits(s: string): (n: nat)
    ensures n <= |s|
  {
    if s == "" || !IsDigit(s[0]) then 0 else 1 + Digits(s[1..])
  }

  predicate AllDigits(s: string) {
    Digits(s) == |s|
  }

  function Numeral(s: string): nat
    requires AllDigits(s)
  {
    if s == "" then 0
    else
      NumeralPrefix(s);
      10 * Numeral(s[..|s| - 1]) + (s[|s| - 1] as int - '0' as int)
  }

  lemma NumeralPrefix(s: string)
    requires AllDigits(s) && s != ""
    ensures AllDigits(s[..|s| - 1]) && IsDigit(s[|s| - 1])
  {
    if |s| > 1 {
      NumeralPrefix(s[1..]);
      assert s[..|s| - 1][1..] == s[1..][..|s| - 2];
    }
  }

  /** `/^-?\d+(\.\d+)?([eE][+-]?\d+)?$/` */
  predicate IsNumeral(s: string) {
    var t := if s != "" && s[0] == '-' then s[1..] else s;
    Digits(t) > 0 && AfterWhole(t[Digits(t)..])
  }

  predicate AfterWhole(r: string) {
    if r != "" && r[0] == '.' then Digits(r[1..]) > 0 && AfterFraction(r[1..][Digits(r[1..])..])
    else AfterFraction(r)
  }

  predicate AfterFraction(r: string) {
    r == "" ||
    ((r[0] == 'e' || r[0] == 'E') &&
     var e := if |r| > 1 && (r[1] == '+' || r[1] == '-') then r[2..] else r[1..];
     e != "" && AllDigits(e))
  }

  predicate IsSpace(c: char) {
    c in "\t\n\U{0b}\U{0c}\r \U{a0}\U{1680}\U{2028}\U{2029}\U{202f}\U{205f}\U{3000}\U{feff}" ||
    '\U{2000}' <= c <= '\U{200a}'
  }

  /** `/^https?:\/\/\S+$/` */
  predicate IsUrl(s: string) {
    exists prefix :: prefix in ["http://", "https://"] && prefix < s && forall c :: c in s[|prefix|..] ==> !IsSpace(c)
  }

  predicate IsLeap(year: nat) {
    year % 4 == 0 && (year % 100 != 0 || year % 400 == 0)
  }

  /** `Date.UTC` reads the years 0 to 99 as 1900 to 1999. */
  function DaysIn(year: nat, month: nat): nat {
    var y := if year < 100 then 1900 + year else year;
    if month == 2 then (if IsLeap(y) then 29 else 28)
    else if month in [4, 6, 9, 11] then 30
    else 31
  }

  predicate DigitsAt(s: string, from: nat, count: nat) {
    from + count <= |s| && AllDigits(s[from..from + count])
  }

  function NumberAt(s: string, from: nat, count: nat): nat
    requires DigitsAt(s, from, count)
  {
    Numeral(s[from..from + count])
  }

  /** Ten characters, `YYYY-MM-DD`, of a month and day that exist. */
  predicate StartsWithDay(s: string) {
    && DigitsAt(s, 0, 4) && DigitsAt(s, 5, 2) && DigitsAt(s, 8, 2)
    && s[4] == '-' && s[7] == '-'
    && 1 <= NumberAt(s, 5, 2) <= 12
    && 1 <= NumberAt(s, 8, 2) <= DaysIn(NumberAt(s, 0, 4), NumberAt(s, 5, 2))
  }

  predicate IsCalendarDate(s: string) {
    |s| == 10 && StartsWithDay(s)
  }

  predicate IsZone(r: string) {
    r == "" || r == "Z" ||
    ((r[0] == '+' || r[0] == '-') && DigitsAt(r, 1, 2) &&
     ((|r| == 5 && DigitsAt(r, 3, 2)) || (|r| == 6 && r[3] == ':' && DigitsAt(r, 4, 2))))
  }

  predicate AfterSeconds(r: string) {
    if r != "" && r[0] == '.' then
      var n := Digits(r[1..]);
      1 <= n <= 6 && IsZone(r[1 + n..])
    else IsZone(r)
  }

  predicate IsTimestamp(s: string) {
    && StartsWithDay(s)
    && DigitsAt(s, 11, 2) && DigitsAt(s, 14, 2)
    && s[10] == 'T' && s[13] == ':'
    && NumberAt(s, 11, 2) <= 23 && NumberAt(s, 14, 2) <= 59
    && var r := s[16..];
       if DigitsAt(r, 1, 2) && r[0] == ':' then NumberAt(r, 1, 2) <= 59 && AfterSeconds(r[3..]) else IsZone(r)
  }

  /** A value of the type the field declares, or not; nothing is coerced
      (values.ts:264-315). What an email address is is the library's answer. */
  predicate Fits(field: Field, value: Value, isEmail: string -> bool) {
    match field.kind
    case PlainText => value.Text?
    case LongText => value.Text?
    case Email => value.Text? && (value.text == "" || isEmail(value.text))
    case Url => value.Text? && (value.text == "" || IsUrl(value.text))
    case Number => value.Int? || value.Fraction? || (value.Text? && IsNumeral(value.text))
    case Boolean => value.Bool?
    case Date => value.Text? && IsCalendarDate(value.text)
    case DateTime => value.Text? && IsTimestamp(value.text)
    case Enum(values, _) => value.Text? && value.text in values
    case Relation(_) => value.Int? || value.Fraction? || (value.Text? && value.text != "")
    case Json => false
  }
}
