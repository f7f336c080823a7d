/**
 * Calendar dates of the chart (sketch.js `parseDate`): a "DD/MM/YY" string becomes the
 * date 20YY-MM-DD. A date is a (year, month, day) triple ordered lexicographically,
 * which is the order of the timestamps that `a.date - b.date` compares.
 */
module Dates {
  import opened Wrappers

  datatype Date = Date(year: int, month: int, day: int)

  /** `a` is strictly earlier than `b`. */
  predicate Before(a: Date, b: Date)
  {
    a.year < b.year
    || (a.year == b.year && a.month < b.month)
    || (a.year == b.year && a.month == b.month && a.day < b.day)
  }

  /** A date that a two-digit "DD/MM/YY" string can denote. */
  predicate InRange(d: Date)
  {
    2000 <= d.year <= 2099 && 1 <= d.month <= 12 && 1 <= d.day <= 31
  }

  predicate IsDigit(c: char)
  {
    '0' <= c <= '9'
  }

  function DigitValue(c: char): (v: int)
    requires IsDigit(c)
    ensures 0 <= v <= 9
  {
    c as int - '0' as int
  }

  function Digit(v: int): (c: char)
    requires 0 <= v <= 9
    ensures IsDigit(c) && DigitValue(c) == v
  {
    ('0' as int + v) as char
  }

  /** The value of the two-digit field starting at `s[i]`. */
  function Field(s: string, i: nat): (v: int)
    requires i + 1 < |s| && IsDigit(s[i]) && IsDigit(s[i + 1])
    ensures 0 <= v <= 99
  {
    10 * DigitValue(s[i]) + DigitValue(s[i + 1])
  }

  /** `s` has the shape DD/MM/YY with decimal digits. */
  predicate Shaped(s: string)
  {
    |s| == 8 && s[2] == '/' && s[5] == '/'
    && IsDigit(s[0]) && IsDigit(s[1]) && IsDigit(s[3])
    && IsDigit(s[4]) && IsDigit(s[6]) && IsDigit(s[7])
  }

  /**
   * `parseDate`: split on '/', read the parts as day, month and two-digit year, and
   * build 20YY-MM-DD. `None` stands for a string the model does not read as a date
   * (JavaScript's Invalid Date for a month or day out of range).
   */
  function ParseDate(s: string): (r: Option<Date>)
    ensures r.Some? ==> InRange(r.value)
    ensures r.Some? <==> Shaped(s) && 1 <= Field(s, 3) <= 12 && 1 <= Field(s, 0) <= 31
  {
    if Shaped(s) && 1 <= Field(s, 3) <= 12 && 1 <= Field(s, 0) <= 31
    then Some(Date(2000 + Field(s, 6), Field(s, 3), Field(s, 0)))
    else None
  }

  /** The "DD/MM/YY" text of a date, the inverse of `ParseDate`. */
  function FormatDate(d: Date): (s: string)
    requires InRange(d)
    ensures Shaped(s)
  {
    var y := d.year - 2000;
    [Digit(d.day / 10), Digit(d.day % 10), '/',
     Digit(d.month / 10), Digit(d.month % 10), '/',
     Digit(y / 10), Digit(y % 10)]
  }

  /** Year = 2000 + YY, month = MM, day = DD, and every such date is read back. */
  lemma ParseFormat(d: Date)
    requires InRange(d)
    ensures ParseDate(FormatDate(d)) == Some(d)
  {
    var s := FormatDate(d);
    assert Field(s, 0) == d.day;
    assert Field(s, 3) == d.month;
    assert Field(s, 6) == d.year - 2000;
  }

  /** A string that parses is exactly the text of the date it denotes. */
  lemma FormatParse(s: string)
    requires ParseDate(s).Some?
    ensures FormatDate(ParseDate(s).value) == s
  {
    var d := ParseDate(s).value;
    var t := FormatDate(d);
    assert t[0] == s[0] && t[1] == s[1];
    assert t[3] == s[3] && t[4] == s[4];
    assert t[6] == s[6] && t[7] == s[7];
  }

  /** `Before` is a strict total order on dates. */
  lemma BeforeIsStrictOrder(a: Date, b: Date, c: Date)
    ensures !Before(a, a)
    ensures Before(a, b) && Before(b, c) ==> Before(a, c)
    ensures a != b ==> Before(a, b) || Before(b, a)
  {
  }
}
