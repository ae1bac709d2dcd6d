/** `formatDate`: a timestamp string shown as `MM/DD/YYYY, HH:MM:SS UTC`. Reading the
    string into a date (`new Date(...)`) is a parameter here; the model starts from the
    UTC fields the date object reports. */
module Helpers {
  import opened Wrappers
  import opened Decimal

  /** What `getUTCFullYear`, `getUTCMonth` (0-based), `getUTCDate`, `getUTCHours`,
      `getUTCMinutes` and `getUTCSeconds` return. */
  datatype UtcParts = UtcParts(year: int, month: int, day: int, hours: int, minutes: int, seconds: int)

  /** The ranges a real date's fields lie in. */
  predicate IsCalendarTime(p: UtcParts) {
    && 0 <= p.month <= 11
    && 1 <= p.day <= 31
    && 0 <= p.hours <= 23
    && 0 <= p.minutes <= 59
    && 0 <= p.seconds <= 59
  }

  /** `s.padStart(2, "0")`. */
  function PadStart2(s: string): string {
    if |s| >= 2 then s else seq(2 - |s|, _ => '0') + s
  }

  /** Padding keeps the text as a suffix and fills up to two characters with zeros. */
  lemma PadStart2Shape(s: string)
    ensures var r := PadStart2(s);
      && |r| == (if |s| >= 2 then |s| else 2)
      && r[|r| - |s|..] == s
      && forall i :: 0 <= i < |r| - |s| ==> r[i] == '0'
  {
  }

  /** `String(n).padStart(2, "0")`. */
  function Field(n: int): string {
    PadStart2(IntToString(n))
  }

  /** A value from 0 to 99 becomes exactly two digits that read back as the value. */
  lemma FieldIsTwoDigits(n: int)
    requires 0 <= n <= 99
    ensures |Field(n)| == 2 && IsDigits(Field(n)) && ParseNat(Field(n)) == n
  {
    var t := NatToString(n);
    SmallNatLength(n);
    ParseNatToString(n);
    PadStart2Shape(t);
    if n < 10 {
      assert Field(n) == ['0'] + t;
    }
  }

  /** The template literal `${month}/${day}/${year}, ${hours}:${minutes}:${seconds} UTC`. */
  function Template(mo: string, d: string, y: string, h: string, mi: string, se: string): string {
    mo + "/" + d + "/" + y + ", " + h + ":" + mi + ":" + se + " UTC"
  }

  /** The text `formatDate` builds from the fields: month (plus one), day, hours, minutes
      and seconds padded, the year as it is. */
  function FormatParts(p: UtcParts): string {
    Template(Field(p.month + 1), Field(p.day), IntToString(p.year),
             Field(p.hours), Field(p.minutes), Field(p.seconds))
  }

  /** Reads a `MM/DD/YYYY, HH:MM:SS UTC` string back into fields, the month 0-based;
      `None` for anything not of that shape. */
  function ParseFormatted(r: string): Option<UtcParts> {
    if |r| < 21 then None
    else
      var n := |r|;
      var month, day, year := r[0..2], r[3..5], r[6..n - 14];
      var hours, minutes, seconds := r[n - 12..n - 10], r[n - 9..n - 7], r[n - 6..n - 4];
      if r[2] == '/' && r[5] == '/' && r[n - 14..n - 12] == ", " && r[n - 10] == ':' && r[n - 7] == ':'
         && r[n - 4..] == " UTC"
         && IsDigits(month) && IsDigits(day) && IsIntLiteral(year)
         && IsDigits(hours) && IsDigits(minutes) && IsDigits(seconds)
      then Some(UtcParts(ParseInt(year), ParseNat(month) - 1, ParseNat(day),
                         ParseNat(hours), ParseNat(minutes), ParseNat(seconds)))
      else None
  }

  /** Where the pieces of the template land, for two-character fields and any year text. */
  lemma TemplateLayout(mo: string, d: string, y: string, h: string, mi: string, se: string)
    requires |mo| == 2 && |d| == 2 && |h| == 2 && |mi| == 2 && |se| == 2
    ensures var r := Template(mo, d, y, h, mi, se);
      var n := |r|;
      && n == 20 + |y|
      && r[0..2] == mo && r[2] == '/'
      && r[3..5] == d && r[5] == '/'
      && r[6..n - 14] == y && r[n - 14..n - 12] == ", "
      && r[n - 12..n - 10] == h && r[n - 10] == ':'
      && r[n - 9..n - 7] == mi && r[n - 7] == ':'
      && r[n - 6..n - 4] == se && r[n - 4..] == " UTC"
  {
    var head := mo + "/" + d + "/";
    var tail := ", " + h + ":" + mi + ":" + se + " UTC";
    var r := mo + "/" + d + "/" + y + ", " + h + ":" + mi + ":" + se + " UTC";
    assert r == head + y + tail;
    assert |head| == 6 && |tail| == 14;
    assert r[0..6] == head && r[6..6 + |y|] == y && r[6 + |y|..] == tail;
    assert head[0..2] == mo && head[3..5] == d;
    assert tail[0..2] == ", " && tail[2..4] == h && tail[5..7] == mi && tail[8..10] == se && tail[10..] == " UTC";
  }

  /** Each field of a calendar time lands at its fixed place in the text; the year sits
      unpadded between the day and the time. */
  lemma FormatLayout(p: UtcParts)
    requires IsCalendarTime(p)
    ensures var r := FormatParts(p);
      var n := |r|;
      && n == 20 + |IntToString(p.year)|
      && r[0..2] == Field(p.month + 1) && r[2] == '/'
      && r[3..5] == Field(p.day) && r[5] == '/'
      && r[6..n - 14] == IntToString(p.year) && r[n - 14..n - 12] == ", "
      && r[n - 12..n - 10] == Field(p.hours) && r[n - 10] == ':'
      && r[n - 9..n - 7] == Field(p.minutes) && r[n - 7] == ':'
      && r[n - 6..n - 4] == Field(p.seconds) && r[n - 4..] == " UTC"
  {
    FieldIsTwoDigits(p.month + 1);
    FieldIsTwoDigits(p.day);
    FieldIsTwoDigits(p.hours);
    FieldIsTwoDigits(p.minutes);
    FieldIsTwoDigits(p.seconds);
    TemplateLayout(Field(p.month + 1), Field(p.day), IntToString(p.year),
                   Field(p.hours), Field(p.minutes), Field(p.seconds));
  }

  /** The formatted text determines the date: reading it back gives the same fields,
      the month field holding the 0-based month plus one. */
  lemma FormatRoundTrip(p: UtcParts)
    requires IsCalendarTime(p)
    ensures ParseFormatted(FormatParts(p)) == Some(p)
  {
    FormatLayout(p);
    var r := FormatParts(p);
    var n := |r|;
    FieldIsTwoDigits(p.month + 1);
    assert IsDigits(r[0..2]) && ParseNat(r[0..2]) == p.month + 1;
    FieldIsTwoDigits(p.day);
    assert IsDigits(r[3..5]) && ParseNat(r[3..5]) == p.day;
    FieldIsTwoDigits(p.hours);
    assert IsDigits(r[n - 12..n - 10]) && ParseNat(r[n - 12..n - 10]) == p.hours;
    FieldIsTwoDigits(p.minutes);
    assert IsDigits(r[n - 9..n - 7]) && ParseNat(r[n - 9..n - 7]) == p.minutes;
    FieldIsTwoDigits(p.seconds);
    assert IsDigits(r[n - 6..n - 4]) && ParseNat(r[n - 6..n - 4]) == p.seconds;
    ParseIntToString(p.year);
    assert IsIntLiteral(r[6..n - 14]) && ParseInt(r[6..n - 14]) == p.year;
  }

  /** `formatDate(dateString)`; `parse` stands for `new Date(...)` read in UTC. */
  function FormatDate(dateString: Option<string>, parse: string -> UtcParts): (r: string)
    ensures dateString.None? || dateString.value == "" ==> r == "-"
    ensures dateString.Some? && dateString.value != "" && IsCalendarTime(parse(dateString.value)) ==>
      ParseFormatted(r) == Some(parse(dateString.value))
  {
    if dateString.None? || dateString.value == "" then "-"
    else
      var p := parse(dateString.value);
      if IsCalendarTime(p) then FormatRoundTrip(p); FormatParts(p)
      else FormatParts(p)
  }
}
