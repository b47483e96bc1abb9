/** `convert_date_format`: "Oct 20, 2025 11:59:00 PM" becomes "20/10/2025".
    The `strptime` format "%b %d, %Y %I:%M:%S %p" is written out as an
    explicit reader over the whitespace-collapsed string, with the English
    month abbreviations and the calendar checks that `datetime` performs. */
module Dates {
  import opened Wrappers
  import opened Text

  datatype DateTime = DateTime(month: nat, day: nat, year: nat,
                               hour: nat, minute: nat, second: nat, pm: bool)

  predicate IsLeapYear(y: nat) {
    y % 4 == 0 && (y % 100 != 0 || y % 400 == 0)
  }

  function DaysInMonth(month: nat, year: nat): nat {
    if month == 2 then (if IsLeapYear(year) then 29 else 28)
    else if month == 4 || month == 6 || month == 9 || month == 11 then 30
    else 31
  }

  /** What `datetime` accepts: a real calendar day, a 12-hour clock hour and
      minutes and seconds below 60 (`strptime` lets "60" and "61" through
      its pattern, but building the `datetime` then fails). */
  predicate Valid(d: DateTime) {
    && 1 <= d.month <= 12
    && 1 <= d.year <= 9999
    && 1 <= d.day <= DaysInMonth(d.month, d.year)
    && 1 <= d.hour <= 12
    && d.minute <= 59
    && d.second <= 59
  }

  function Lower(c: char): char {
    if 'A' <= c <= 'Z' then (c as int + 32) as char else c
  }

  function LowerAscii(s: string): (r: string)
    ensures |r| == |s|
  {
    if s == [] then [] else [Lower(s[0])] + LowerAscii(s[1..])
  }

  const MonthNames: seq<string> :=
    ["Jan", "Feb", "Mar", "Apr", "May", "Jun", "Jul", "Aug", "Sep", "Oct", "Nov", "Dec"]

  /** `%b`: the month of a case-insensitive English abbreviation, 0 for none. */
  function MonthNumber(w: string): (m: nat)
    ensures m <= 12
  {
    var l := LowerAscii(w);
    if l == "jan" then 1 else if l == "feb" then 2 else if l == "mar" then 3
    else if l == "apr" then 4 else if l == "may" then 5 else if l == "jun" then 6
    else if l == "jul" then 7 else if l == "aug" then 8 else if l == "sep" then 9
    else if l == "oct" then 10 else if l == "nov" then 11 else if l == "dec" then 12
    else 0
  }

  /** A run of ASCII digits (possibly empty) that ends at the separator `sep`:
      the digits and what follows the separator. */
  function Field(s: string, sep: char): Option<(string, string)> {
    var n := DigitRun(s, 0);
    if n < |s| && s[n] == sep then Some((s[..n], s[n + 1..])) else None
  }

  /** `datetime.strptime(s, "%b %d, %Y %I:%M:%S %p")` on a collapsed string
      (where every `\s+` of the format is one ' '): the month abbreviation
      and a single space, then the rest of the fields. */
  function ParseDate(s: string): (r: Option<DateTime>)
    ensures r.Some? ==> Valid(r.value)
  {
    if |s| < 4 || s[3] != ' ' then None else ParseDay(MonthNumber(s[..3]), s[4..])
  }

  /** `%d, ` */
  function ParseDay(month: nat, s: string): (r: Option<DateTime>)
    ensures r.Some? ==> Valid(r.value)
  {
    match Field(s, ',')
    case None => None
    case Some((d, rest)) =>
      if rest == [] || rest[0] != ' ' then None else ParseYear(month, d, rest[1..])
  }

  /** `%Y ` */
  function ParseYear(month: nat, d: string, s: string): (r: Option<DateTime>)
    ensures r.Some? ==> Valid(r.value)
  {
    match Field(s, ' ')
    case None => None
    case Some((y, rest)) => ParseClock(month, d, y, rest)
  }

  /** `%I:%M:%S %p` */
  function ParseClock(month: nat, d: string, y: string, s: string): (r: Option<DateTime>)
    ensures r.Some? ==> Valid(r.value)
  {
    match Field(s, ':')
    case None => None
    case Some((h, r3)) =>
      match Field(r3, ':')
      case None => None
      case Some((mi, r4)) =>
        match Field(r4, ' ')
        case None => None
        case Some((se, meridian)) => Assemble(month, d, y, h, mi, se, meridian)
  }

  /** Field widths as the `strptime` patterns allow them: day, hour, minute
      and second one or two digits, the year exactly four; the meridian
      "AM" or "PM" in any case with nothing after it; then the calendar. */
  function Assemble(month: nat, d: string, y: string, h: string, mi: string, se: string,
                    meridian: string): (r: Option<DateTime>)
    ensures r.Some? ==> Valid(r.value)
  {
    var l := LowerAscii(meridian);
    var dt := DateTime(month, DecimalValue(d), DecimalValue(y), DecimalValue(h),
                       DecimalValue(mi), DecimalValue(se), l == "pm");
    if && 1 <= |d| <= 2 && |y| == 4 && 1 <= |h| <= 2 && 1 <= |mi| <= 2
       && 1 <= |se| <= 2 && (l == "am" || l == "pm") && Valid(dt)
    then Some(dt) else None
  }

  function Digit(n: nat): (c: char)
    requires n < 10
    ensures IsDigit(c) && DigitValue(c) == n
  {
    ('0' as int + n) as char
  }

  /** `%d`, `%m`, `%M`, `%S` of `strftime`: two digits, zero-padded. */
  function Pad2(n: nat): (r: string)
    requires n < 100
    ensures |r| == 2 && AllDigits(r) && DecimalValue(r) == n
  {
    var r := [Digit(n / 10), Digit(n % 10)];
    DecimalValueAppend2([], r);
    assert [] + r == r;
    r
  }

  /** `%Y` of `strftime`: four digits, zero-padded. */
  function Pad4(n: nat): (r: string)
    requires n < 10000
    ensures |r| == 4 && AllDigits(r) && DecimalValue(r) == n
  {
    var hi := Pad2(n / 100);
    var lo := Pad2(n % 100);
    DecimalValueAppend2(hi, lo);
    hi + lo
  }

  /** The output shape "DD/MM/YYYY". */
  predicate IsDdMmYyyy(r: string) {
    && |r| == 10 && r[2] == '/' && r[5] == '/'
    && AllDigits(r[..2]) && AllDigits(r[3..5]) && AllDigits(r[6..])
  }

  function FormatDdMmYyyy(d: DateTime): string
    requires Valid(d)
  {
    Pad2(d.day) + "/" + Pad2(d.month) + "/" + Pad4(d.year)
  }

  /** The formatted string reads back as the same day, month and year. */
  lemma FormatFields(d: DateTime)
    requires Valid(d)
    ensures var r := FormatDdMmYyyy(d);
      && IsDdMmYyyy(r)
      && DecimalValue(r[..2]) == d.day
      && DecimalValue(r[3..5]) == d.month
      && DecimalValue(r[6..]) == d.year
  {
    var r := FormatDdMmYyyy(d);
    assert r[..2] == Pad2(d.day);
    assert r[3..5] == Pad2(d.month);
    assert r[6..] == Pad4(d.year);
  }

  /** `convert_date_format`: the collapsed string, parsed and rewritten as
      DD/MM/YYYY, or echoed back when it does not parse. */
  function ConvertDateFormat(s: string): string {
    var c := Collapse(s);
    var p := ParseDate(c);
    if p.None? then c else FormatDdMmYyyy(p.value)
  }

  /** Whitespace is collapsed first; a date-time that `strptime` accepts
      becomes DD/MM/YYYY holding its day, month and year, and anything else
      comes back as the collapsed string, never an error. */
  lemma ConvertDateFormatResult(s: string)
    ensures var c := Collapse(s);
      var r := ConvertDateFormat(s);
      && (ParseDate(c).None? ==> r == c)
      && (ParseDate(c).Some? ==>
            && IsDdMmYyyy(r)
            && DecimalValue(r[..2]) == ParseDate(c).value.day
            && DecimalValue(r[3..5]) == ParseDate(c).value.month
            && DecimalValue(r[6..]) == ParseDate(c).value.year)
  {
    var p := ParseDate(Collapse(s));
    if p.Some? {
      FormatFields(p.value);
    }
  }

  // ---------------------------------------------------------------------
  // The reader inverts the way the documents print a date-time.

  /** One or two digits without padding, as in "Oct 5" and "Oct 20". */
  function Dec(n: nat): (r: string)
    requires n < 100
    ensures 1 <= |r| <= 2 && AllDigits(r) && DecimalValue(r) == n
  {
    if n < 10 then
      DecimalValueOne(Digit(n));
      [Digit(n)]
    else Pad2(n)
  }

  lemma DecimalValueOne(c: char)
    ensures DecimalValue([c]) == DigitValue(c)
  {
    assert [c][..0] == [];
  }

  /** Fields small enough to be written in the source format at all. */
  predicate Renderable(d: DateTime) {
    1 <= d.month <= 12 && d.day < 100 && d.year < 10000
    && d.hour < 100 && d.minute < 100 && d.second < 100
  }

  function Meridian(pm: bool): string {
    if pm then "PM" else "AM"
  }

  /** "11:59:00 PM" */
  function RenderClock(d: DateTime): string
    requires Renderable(d)
  {
    Dec(d.hour) + ([':'] + (Pad2(d.minute) + ([':'] + (Pad2(d.second) + ([' '] + Meridian(d.pm))))))
  }

  /** "2025 11:59:00 PM" */
  function YearAndClock(d: DateTime): string
    requires Renderable(d)
  {
    Pad4(d.year) + ([' '] + RenderClock(d))
  }

  /** The date-time as the documents print it: "Oct 20, 2025 11:59:00 PM". */
  function Render(d: DateTime): string
    requires Renderable(d)
  {
    MonthNames[d.month - 1] + ([' '] + ((Dec(d.day) + [',']) + ([' '] + YearAndClock(d))))
  }

  lemma LowerMeridian(pm: bool)
    ensures LowerAscii(Meridian(pm)) == if pm then "pm" else "am"
  {
  }

  /** Each abbreviation `strftime` writes reads back as its own month. */
  lemma MonthNumberOfName(m: nat)
    requires 1 <= m <= 12
    ensures |MonthNames[m - 1]| == 3
    ensures MonthNumber(MonthNames[m - 1]) == m
  {
    if m <= 4 { MonthNumberFirstThird(m); }
    else if m <= 8 { MonthNumberSecondThird(m); }
    else { MonthNumberLastThird(m); }
  }

  lemma MonthNumberFirstThird(m: nat)
    requires 1 <= m <= 4
    ensures MonthNumber(MonthNames[m - 1]) == m
  {
    if m == 1 { assert LowerAscii("Jan") == "jan"; }
    else if m == 2 { assert LowerAscii("Feb") == "feb"; }
    else if m == 3 { assert LowerAscii("Mar") == "mar"; }
    else { assert LowerAscii("Apr") == "apr"; }
  }

  lemma MonthNumberSecondThird(m: nat)
    requires 5 <= m <= 8
    ensures MonthNumber(MonthNames[m - 1]) == m
  {
    if m == 5 { assert LowerAscii("May") == "may"; }
    else if m == 6 { assert LowerAscii("Jun") == "jun"; }
    else if m == 7 { assert LowerAscii("Jul") == "jul"; }
    else { assert LowerAscii("Aug") == "aug"; }
  }

  lemma MonthNumberLastThird(m: nat)
    requires 9 <= m <= 12
    ensures MonthNumber(MonthNames[m - 1]) == m
  {
    if m == 9 { assert LowerAscii("Sep") == "sep"; }
    else if m == 10 { assert LowerAscii("Oct") == "oct"; }
    else if m == 11 { assert LowerAscii("Nov") == "nov"; }
    else { assert LowerAscii("Dec") == "dec"; }
  }

  lemma FieldOf(digits: string, sep: char, rest: string)
    requires AllDigits(digits) && !IsDigit(sep)
    ensures Field(digits + ([sep] + rest), sep) == Some((digits, rest))
  {
    var s := digits + ([sep] + rest);
    DigitRunIs(s, 0, |digits|);
    assert s[..|digits|] == digits;
    assert s[|digits| + 1..] == rest;
  }

  lemma {:induction false} ParseRenderedClock(d: DateTime)
    requires Renderable(d)
    ensures ParseClock(d.month, Dec(d.day), Pad4(d.year), RenderClock(d))
         == Assemble(d.month, Dec(d.day), Pad4(d.year), Dec(d.hour), Pad2(d.minute),
                     Pad2(d.second), Meridian(d.pm))
  {
    var t5 := [' '] + Meridian(d.pm);
    var t4 := Pad2(d.second) + t5;
    var t3 := [':'] + t4;
    var t2 := Pad2(d.minute) + t3;
    FieldOf(Dec(d.hour), ':', t2);
    FieldOf(Pad2(d.minute), ':', t4);
    FieldOf(Pad2(d.second), ' ', Meridian(d.pm));
  }

  lemma AssembleRendered(d: DateTime)
    requires Renderable(d)
    ensures Assemble(d.month, Dec(d.day), Pad4(d.year), Dec(d.hour), Pad2(d.minute),
                     Pad2(d.second), Meridian(d.pm))
         == if Valid(d) then Some(d) else None
  {
    LowerMeridian(d.pm);
  }

  /** Reading back a printed date-time recovers it exactly when it is a real
      date-time, and rejects it otherwise (an invalid calendar day such as
      "Feb 30", an hour of 0 or 13, seconds of 60). */
  lemma {:induction false} ParseRendered(d: DateTime)
    requires Renderable(d)
    ensures ParseDate(Render(d)) == if Valid(d) then Some(d) else None
  {
    RenderLayout(d);
    ParseDateOf(Render(d), d.month, (Dec(d.day) + [',']) + ([' '] + YearAndClock(d)));
    ParseRenderedDay(d);
  }

  /** Text opening with a month abbreviation and a space is read by the day
      reader with that month. */
  lemma ParseDateOf(s: string, m: nat, rest: string)
    requires 1 <= m <= 12 && |s| >= 4 && s[3] == ' '
    requires s[..3] == MonthNames[m - 1] && s[4..] == rest
    ensures ParseDate(s) == ParseDay(m, rest)
  {
    MonthNumberOfName(m);
  }

  /** The month abbreviation, a space, then the rest. */
  lemma RenderLayout(d: DateTime)
    requires Renderable(d)
    ensures |Render(d)| >= 4 && Render(d)[3] == ' '
    ensures Render(d)[..3] == MonthNames[d.month - 1]
    ensures Render(d)[4..] == (Dec(d.day) + [',']) + ([' '] + YearAndClock(d))
  {
    MonthNamePlain(d.month);
    JoinLayout(MonthNames[d.month - 1], ' ', (Dec(d.day) + [',']) + ([' '] + YearAndClock(d)));
  }

  lemma JoinLayout(w: string, c: char, rest: string)
    requires |w| == 3
    ensures var s := w + ([c] + rest);
      |s| >= 4 && s[..3] == w && s[3] == c && s[4..] == rest
  {
  }

  /** The text after the month: day, comma, year and clock. */
  lemma ParseRenderedDay(d: DateTime)
    requires Renderable(d)
    ensures ParseDay(d.month, (Dec(d.day) + [',']) + ([' '] + YearAndClock(d)))
         == if Valid(d) then Some(d) else None
  {
    var clock := RenderClock(d);
    var afterComma := [' '] + YearAndClock(d);
    var afterMonth := (Dec(d.day) + [',']) + afterComma;
    assert afterMonth == Dec(d.day) + ([','] + afterComma);
    FieldOf(Dec(d.day), ',', afterComma);
    assert ParseDay(d.month, afterMonth) == ParseYear(d.month, Dec(d.day), afterComma[1..]);
    FieldOf(Pad4(d.year), ' ', clock);
    ParseRenderedClock(d);
    AssembleRendered(d);
  }

  /** A token with no whitespace, a single space, then a collapsed string. */
  lemma JoinCollapsed(a: string, b: string)
    requires a != [] && b != []
    requires NoSpace(a) && IsCollapsed(b)
    ensures IsCollapsed(a + ([' '] + b))
  {
    var s := a + ([' '] + b);
    forall i | 0 <= i < |s| && IsSpace(s[i]) ensures s[i] == ' ' {
      if i > |a| { assert s[i] == b[i - |a| - 1]; }
    }
    forall i | 0 <= i < |s| - 1 ensures !(IsSpace(s[i]) && IsSpace(s[i + 1])) {
      if i > |a| { assert s[i] == b[i - |a| - 1] && s[i + 1] == b[i - |a|]; }
      else if i == |a| { assert s[i + 1] == b[0]; }
    }
  }

  function ClockHead(d: DateTime): string
    requires Renderable(d)
  {
    Dec(d.hour) + ([':'] + (Pad2(d.minute) + ([':'] + Pad2(d.second))))
  }

  lemma ClockHeadNoSpace(d: DateTime)
    requires Renderable(d)
    ensures NoSpace(ClockHead(d)) && ClockHead(d) != []
  {
    var colon: string := [':'];
    DigitsNoSpace(Pad2(d.second));
    DigitsNoSpace(Pad2(d.minute));
    DigitsNoSpace(Dec(d.hour));
    NoSpaceConcat(colon, Pad2(d.second));
    NoSpaceConcat(Pad2(d.minute), colon + Pad2(d.second));
    NoSpaceConcat(colon, Pad2(d.minute) + (colon + Pad2(d.second)));
    NoSpaceConcat(Dec(d.hour), colon + (Pad2(d.minute) + (colon + Pad2(d.second))));
  }

  lemma ClockCollapsed(d: DateTime)
    requires Renderable(d)
    ensures IsCollapsed(RenderClock(d)) && RenderClock(d) != []
  {
    var m := Meridian(d.pm);
    assert NoSpace(m) && IsCollapsed(m);
    ClockHeadNoSpace(d);
    assert RenderClock(d) == ClockHead(d) + ([' '] + m);
    JoinCollapsed(ClockHead(d), m);
  }

  lemma YearAndClockCollapsed(d: DateTime)
    requires Renderable(d)
    ensures IsCollapsed(YearAndClock(d)) && YearAndClock(d) != []
  {
    ClockCollapsed(d);
    DigitsNoSpace(Pad4(d.year));
    JoinCollapsed(Pad4(d.year), RenderClock(d));
  }

  lemma DayJoinCollapsed(d: DateTime, tail: string)
    requires Renderable(d) && IsCollapsed(tail) && tail != []
    ensures IsCollapsed((Dec(d.day) + [',']) + ([' '] + tail))
  {
    var comma: string := [','];
    DigitsNoSpace(Dec(d.day));
    NoSpaceConcat(Dec(d.day), comma);
    JoinCollapsed(Dec(d.day) + comma, tail);
  }

  /** Month abbreviations are three characters without whitespace. */
  lemma MonthNamePlain(m: nat)
    requires 1 <= m <= 12
    ensures |MonthNames[m - 1]| == 3 && NoSpace(MonthNames[m - 1])
  {
    var w := MonthNames[m - 1];
    assert forall k :: 0 <= k < 3 ==> 'A' <= w[k] <= 'z';
  }

  lemma RenderedIsCollapsed(d: DateTime)
    requires Renderable(d)
    ensures IsCollapsed(Render(d))
  {
    YearAndClockCollapsed(d);
    DayJoinCollapsed(d, YearAndClock(d));
    MonthNamePlain(d.month);
    JoinCollapsed(MonthNames[d.month - 1], (Dec(d.day) + [',']) + ([' '] + YearAndClock(d)));
  }

  /** A printed date-time converts to its DD/MM/YYYY form when it is a real
      date-time and is echoed unchanged when it is not. */
  lemma {:induction false} ConvertRendered(d: DateTime)
    requires Renderable(d)
    ensures ConvertDateFormat(Render(d)) == if Valid(d) then FormatDdMmYyyy(d) else Render(d)
  {
    RenderedIsCollapsed(d);
    CollapseCollapsed(Render(d));
    ParseRendered(d);
  }

  // ---------------------------------------------------------------------
  // A date-time broken across lines or padded with extra spaces.

  /** The date-time as printed, with each of its four separating spaces
      widened to a whitespace run, as when the text wraps. */
  function Widened(d: DateTime, w1: string, w2: string, w3: string, w4: string): string
    requires Renderable(d)
  {
    MonthNames[d.month - 1] + (w1 + WidenedDay(d, w2, w3, w4))
  }

  function WidenedDay(d: DateTime, w2: string, w3: string, w4: string): string
    requires Renderable(d)
  {
    (Dec(d.day) + [',']) + (w2 + WidenedYear(d, w3, w4))
  }

  function WidenedYear(d: DateTime, w3: string, w4: string): string
    requires Renderable(d)
  {
    Pad4(d.year) + (w3 + WidenedClock(d, w4))
  }

  function WidenedClock(d: DateTime, w4: string): string
    requires Renderable(d)
  {
    ClockHead(d) + (w4 + Meridian(d.pm))
  }

  predicate IsRun(w: string) {
    w != [] && AllSpace(w)
  }

  /** Collapsing a widened date-time gives the date-time as printed. */
  lemma CollapseWidened(d: DateTime, w1: string, w2: string, w3: string, w4: string)
    requires Renderable(d) && IsRun(w1) && IsRun(w2) && IsRun(w3) && IsRun(w4)
    ensures Collapse(Widened(d, w1, w2, w3, w4)) == Render(d)
  {
    var x2 := WidenedDay(d, w2, w3, w4);
    var month := MonthNames[d.month - 1];
    assert Collapse(x2) == (Dec(d.day) + [',']) + ([' '] + YearAndClock(d)) && !IsSpace(x2[0]) by {
      CollapseWidenedDay(d, w2, w3, w4);
    }
    assert Collapse(month + (w1 + x2)) == month + ([' '] + Collapse(x2)) by {
      MonthNamePlain(d.month);
      WordJoin(month, w1, x2);
    }
    RenderShape(d);
  }

  lemma CollapseWidenedDay(d: DateTime, w2: string, w3: string, w4: string)
    requires Renderable(d) && IsRun(w2) && IsRun(w3) && IsRun(w4)
    ensures Collapse(WidenedDay(d, w2, w3, w4)) == (Dec(d.day) + [',']) + ([' '] + YearAndClock(d))
    ensures WidenedDay(d, w2, w3, w4)[0] == Dec(d.day)[0] && IsDigit(Dec(d.day)[0])
  {
    var day := Dec(d.day) + [','];
    var x3 := WidenedYear(d, w3, w4);
    CollapseWidenedYear(d, w3, w4);
    DigitsNoSpace(Dec(d.day));
    NoSpaceConcat(Dec(d.day), [',']);
    WordJoin(day, w2, x3);
  }

  lemma CollapseWidenedYear(d: DateTime, w3: string, w4: string)
    requires Renderable(d) && IsRun(w3) && IsRun(w4)
    ensures Collapse(WidenedYear(d, w3, w4)) == YearAndClock(d)
    ensures WidenedYear(d, w3, w4)[0] == Pad4(d.year)[0] && IsDigit(Pad4(d.year)[0])
  {
    var year := Pad4(d.year);
    var x4 := WidenedClock(d, w4);
    CollapseWidenedClock(d, w4);
    DigitsNoSpace(year);
    WordJoin(year, w3, x4);
  }

  lemma CollapseWidenedClock(d: DateTime, w4: string)
    requires Renderable(d) && IsRun(w4)
    ensures Collapse(WidenedClock(d, w4)) == RenderClock(d)
    ensures WidenedClock(d, w4)[0] == Dec(d.hour)[0] && IsDigit(Dec(d.hour)[0])
  {
    var m := Meridian(d.pm);
    var head := ClockHead(d);
    ClockHeadNoSpace(d);
    assert NoSpace(m) && IsCollapsed(m);
    CollapseCollapsed(m);
    WordJoin(head, w4, m);
    Regroup6(Dec(d.hour), [':'], Pad2(d.minute), [':'], Pad2(d.second), [' '] + m);
  }

  lemma Regroup6<T>(a: seq<T>, b: seq<T>, c: seq<T>, d: seq<T>, e: seq<T>, f: seq<T>)
    ensures a + (b + (c + (d + (e + f)))) == (a + (b + (c + (d + e)))) + f
  {
  }

  /** A date-time broken across lines or spaced out converts as the printed
      one does: to its DD/MM/YYYY form when it is real, and otherwise to the
      collapsed text. */
  lemma ConvertWidened(d: DateTime, w1: string, w2: string, w3: string, w4: string)
    requires Renderable(d) && IsRun(w1) && IsRun(w2) && IsRun(w3) && IsRun(w4)
    ensures ConvertDateFormat(Widened(d, w1, w2, w3, w4))
         == if Valid(d) then FormatDdMmYyyy(d) else Render(d)
  {
    CollapseWidened(d, w1, w2, w3, w4);
    ParseRendered(d);
  }

  lemma RenderShape(d: DateTime)
    requires Renderable(d)
    ensures Render(d) == MonthNames[d.month - 1]
                         + ([' '] + ((Dec(d.day) + [',']) + ([' '] + YearAndClock(d))))
  {
  }

  // Evaluation steps for the two literal examples, ConvertExample and
  // ConvertNoSuchDay: each lemma from here to FormatOctober computes one
  // piece of a concrete rendering, so that no single proof has to evaluate a
  // whole string literal. They state no property of their own.

  lemma DecLiterals()
    ensures Dec(10) == "10" && Dec(11) == "11" && Dec(20) == "20" && Dec(29) == "29"
  {
  }

  lemma PadLiterals()
    ensures Pad2(0) == "00" && Pad2(10) == "10" && Pad2(20) == "20" && Pad2(59) == "59"
  {
  }

  lemma Pad4Literal()
    ensures Pad4(2025) == "2025"
  {
  }

  lemma ClockOctober()
    ensures RenderClock(DateTime(10, 20, 2025, 11, 59, 0, true)) == "11:59:00 PM"
  {
    DecLiterals();
    PadLiterals();
  }

  lemma YearAndClockOctober()
    ensures YearAndClock(DateTime(10, 20, 2025, 11, 59, 0, true)) == "2025 11:59:00 PM"
  {
    ClockOctober();
    Pad4Literal();
  }

  lemma DayPartOctober()
    ensures var d := DateTime(10, 20, 2025, 11, 59, 0, true);
      (Dec(d.day) + [',']) + ([' '] + YearAndClock(d)) == "20, 2025 11:59:00 PM"
  {
    YearAndClockOctober();
    DecLiterals();
  }

  lemma RenderOctober()
    ensures Render(DateTime(10, 20, 2025, 11, 59, 0, true)) == "Oct 20, 2025 11:59:00 PM"
  {
    var d := DateTime(10, 20, 2025, 11, 59, 0, true);
    DayPartOctober();
    RenderShape(d);
    assert MonthNames[d.month - 1] == "Oct";
    JoinOctober();
  }

  lemma JoinOctober()
    ensures "Oct" + ([' '] + "20, 2025 11:59:00 PM") == "Oct 20, 2025 11:59:00 PM"
  {
  }

  lemma ClockFebruary()
    ensures RenderClock(DateTime(2, 29, 2025, 10, 0, 0, false)) == "10:00:00 AM"
  {
    DecLiterals();
    PadLiterals();
  }

  lemma YearAndClockFebruary()
    ensures YearAndClock(DateTime(2, 29, 2025, 10, 0, 0, false)) == "2025 10:00:00 AM"
  {
    ClockFebruary();
    Pad4Literal();
  }

  lemma DayPartFebruary()
    ensures var d := DateTime(2, 29, 2025, 10, 0, 0, false);
      (Dec(d.day) + [',']) + ([' '] + YearAndClock(d)) == "29, 2025 10:00:00 AM"
  {
    YearAndClockFebruary();
    DecLiterals();
  }

  lemma RenderFebruary()
    ensures Render(DateTime(2, 29, 2025, 10, 0, 0, false)) == "Feb 29, 2025 10:00:00 AM"
  {
    var d := DateTime(2, 29, 2025, 10, 0, 0, false);
    DayPartFebruary();
    RenderShape(d);
    assert MonthNames[d.month - 1] == "Feb";
    JoinFebruary();
  }

  lemma JoinFebruary()
    ensures "Feb" + ([' '] + "29, 2025 10:00:00 AM") == "Feb 29, 2025 10:00:00 AM"
  {
  }

  lemma FormatOctober()
    ensures FormatDdMmYyyy(DateTime(10, 20, 2025, 11, 59, 0, true)) == "20/10/2025"
  {
    PadLiterals();
    Pad4Literal();
  }

  /** Text the reader refuses is echoed back once collapsed. */
  lemma ConvertEchoes(s: string)
    requires IsCollapsed(s) && ParseDate(s).None?
    ensures ConvertDateFormat(s) == s
  {
    CollapseCollapsed(s);
  }

  /** A printed real date-time becomes its DD/MM/YYYY form. */
  lemma ConvertValid(d: DateTime)
    requires Renderable(d) && Valid(d)
    ensures ConvertDateFormat(Render(d)) == FormatDdMmYyyy(d)
  {
    ConvertRendered(d);
  }

  /** A printed date-time that is not a real one is echoed back. */
  lemma ConvertInvalid(d: DateTime)
    requires Renderable(d) && !Valid(d)
    ensures ConvertDateFormat(Render(d)) == Render(d)
  {
    ConvertRendered(d);
  }

  lemma ConvertOctober()
    ensures ConvertDateFormat(Render(DateTime(10, 20, 2025, 11, 59, 0, true))) == "20/10/2025"
  {
    var d := DateTime(10, 20, 2025, 11, 59, 0, true);
    FormatOctober();
    ConvertValid(d);
  }

  /** The documented example: "Oct 20, 2025 11:59:00 PM" gives "20/10/2025". */
  lemma ConvertExample()
    ensures ConvertDateFormat("Oct 20, 2025 11:59:00 PM") == "20/10/2025"
  {
    ConvertOctober();
    RenderOctober();
  }

  /** Text that is not a date at all is echoed back. */
  lemma ConvertGarbage()
    ensures ConvertDateFormat("garbage") == "garbage"
  {
    assert ParseDate("garbage").None?;
    assert IsCollapsed("garbage");
    ConvertEchoes("garbage");
  }

  lemma ConvertFebruary()
    ensures ConvertDateFormat(Render(DateTime(2, 29, 2025, 10, 0, 0, false)))
         == Render(DateTime(2, 29, 2025, 10, 0, 0, false))
  {
    var d := DateTime(2, 29, 2025, 10, 0, 0, false);
    assert !Valid(d);
    ConvertInvalid(d);
  }

  /** A day that does not exist (2025 is not a leap year) is echoed back
      instead of failing. */
  lemma ConvertNoSuchDay()
    ensures ConvertDateFormat("Feb 29, 2025 10:00:00 AM") == "Feb 29, 2025 10:00:00 AM"
  {
    ConvertFebruary();
    RenderFebruary();
  }
}
