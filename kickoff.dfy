/** The kickoff conversion of `MatchInfo`: the provider's label, minus its
    last four characters (the time-zone suffix), is read with the pattern
    "%a %d %b %Y, %H:%M" and the date is written back as "%d/%m/%Y".

    The grammar is the one that pattern accepts, restricted to English
    three-letter names in their usual capitalisation, ASCII digits and
    single spaces. */
module Kickoff {
  import opened Wrappers
  import opened Decimal

  const Weekdays: seq<string> := ["Mon", "Tue", "Wed", "Thu", "Fri", "Sat", "Sun"]
  const Months: seq<string> :=
    ["Jan", "Feb", "Mar", "Apr", "May", "Jun", "Jul", "Aug", "Sep", "Oct", "Nov", "Dec"]

  /** What the pattern captures: weekday index (0 is Monday), day of month,
      month (1 is January), year, hour and minute. */
  datatype Moment = Moment(weekday: nat, day: nat, month: nat, year: nat, hour: nat, minute: nat)

  predicate IsLeap(year: nat)
  {
    year % 4 == 0 && (year % 100 != 0 || year % 400 == 0)
  }

  function DaysInMonth(month: nat, year: nat): nat
    requires 1 <= month <= 12
  {
    if month == 2 then (if IsLeap(year) then 29 else 28)
    else if month in {4, 6, 9, 11} then 30
    else 31
  }

  /** A moment whose fields fit the widths of the label's numeric fields. */
  predicate Shaped(k: Moment)
  {
    k.weekday < 7 && 1 <= k.month <= 12 && k.day < 100 && k.year < 10000 && k.hour < 100 && k.minute < 100
  }

  /** A moment `datetime` accepts: years 1 to 9999, a day that exists in its
      month, a time of day. The weekday is not checked against the date. */
  predicate Valid(k: Moment)
  {
    && k.weekday < 7
    && 1 <= k.month <= 12
    && 1 <= k.year <= 9999
    && 1 <= k.day <= DaysInMonth(k.month, k.year)
    && k.hour < 24
    && k.minute < 60
  }

  /** A piece read off the front of the text and what is left after it. */
  datatype Token = Token(value: nat, width: nat, rest: string)

  /** The position of `w` in `names`, or `|names|`. */
  function IndexOf(names: seq<string>, w: string): (i: nat)
    ensures i <= |names|
    ensures i < |names| ==> names[i] == w
  {
    if names == [] then 0
    else if names[0] == w then 0
    else 1 + IndexOf(names[1..], w)
  }

  /** `%a` or `%b`: a three-letter name from `names`. */
  function Name(t: string, names: seq<string>): (r: Option<Token>)
    ensures r.Some? ==> r.value.value < |names|
  {
    if |t| < 3 then None
    else
      var i := IndexOf(names, t[..3]);
      if i < |names| then Some(Token(i, 3, t[3..])) else None
  }

  /** A fixed piece of the pattern. */
  function Literal(t: string, lit: string): Option<string>
  {
    if |lit| <= |t| && t[..|lit|] == lit then Some(t[|lit|..]) else None
  }

  /** How many digits, at most `most`, `t` starts with. */
  function LeadingDigits(t: string, most: nat): (n: nat)
    ensures n <= most && n <= |t|
    ensures AllDigits(t[..n])
  {
    if most == 0 || t == [] || !IsDigit(t[0]) then 0
    else
      var n := 1 + LeadingDigits(t[1..], most - 1);
      assert t[..n] == [t[0]] + t[1..][..n - 1];
      n
  }

  /** A number of one to `most` digits, taken greedily. The pattern's
      numeric fields are always followed by a non-digit or the end, so
      taking the longest run accepts exactly what the pattern accepts. */
  function Number(t: string, most: nat): (r: Option<Token>)
    ensures r.Some? ==> r.value.value < Pow10(most)
  {
    var n := LeadingDigits(t, most);
    if n == 0 then None
    else
      ValueBound(t[..n], most);
      Some(Token(Value(t[..n]), n, t[n..]))
  }

  /** `s` writes `n` in one to `most` ASCII digits, leading zeros allowed. */
  predicate Spells(s: string, n: nat, most: nat)
  {
    1 <= |s| <= most && AllDigits(s) && Value(s) == n
  }

  /** The date part "%a %d %b %Y": weekday, day, month and year, and the
      text after them. */
  datatype DatePart = DatePart(weekday: nat, day: nat, month: nat, year: nat, rest: string)

  function ParseDatePart(t: string): (r: Option<DatePart>)
    ensures r.Some? ==> r.value.weekday < 7 && r.value.day < 100 && 1 <= r.value.month <= 12 && r.value.year < 10000
  {
    var w :- Name(t, Weekdays);
    var t1 :- Literal(w.rest, " ");
    var d :- Number(t1, 2);
    var t2 :- Literal(d.rest, " ");
    var my :- ParseMonthYear(t2);
    Some(DatePart(w.value, d.value, my.month, my.year, my.rest))
  }

  /** "%b %Y": month and four-digit year, and the text after them. */
  datatype MonthYear = MonthYear(month: nat, year: nat, rest: string)

  function ParseMonthYear(t: string): (r: Option<MonthYear>)
    ensures r.Some? ==> 1 <= r.value.month <= 12 && r.value.year < 10000
  {
    var m :- Name(t, Months);
    var t3 :- Literal(m.rest, " ");
    var y :- Number(t3, 4);
    if y.width == 4 then Some(MonthYear(m.value + 1, y.value, y.rest)) else None
  }

  /** The time part ", %H:%M", which must end the text: hour and minute. */
  function ParseClock(t: string): (r: Option<(nat, nat)>)
    ensures r.Some? ==> r.value.0 < 100 && r.value.1 < 100
  {
    var t4 :- Literal(t, ", ");
    var h :- Number(t4, 2);
    var t5 :- Literal(h.rest, ":");
    var mi :- Number(t5, 2);
    if mi.rest == [] then Some((h.value, mi.value)) else None
  }

  /** The fields `strptime` captures with the pattern "%a %d %b %Y, %H:%M",
      before `datetime` checks them; None where the text does not match. */
  function ParseFields(t: string): (r: Option<Moment>)
    ensures r.Some? ==> Shaped(r.value)
  {
    var date :- ParseDatePart(t);
    var clock :- ParseClock(date.rest);
    Some(Moment(date.weekday, date.day, date.month, date.year, clock.0, clock.1))
  }

  /** `strptime(t, "%a %d %b %Y, %H:%M")`, or None where it raises. */
  function ParseMoment(t: string): (r: Option<Moment>)
    ensures r.Some? ==> Valid(r.value)
  {
    var k :- ParseFields(t);
    if Valid(k) then Some(k) else None
  }

  /** Two digits with a leading zero, as `%d`, `%m`, `%H` and `%M` print. */
  function Pad2(n: nat): string
    requires n < 100
  {
    [DigitChar(n / 10), DigitChar(n % 10)]
  }

  /** Four digits with leading zeros. */
  function Pad4(n: nat): string
    requires n < 10000
  {
    [DigitChar(n / 1000), DigitChar(n / 100 % 10), DigitChar(n / 10 % 10), DigitChar(n % 10)]
  }

  /** The label text (without the zone) for a moment, in the provider's layout. */
  function Render(k: Moment): string
    requires Shaped(k)
  {
    var clock := Pad2(k.hour) + (":" + Pad2(k.minute));
    var year := Pad4(k.year) + (", " + clock);
    var month := Months[k.month - 1] + (" " + year);
    Weekdays[k.weekday] + (" " + (Pad2(k.day) + (" " + month)))
  }

  /** `t` is `k` written in the pattern "%a %d %b %Y, %H:%M", with `day`,
      `year`, `hour` and `minute` as the digits of the numeric fields: one or
      two digits for day, hour and minute, exactly four for the year. */
  predicate Layout(t: string, k: Moment, day: string, year: string, hour: string, minute: string)
  {
    && k.weekday < 7 && 1 <= k.month <= 12
    && Spells(day, k.day, 2) && |year| == 4 && Spells(year, k.year, 4)
    && Spells(hour, k.hour, 2) && Spells(minute, k.minute, 2)
    && t == Weekdays[k.weekday] + (" " + (day + (" " + (Months[k.month - 1] + (" " +
              (year + (", " + (hour + (":" + minute)))))))))
  }

  /** `t` is one of the ways of writing `k` in the pattern. */
  ghost predicate Written(t: string, k: Moment)
  {
    exists day, year, hour, minute :: Layout(t, k, day, year, hour, minute)
  }

  /** `strftime("%d/%m/%Y")` of the parsed moment. */
  function DateText(k: Moment): (s: string)
    requires Valid(k)
    ensures IsDateText(s)
  {
    var s := Pad2(k.day) + "/" + Pad2(k.month) + "/" + Pad4(k.year);
    assert s[..2] == Pad2(k.day) && s[3..5] == Pad2(k.month) && s[6..] == Pad4(k.year);
    s
  }

  /** The shape "DD/MM/YYYY". */
  predicate IsDateText(s: string)
  {
    && |s| == 10 && s[2] == '/' && s[5] == '/'
    && AllDigits(s[..2]) && AllDigits(s[3..5]) && AllDigits(s[6..])
  }

  /** The kickoff conversion of `MatchInfo`: drop the last four characters
      (Python's `label[:-4]` leaves nothing of a shorter label), parse, and
      write the date as DD/MM/YYYY. None stands for the ValueError. */
  function KickoffDate(text: string): (r: Option<string>)
    ensures r.Some? ==> IsDateText(r.value)
  {
    var t := if |text| >= 4 then text[..|text| - 4] else "";
    var k :- ParseMoment(t);
    Some(DateText(k))
  }

  /** The digit run stops where the digits do, or at the field's width. */
  lemma {:induction false} DigitsRead(p: string, rest: string, most: nat)
    requires AllDigits(p) && |p| <= most
    requires |p| == most || rest == [] || !IsDigit(rest[0])
    ensures LeadingDigits(p + rest, most) == |p|
  {
    if p == [] {
      assert p + rest == rest;
    } else {
      assert (p + rest)[1..] == p[1..] + rest;
      DigitsRead(p[1..], rest, most - 1);
    }
  }

  lemma NumberReads(p: string, rest: string, most: nat)
    requires AllDigits(p) && 1 <= |p| <= most
    requires |p| == most || rest == [] || !IsDigit(rest[0])
    ensures Number(p + rest, most) == Some(Token(Value(p), |p|, rest))
  {
    DigitsRead(p, rest, most);
    assert (p + rest)[..|p|] == p && (p + rest)[|p|..] == rest;
  }

  lemma ValuePad2(n: nat)
    requires n < 100
    ensures AllDigits(Pad2(n)) && Value(Pad2(n)) == n
  {
    ValueAppend([], DigitChar(n / 10));
    ValueAppend([DigitChar(n / 10)], DigitChar(n % 10));
    assert [] + [DigitChar(n / 10)] == [DigitChar(n / 10)];
    assert [DigitChar(n / 10)] + [DigitChar(n % 10)] == Pad2(n);
  }

  lemma ValuePad4(n: nat)
    requires n < 10000
    ensures AllDigits(Pad4(n)) && Value(Pad4(n)) == n
  {
    var a, b, c, d := DigitChar(n / 1000), DigitChar(n / 100 % 10), DigitChar(n / 10 % 10), DigitChar(n % 10);
    assert n / 100 == n / 1000 * 10 + n / 100 % 10;
    assert n / 10 == n / 100 * 10 + n / 10 % 10;
    assert n == n / 10 * 10 + n % 10;
    ValueAppend([], a);
    ValueAppend([a], b);
    ValueAppend([a, b], c);
    ValueAppend([a, b, c], d);
    assert [] + [a] == [a];
    assert [a] + [b] == [a, b];
    assert [a, b] + [c] == [a, b, c];
    assert [a, b, c] + [d] == Pad4(n);
  }

  lemma NameReads(names: seq<string>, i: nat, rest: string)
    requires i < |names|
    requires forall j :: 0 <= j < |names| ==> |names[j]| == 3
    requires forall j, l :: 0 <= j < l < |names| ==> names[j] != names[l]
    ensures Name(names[i] + rest, names) == Some(Token(i, 3, rest))
  {
    var t := names[i] + rest;
    assert t[..3] == names[i];
    IndexOfDistinct(names, i);
  }

  lemma {:induction false} IndexOfDistinct(names: seq<string>, i: nat)
    requires i < |names|
    requires forall j, l :: 0 <= j < l < |names| ==> names[j] != names[l]
    ensures IndexOf(names, names[i]) == i
  {
    if i > 0 {
      assert names[0] != names[i];
      IndexOfDistinct(names[1..], i - 1);
    }
  }

  lemma LiteralReads(lit: string, rest: string)
    ensures Literal(lit + rest, lit) == Some(rest)
  {
    assert (lit + rest)[..|lit|] == lit;
  }

  /** Parsing what `Render` writes gives the moment back when `datetime`
      accepts it, and fails otherwise. */
  lemma ParseRender(k: Moment)
    requires Shaped(k)
    ensures ParseMoment(Render(k)) == if Valid(k) then Some(k) else None
  {
    FieldsRender(k);
  }

  lemma FieldsRender(k: Moment)
    requires Shaped(k)
    ensures ParseFields(Render(k)) == Some(k)
  {
    ValuePad2(k.day);
    ValuePad4(k.year);
    ValuePad2(k.hour);
    ValuePad2(k.minute);
    WrittenIsParsed(Render(k), k, Pad2(k.day), Pad4(k.year), Pad2(k.hour), Pad2(k.minute));
  }

  /** Both name tables hold distinct three-letter names. */
  lemma TablesWellFormed()
    ensures forall j :: 0 <= j < |Weekdays| ==> |Weekdays[j]| == 3
    ensures forall j, l :: 0 <= j < l < |Weekdays| ==> Weekdays[j] != Weekdays[l]
    ensures forall j :: 0 <= j < |Months| ==> |Months[j]| == 3
    ensures forall j, l :: 0 <= j < l < |Months| ==> Months[j] != Months[l]
  {
  }

  lemma DateReads(k: Moment, day: string, year: string, after: string)
    requires k.weekday < 7 && 1 <= k.month <= 12
    requires Spells(day, k.day, 2) && |year| == 4 && Spells(year, k.year, 4)
    ensures ParseDatePart(Weekdays[k.weekday] + (" " + (day + (" " + (Months[k.month - 1] + (" " + (year + after)))))))
      == Some(DatePart(k.weekday, k.day, k.month, k.year, after))
  {
    var m0 := Months[k.month - 1] + (" " + (year + after));
    var d1 := " " + m0;
    var d0 := day + d1;
    var w1 := " " + d0;
    WeekdayReads(k.weekday, w1);
    LiteralReads(" ", d0);
    NumberReads(day, d1, 2);
    LiteralReads(" ", m0);
    MonthYearReads(k.month, year, k.year, after);
  }

  lemma MonthYearReads(month: nat, year: string, y: nat, after: string)
    requires 1 <= month <= 12 && |year| == 4 && Spells(year, y, 4)
    ensures ParseMonthYear(Months[month - 1] + (" " + (year + after))) == Some(MonthYear(month, y, after))
  {
    var s1 := " " + (year + after);
    MonthReads(month - 1, s1);
    LiteralReads(" ", year + after);
    NumberReads(year, after, 4);
  }

  lemma WeekdayReads(i: nat, rest: string)
    requires i < 7
    ensures Name(Weekdays[i] + rest, Weekdays) == Some(Token(i, 3, rest))
  {
    TablesWellFormed();
    NameReads(Weekdays, i, rest);
  }

  lemma MonthReads(i: nat, rest: string)
    requires i < 12
    ensures Name(Months[i] + rest, Months) == Some(Token(i, 3, rest))
  {
    TablesWellFormed();
    NameReads(Months, i, rest);
  }

  lemma ClockReads(h: nat, m: nat, hour: string, minute: string)
    requires Spells(hour, h, 2) && Spells(minute, m, 2)
    ensures ParseClock(", " + (hour + (":" + minute))) == Some((h, m))
  {
    var s5 := ":" + minute;
    var s4 := hour + s5;
    LiteralReads(", ", s4);
    NumberReads(hour, s5, 2);
    LiteralReads(":", minute);
    NumberReads(minute, [], 2);
    assert minute + [] == minute;
  }

  /** Every way of writing a moment in the pattern is read back as that
      moment: single-digit days, hours and minutes are accepted as well as
      zero-padded ones. */
  lemma WrittenIsParsed(t: string, k: Moment, day: string, year: string, hour: string, minute: string)
    requires Layout(t, k, day, year, hour, minute)
    ensures ParseFields(t) == Some(k)
  {
    DateReads(k, day, year, ", " + (hour + (":" + minute)));
    ClockReads(k.hour, k.minute, hour, minute);
  }

  /** What each piece of the parser accepted is a prefix of its input. */
  lemma NameParsed(t: string, names: seq<string>)
    requires Name(t, names).Some?
    ensures var w := Name(t, names).value; t == names[w.value] + w.rest
  {
    assert t == t[..3] + t[3..];
  }

  lemma LiteralParsed(t: string, lit: string)
    requires Literal(t, lit).Some?
    ensures t == lit + Literal(t, lit).value
  {
    assert t == t[..|lit|] + t[|lit|..];
  }

  lemma NumberParsed(t: string, most: nat)
    requires Number(t, most).Some?
    ensures var n := Number(t, most).value;
      && n.width <= |t| && Spells(t[..n.width], n.value, most) && t == t[..n.width] + n.rest
  {
    var n := LeadingDigits(t, most);
    assert t == t[..n] + t[n..];
  }

  /** The digits the date part took, and the text it consumed. */
  lemma DateParsed(t: string) returns (day: string, year: string)
    requires ParseDatePart(t).Some?
    ensures var p := ParseDatePart(t).value;
      && Spells(day, p.day, 2) && |year| == 4 && Spells(year, p.year, 4)
      && t == Weekdays[p.weekday] + (" " + (day + (" " + (Months[p.month - 1] + (" " + (year + p.rest))))))
  {
    var w := Name(t, Weekdays).value;
    NameParsed(t, Weekdays);
    var t1 := Literal(w.rest, " ").value;
    LiteralParsed(w.rest, " ");
    var d := Number(t1, 2).value;
    NumberParsed(t1, 2);
    var t2 := Literal(d.rest, " ").value;
    LiteralParsed(d.rest, " ");
    day := t1[..d.width];
    year := MonthYearParsed(t2);
  }

  lemma MonthYearParsed(t: string) returns (year: string)
    requires ParseMonthYear(t).Some?
    ensures var p := ParseMonthYear(t).value;
      |year| == 4 && Spells(year, p.year, 4) && t == Months[p.month - 1] + (" " + (year + p.rest))
  {
    var m := Name(t, Months).value;
    NameParsed(t, Months);
    var t3 := Literal(m.rest, " ").value;
    LiteralParsed(m.rest, " ");
    var y := Number(t3, 4).value;
    NumberParsed(t3, 4);
    year := t3[..y.width];
  }

  /** The digits the time part took, and the text it consumed. */
  lemma ClockParsed(t: string) returns (hour: string, minute: string)
    requires ParseClock(t).Some?
    ensures var c := ParseClock(t).value;
      Spells(hour, c.0, 2) && Spells(minute, c.1, 2) && t == ", " + (hour + (":" + minute))
  {
    var t4 := Literal(t, ", ").value;
    LiteralParsed(t, ", ");
    var h := Number(t4, 2).value;
    NumberParsed(t4, 2);
    var t5 := Literal(h.rest, ":").value;
    LiteralParsed(h.rest, ":");
    var mi := Number(t5, 2).value;
    NumberParsed(t5, 2);
    hour, minute := t4[..h.width], t5[..mi.width];
    assert mi.rest == [];
    assert minute + [] == minute;
  }

  /** The moment `ParseFields` builds from its two parts. */
  lemma FieldsParsed(t: string)
    requires ParseFields(t).Some?
    ensures ParseDatePart(t).Some? && ParseClock(ParseDatePart(t).value.rest).Some?
    ensures var p := ParseDatePart(t).value; var c := ParseClock(p.rest).value;
      ParseFields(t).value == Moment(p.weekday, p.day, p.month, p.year, c.0, c.1)
  {
  }

  /** Whatever the parser accepts is a moment written in the pattern. */
  lemma ParsedIsWritten(t: string, k: Moment)
    requires ParseFields(t) == Some(k)
    ensures Written(t, k)
  {
    FieldsParsed(t);
    var p := ParseDatePart(t).value;
    var day, year := DateParsed(t);
    var hour, minute := ClockParsed(p.rest);
    assert Layout(t, k, day, year, hour, minute);
  }

  /** The parser accepts exactly the texts that write a moment in the
      pattern, and reads each as the moment it writes. */
  lemma ParseFieldsExactly(t: string, k: Moment)
    ensures ParseFields(t) == Some(k) <==> Written(t, k)
  {
    if ParseFields(t) == Some(k) {
      ParsedIsWritten(t, k);
    }
    if Written(t, k) {
      var day, year, hour, minute :| Layout(t, k, day, year, hour, minute);
      WrittenIsParsed(t, k, day, year, hour, minute);
    }
  }

  /** A text writes at most one moment: the label is never ambiguous. */
  lemma WrittenDetermines(t: string, k1: Moment, k2: Moment)
    requires Written(t, k1) && Written(t, k2)
    ensures k1 == k2
  {
    ParseFieldsExactly(t, k1);
    ParseFieldsExactly(t, k2);
  }

  /** The conversion succeeds exactly on labels whose text before the last
      four characters writes a moment `datetime` accepts, and yields that
      moment's date. Anything else is refused. */
  lemma KickoffDateExactly(text: string, d: string)
    ensures KickoffDate(text) == Some(d) <==>
      |text| >= 4 && exists k :: Valid(k) && Written(text[..|text| - 4], k) && d == DateText(k)
  {
    var t := if |text| >= 4 then text[..|text| - 4] else "";
    if KickoffDate(text) == Some(d) {
      var k := ParseMoment(t).value;
      ParseFieldsExactly(t, k);
      assert |text| >= 4;
    }
    if |text| >= 4 && exists k :: Valid(k) && Written(text[..|text| - 4], k) && d == DateText(k) {
      var k :| Valid(k) && Written(t, k) && d == DateText(k);
      ParseFieldsExactly(t, k);
    }
  }

  /** Whatever four-character zone follows the label, the conversion yields
      the moment's date as DD/MM/YYYY. */
  lemma KickoffRoundTrip(k: Moment, zone: string)
    requires Valid(k) && |zone| == 4
    ensures KickoffDate(Render(k) + zone) == Some(DateText(k))
  {
    var text := Render(k) + zone;
    assert text[..|text| - 4] == Render(k);
    ParseRender(k);
  }

  /** The weekday name is read but never checked against the date. */
  lemma WeekdayIgnored(k: Moment, weekday: nat, zone: string)
    requires Valid(k) && weekday < 7 && |zone| == 4
    ensures KickoffDate(Render(k.(weekday := weekday)) + zone) == KickoffDate(Render(k) + zone)
  {
    KickoffRoundTrip(k, zone);
    KickoffRoundTrip(k.(weekday := weekday), zone);
  }

  /** Reading "DD/MM/YYYY" back gives the day, month and year of the moment. */
  lemma DateTextReads(k: Moment)
    requires Valid(k)
    ensures var s := DateText(k); Value(s[..2]) == k.day && Value(s[3..5]) == k.month && Value(s[6..]) == k.year
  {
    ValuePad2(k.day);
    ValuePad2(k.month);
    ValuePad4(k.year);
  }

  /** A label that has the provider's layout but names a day its month
      does not have is refused, as `datetime` refuses it. */
  lemma NoSuchDayRefused(k: Moment, zone: string)
    requires Shaped(k) && !Valid(k) && |zone| == 4
    ensures KickoffDate(Render(k) + zone) == None
  {
    var text := Render(k) + zone;
    assert text[..|text| - 4] == Render(k);
    ParseRender(k);
  }

  lemma SaturdayAfternoonPieces(k: Moment)
    requires k == Moment(5, 14, 8, 2022, 15, 0)
    ensures Weekdays[k.weekday] == "Sat" && Months[k.month - 1] == "Aug"
    ensures Pad2(k.day) == "14" && Pad2(k.month) == "08" && Pad4(k.year) == "2022"
    ensures Pad2(k.hour) == "15" && Pad2(k.minute) == "00"
  {
  }

  lemma SaturdayAfternoonText(k: Moment)
    requires k == Moment(5, 14, 8, 2022, 15, 0)
    ensures Render(k) == "Sat 14 Aug 2022, 15:00" && DateText(k) == "14/08/2022"
  {
    SaturdayAfternoonPieces(k);
  }

  /** A label whose text before the zone is the rendering of a valid moment
      converts to that moment's date. */
  lemma LabelConverts(k: Moment, text: string)
    requires Valid(k) && |text| >= 4 && text[..|text| - 4] == Render(k)
    ensures KickoffDate(text) == Some(DateText(k))
  {
    ParseRender(k);
  }

  /** The provider's usual label. */
  lemma SaturdayAfternoon()
    ensures KickoffDate("Sat 14 Aug 2022, 15:00 BST") == Some("14/08/2022")
  {
    var k := Moment(5, 14, 8, 2022, 15, 0);
    var given := "Sat 14 Aug 2022, 15:00 BST";
    SaturdayAfternoonText(k);
    assert given[..22] == Render(k);
    LabelConverts(k, given);
  }

  lemma LeapDayPieces(k: Moment)
    requires k == Moment(0, 29, 2, 2022, 15, 0)
    ensures Weekdays[k.weekday] == "Mon" && Months[k.month - 1] == "Feb"
    ensures Pad2(k.day) == "29" && Pad4(k.year) == "2022"
    ensures Pad2(k.hour) == "15" && Pad2(k.minute) == "00"
  {
  }

  lemma LeapDayText(k: Moment)
    requires k == Moment(0, 29, 2, 2022, 15, 0)
    ensures Render(k) == "Mon 29 Feb 2022, 15:00"
  {
    LeapDayPieces(k);
  }

  /** 2022 is not a leap year, so its 29 February is refused. */
  lemma NoLeapDayIn2022()
    ensures KickoffDate("Mon 29 Feb 2022, 15:00 GMT") == None
  {
    var k := Moment(0, 29, 2, 2022, 15, 0);
    var given := "Mon 29 Feb 2022, 15:00 GMT";
    LeapDayText(k);
    assert given[..22] == Render(k);
    LabelRefused(k, given);
  }

  /** A label whose text before the zone is the rendering of a moment
      `datetime` rejects is refused. */
  lemma LabelRefused(k: Moment, text: string)
    requires Shaped(k) && !Valid(k) && |text| >= 4 && text[..|text| - 4] == Render(k)
    ensures KickoffDate(text) == None
  {
    ParseRender(k);
  }

  /** A label whose first word is not a weekday abbreviation does not match. */
  lemma UnknownWeekdayRefused()
    ensures KickoffDate("Sab 14 Aug 2022, 15:00 BST") == None
  {
    var given := "Sab 14 Aug 2022, 15:00 BST";
    assert given[..22][..3] == given[..3] == "Sab";
    assert IndexOf(Weekdays, "Sab") == 7;
  }
}
