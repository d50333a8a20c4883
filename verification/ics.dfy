/**
 * The one-event iCalendar file a participant can download: text escaping as in section 3.3.11
 * of RFC 5545, the description with its price line, and the fourteen content lines, each ended
 * by CRLF as in section 3.1 of RFC 5545.
 */
module Ics {
  import opened Wrappers
  import opened Text
  import opened Calendar
  import opened Store
  import opened Callbacks

  // ---------------------------------------------------------------- escaping

  /** `s.replace(c, with)` for a one-character pattern. */
  function ReplaceChar(s: string, c: char, with: string): (r: string)
    ensures c !in with ==> c !in r
    ensures forall d :: d in r ==> d in s || d in with
  {
    if s == [] then [] else (if s[0] == c then with else [s[0]]) + ReplaceChar(s[1..], c, with)
  }

  lemma {:induction false} ReplaceCharAppend(a: string, b: string, c: char, with: string)
    ensures ReplaceChar(a + b, c, with) == ReplaceChar(a, c, with) + ReplaceChar(b, c, with)
  {
    if a == [] {
      assert a + b == b;
    } else {
      assert (a + b)[0] == a[0] && (a + b)[1..] == a[1..] + b;
      ReplaceCharAppend(a[1..], b, c, with);
    }
  }

  lemma ReplaceOne(d: char, c: char, with: string)
    ensures ReplaceChar([d], c, with) == if d == c then with else [d]
  {
    assert [d][1..] == [];
  }

  lemma ReplacePair(d: char, e: char, c: char, with: string)
    ensures ReplaceChar([d, e], c, with) == ReplaceChar([d], c, with) + ReplaceChar([e], c, with)
  {
    assert [d, e] == [d] + [e];
    ReplaceCharAppend([d], [e], c, with);
  }

  /** `_escape_ics_text`: backslash first, then semicolon, comma and line feed. */
  function EscapeText(value: string): string {
    ReplaceChar(ReplaceChar(ReplaceChar(ReplaceChar(value, '\\', "\\\\"), ';', "\\;"), ',', "\\,"), '\n', "\\n")
  }

  /** The escape of a single character, as section 3.3.11 of RFC 5545 writes it. */
  function EscapeChar(c: char): (r: string)
    ensures 1 <= |r| <= 2 && '\n' !in r
    ensures |r| == 2 <==> c in {'\\', ';', ',', '\n'}
    ensures |r| == 2 ==> r[0] == '\\'
    ensures |r| == 1 ==> r == [c]
  {
    if c == '\\' then "\\\\" else if c == ';' then "\\;" else if c == ',' then "\\," else if c == '\n' then "\\n" else [c]
  }

  /** Escaping character by character. */
  function EscapeEach(s: string): (r: string)
    ensures '\n' !in r
    ensures forall i :: 0 <= i < |r| && (r[i] == ';' || r[i] == ',') ==> i > 0 && r[i - 1] == '\\'
  {
    if s == [] then []
    else
      var head := EscapeChar(s[0]);
      var rest := EscapeEach(s[1..]);
      assert forall i :: |head| <= i < |head + rest| ==> (head + rest)[i] == rest[i - |head|];
      head + rest
  }

  /** The four chained replacements escape each character on its own: no replacement sees another's output. */
  lemma {:induction false} EscapeSinglePass(s: string)
    ensures EscapeText(s) == EscapeEach(s)
  {
    if s != [] {
      var c, rest := s[0], s[1..];
      assert s == [c] + rest;
      ReplaceCharAppend([c], rest, '\\', "\\\\");
      var a1, b1 := ReplaceChar([c], '\\', "\\\\"), ReplaceChar(rest, '\\', "\\\\");
      ReplaceCharAppend(a1, b1, ';', "\\;");
      var a2, b2 := ReplaceChar(a1, ';', "\\;"), ReplaceChar(b1, ';', "\\;");
      ReplaceCharAppend(a2, b2, ',', "\\,");
      var a3, b3 := ReplaceChar(a2, ',', "\\,"), ReplaceChar(b2, ',', "\\,");
      ReplaceCharAppend(a3, b3, '\n', "\\n");
      assert ReplaceChar(a3, '\n', "\\n") == EscapeChar(c) by {
        SingleCharEscape(c);
      }
      EscapeSinglePass(rest);
    }
  }

  lemma SingleCharEscape(c: char)
    ensures ReplaceChar(ReplaceChar(ReplaceChar(ReplaceChar([c], '\\', "\\\\"), ';', "\\;"), ',', "\\,"), '\n', "\\n")
      == EscapeChar(c)
  {
    ReplaceOne(c, '\\', "\\\\");
    if c == '\\' {
      BackslashPairUntouched();
    } else {
      ReplaceOne(c, ';', "\\;");
      if c == ';' {
        assert "\\;" == ['\\', ';'];
        ReplacePair('\\', ';', ',', "\\,");
        ReplaceOne('\\', ',', "\\,");
        ReplaceOne(';', ',', "\\,");
        ReplacePair('\\', ';', '\n', "\\n");
        ReplaceOne('\\', '\n', "\\n");
        ReplaceOne(';', '\n', "\\n");
      } else {
        ReplaceOne(c, ',', "\\,");
        if c == ',' {
          assert "\\," == ['\\', ','];
          ReplacePair('\\', ',', '\n', "\\n");
          ReplaceOne('\\', '\n', "\\n");
          ReplaceOne(',', '\n', "\\n");
        } else {
          ReplaceOne(c, '\n', "\\n");
        }
      }
    }
  }

  /** An escaped backslash passes the three later replacements unchanged. */
  lemma BackslashPairUntouched()
    ensures ReplaceChar(ReplaceChar(ReplaceChar("\\\\", ';', "\\;"), ',', "\\,"), '\n', "\\n") == "\\\\"
  {
    var d := '\\';
    assert "\\\\" == [d, d];
    ReplacePair(d, d, ';', "\\;");
    ReplaceOne(d, ';', "\\;");
    ReplacePair(d, d, ',', "\\,");
    ReplaceOne(d, ',', "\\,");
    ReplacePair(d, d, '\n', "\\n");
    ReplaceOne(d, '\n', "\\n");
  }

  /** The value an escaped text stands for: a backslash pair gives one character. */
  function Unescape(s: string): string
  {
    if s == [] then []
    else if s[0] == '\\' && |s| >= 2 then
      (if s[1] == 'n' then "\n" else [s[1]]) + Unescape(s[2..])
    else [s[0]] + Unescape(s[1..])
  }

  lemma {:induction false} UnescapeEscapeEach(s: string)
    ensures Unescape(EscapeEach(s)) == s
  {
    if s != [] {
      var head := EscapeChar(s[0]);
      var rest := EscapeEach(s[1..]);
      UnescapeEscapeEach(s[1..]);
      assert (head + rest)[|head|..] == rest;
      if |head| == 2 {
        assert (head + rest)[0] == '\\' && (head + rest)[1] == head[1];
      } else {
        assert (head + rest)[0] == s[0];
      }
    }
  }

  /** Escaping loses nothing: unescaping gives the text back. */
  lemma EscapeRoundTrip(s: string)
    ensures Unescape(EscapeText(s)) == s
  {
    EscapeSinglePass(s);
    UnescapeEscapeEach(s);
  }

  /** Distinct texts have distinct escapes. */
  lemma EscapeInjective(a: string, b: string)
    requires EscapeText(a) == EscapeText(b)
    ensures a == b
  {
    EscapeRoundTrip(a);
    EscapeRoundTrip(b);
  }

  /** An escaped text has no line feed, and every semicolon or comma in it follows a backslash. */
  lemma EscapedHasNoBareSpecials(s: string)
    ensures '\n' !in EscapeText(s)
    ensures forall i :: 0 <= i < |EscapeText(s)| && EscapeText(s)[i] in {';', ','} ==> i > 0 && EscapeText(s)[i - 1] == '\\'
  {
    EscapeSinglePass(s);
  }

  // ---------------------------------------------------------------- the description

  /** `f"Цена: {price}"`; `showFloat` stands for `str(float)`. */
  function PriceLine(price: real, showFloat: real -> string): string {
    "\U{0426}\U{0435}\U{043D}\U{0430}: " + showFloat(price)
  }

  /** `"\n".join(filter(None, [description or "", price_line]))`. */
  function DescriptionText(description: Option<string>, price: Option<real>, showFloat: real -> string): (t: string)
    ensures price.None? ==> t == description.GetOr("")
    ensures price.Some? && description.GetOr("") == "" ==> t == PriceLine(price.value, showFloat)
    ensures price.Some? && description.GetOr("") != "" ==>
      t == description.GetOr("") + "\n" + PriceLine(price.value, showFloat)
  {
    var d := description.GetOr("");
    match price
    case None => d
    case Some(p) => if d == "" then PriceLine(p, showFloat) else d + "\n" + PriceLine(p, showFloat)
  }

  /** `_format_description`: the joined text, escaped, so it stays on one content line. */
  function FormatDescription(description: Option<string>, price: Option<real>, showFloat: real -> string): (r: string)
    ensures Unescape(r) == DescriptionText(description, price, showFloat)
    ensures '\n' !in r
  {
    var t := DescriptionText(description, price, showFloat);
    EscapeRoundTrip(t);
    EscapedHasNoBareSpecials(t);
    EscapeText(t)
  }

  // ---------------------------------------------------------------- the payload

  /** The default length of an event. */
  const DefaultDurationMinutes: nat := 120

  /** `strptime(f"{date} {time}", "%Y-%m-%d %H:%M")`: the date and the time field (leading spaces allowed). */
  function EventStart(row: EventRow): (r: Option<DateTime>)
    ensures r.Some? ==> ValidDateTime(r.value) && r.value.date == row.date
    ensures r.Some? ==> row.time.Some? && ParseHourMinute(TrimStart(row.time.value)) == Some(r.value.time)
    ensures r.None? <==> !ValidDate(row.date) || row.time.None? || ParseHourMinute(TrimStart(row.time.value)).None?
  {
    if !ValidDate(row.date) || row.time.None? then None
    else match ParseHourMinute(TrimStart(row.time.value))
      case None => None
      case Some(t) => Some(DateTime(row.date, t))
  }

  /** The generated file: its name, its content lines and the CRLF-framed payload. */
  datatype IcsFile = IcsFile(filename: string, lines: seq<string>, content: string)

  /** `"\r\n".join(lines) + "\r\n"`: every line, the last one included, ends with CRLF. */
  function Crlf(lines: seq<string>): string {
    if lines == [] then [] else lines[0] + "\r\n" + Crlf(lines[1..])
  }

  /** The pieces a CRLF payload splits into at line feeds: each line with its CR, then an empty tail. */
  function CrLines(lines: seq<string>): (r: seq<string>)
    ensures |r| == |lines| + 1 && r[|lines|] == ""
    ensures forall i :: 0 <= i < |lines| ==> r[i] == lines[i] + "\r"
  {
    if lines == [] then [""] else [lines[0] + "\r"] + CrLines(lines[1..])
  }

  predicate NoLineFeed(lines: seq<string>) {
    forall i :: 0 <= i < |lines| ==> '\n' !in lines[i]
  }

  lemma {:induction false} JoinCrLines(lines: seq<string>)
    ensures Join(CrLines(lines), '\n') == Crlf(lines)
  {
    if lines != [] {
      JoinCrLines(lines[1..]);
      var r := CrLines(lines);
      assert r[1..] == CrLines(lines[1..]);
    }
  }

  /** Reading the payload back at line feeds gives exactly the content lines, each ended by CR. */
  lemma PayloadSplitsIntoLines(lines: seq<string>)
    requires NoLineFeed(lines)
    ensures Split(Crlf(lines), '\n') == CrLines(lines)
  {
    var r := CrLines(lines);
    forall i | 0 <= i < |r| ensures '\n' !in r[i] {
      if i < |lines| {
        assert r[i] == lines[i] + "\r";
      }
    }
    JoinCrLines(lines);
    SplitJoin(r, '\n');
  }

  /** `f"{event_id}-{dtstart}@fm_bot"`. */
  function Uid(id: int, start: DateTime): string
    requires ValidDateTime(start)
  {
    IntToString(id) + "-" + CompactText(start) + "@fm_bot"
  }

  /** `f"event_{event_id}.ics"`. */
  function FileName(id: int): string {
    "event_" + IntToString(id) + ".ics"
  }

  /** The fixed lines before the event's properties. */
  const Header: seq<string> :=
    ["BEGIN:VCALENDAR", "VERSION:2.0", "PRODID:-//fm_bot//event calendar//RU", "CALSCALE:GREGORIAN", "BEGIN:VEVENT"]

  /** The fixed lines after them. */
  const Footer: seq<string> := ["END:VEVENT", "END:VCALENDAR"]

  /** The fourteen content lines for an event with a name and an address, a start and an end. */
  function IcsLines(row: EventRow, start: DateTime, end: DateTime, dtstamp: DateTime, showFloat: real -> string): (lines: seq<string>)
    requires row.name.Some? && row.address.Some?
    requires ValidDateTime(start) && ValidDateTime(end) && ValidDateTime(dtstamp)
    ensures |lines| == 14
  {
    Header + [
      "UID:" + Uid(row.id, start),
      "DTSTAMP:" + CompactText(dtstamp) + "Z",
      "DTSTART:" + CompactText(start),
      "DTEND:" + CompactText(end),
      "SUMMARY:" + EscapeText(row.name.value),
      "DESCRIPTION:" + FormatDescription(row.description, row.price, showFloat),
      "LOCATION:" + EscapeText(row.address.value)
    ] + Footer
  }

  /**
   * The lines hold the fixed frame, the start and the end, and three text properties that
   * unescape to the event's own name, description and address.
   */
  lemma IcsLinesContents(row: EventRow, start: DateTime, end: DateTime, dtstamp: DateTime, showFloat: real -> string)
    requires row.name.Some? && row.address.Some?
    requires ValidDateTime(start) && ValidDateTime(end) && ValidDateTime(dtstamp)
    ensures var lines := IcsLines(row, start, end, dtstamp, showFloat);
      && lines[0] == "BEGIN:VCALENDAR" && lines[4] == "BEGIN:VEVENT"
      && lines[12] == "END:VEVENT" && lines[13] == "END:VCALENDAR"
      && lines[5] == "UID:" + Uid(row.id, start)
      && lines[7] == "DTSTART:" + CompactText(start)
      && lines[8] == "DTEND:" + CompactText(end)
      && lines[9][..8] == "SUMMARY:" && Unescape(lines[9][8..]) == row.name.value
      && lines[10][..12] == "DESCRIPTION:" && Unescape(lines[10][12..]) == DescriptionText(row.description, row.price, showFloat)
      && lines[11][..9] == "LOCATION:" && Unescape(lines[11][9..]) == row.address.value
  {
    var lines := IcsLines(row, start, end, dtstamp, showFloat);
    EscapeRoundTrip(row.name.value);
    EscapeRoundTrip(row.address.value);
    assert lines[9][8..] == EscapeText(row.name.value);
    assert lines[10][12..] == FormatDescription(row.description, row.price, showFloat);
    assert lines[11][9..] == EscapeText(row.address.value);
  }

  /** The version, producer, calendar-scale and time-stamp lines. */
  lemma IcsHeaderLines(row: EventRow, start: DateTime, end: DateTime, dtstamp: DateTime, showFloat: real -> string)
    requires row.name.Some? && row.address.Some?
    requires ValidDateTime(start) && ValidDateTime(end) && ValidDateTime(dtstamp)
    ensures var lines := IcsLines(row, start, end, dtstamp, showFloat);
      && lines[1] == "VERSION:2.0"
      && lines[2] == "PRODID:-//fm_bot//event calendar//RU"
      && lines[3] == "CALSCALE:GREGORIAN"
      && lines[6] == "DTSTAMP:" + CompactText(dtstamp) + "Z"
  {
    var lines := IcsLines(row, start, end, dtstamp, showFloat);
    assert lines[1] == Header[1] && lines[2] == Header[2] && lines[3] == Header[3];
  }

  /** The end of an event: `start_dt + timedelta(minutes=duration)`, None where either step raises. */
  function EventEnd(row: EventRow, durationMinutes: nat): (r: Option<DateTime>)
    ensures r.Some? <==> EventStart(row).Some? && AddMinutes(EventStart(row).value, durationMinutes).Some?
    ensures r.Some? ==> (ValidDateTime(r.value)
      && MinuteNumber(r.value) == MinuteNumber(EventStart(row).value) + durationMinutes)
  {
    match EventStart(row)
    case None => None
    case Some(start) => AddMinutes(start, durationMinutes)
  }

  /**
   * `build_event_ics`: None where Python raises (no name or no address to escape, a date or
   * time `strptime` refuses, or an end past year 9999). `dtstamp` is the UTC clock reading.
   */
  function BuildEventIcs(row: EventRow, durationMinutes: nat, dtstamp: DateTime, showFloat: real -> string): (r: Option<IcsFile>)
    requires ValidDateTime(dtstamp)
    ensures r.None? <==> row.name.None? || row.address.None? || EventEnd(row, durationMinutes).None?
    ensures r.Some? ==> r.value.filename == FileName(row.id) && r.value.content == Crlf(r.value.lines)
    ensures r.Some? ==> (r.value.lines
      == IcsLines(row, EventStart(row).value, EventEnd(row, durationMinutes).value, dtstamp, showFloat))
  {
    if row.name.None? || row.address.None? then None
    else match EventEnd(row, durationMinutes)
      case None => None
      case Some(end) =>
        var lines := IcsLines(row, EventStart(row).value, end, dtstamp, showFloat);
        Some(IcsFile(FileName(row.id), lines, Crlf(lines)))
  }

  /** No content line contains a line feed: the variable parts are digits or escaped text. */
  lemma IcsLinesHaveNoLineFeed(row: EventRow, start: DateTime, end: DateTime, dtstamp: DateTime, showFloat: real -> string)
    requires row.name.Some? && row.address.Some?
    requires ValidDateTime(start) && ValidDateTime(end) && ValidDateTime(dtstamp)
    ensures NoLineFeed(IcsLines(row, start, end, dtstamp, showFloat))
  {
    var lines := IcsLines(row, start, end, dtstamp, showFloat);
    var middle := lines[5..12];
    assert lines == Header + middle + Footer;
    FixedLines();
    PropertyLinesHaveNoLineFeed(row, start, end, dtstamp, showFloat);
    forall i | 0 <= i < 14 ensures '\n' !in lines[i] {
      if 5 <= i < 12 {
        assert lines[i] == middle[i - 5];
      }
    }
  }

  /** The seven property lines: labels followed by digits or escaped text. */
  lemma PropertyLinesHaveNoLineFeed(row: EventRow, start: DateTime, end: DateTime, dtstamp: DateTime, showFloat: real -> string)
    requires row.name.Some? && row.address.Some?
    requires ValidDateTime(start) && ValidDateTime(end) && ValidDateTime(dtstamp)
    ensures NoLineFeed(IcsLines(row, start, end, dtstamp, showFloat)[5..12])
  {
    TimeLinesHaveNoLineFeed(row.id, start, end, dtstamp);
    TextLinesHaveNoLineFeed(row, showFloat);
  }

  lemma TimeLinesHaveNoLineFeed(id: int, start: DateTime, end: DateTime, dtstamp: DateTime)
    requires ValidDateTime(start) && ValidDateTime(end) && ValidDateTime(dtstamp)
    ensures '\n' !in "UID:" + Uid(id, start)
    ensures '\n' !in "DTSTAMP:" + CompactText(dtstamp) + "Z"
    ensures '\n' !in "DTSTART:" + CompactText(start)
    ensures '\n' !in "DTEND:" + CompactText(end)
  {
    DigitsNoLineFeed(CompactText(start));
    DigitsNoLineFeed(CompactText(end));
    DigitsNoLineFeed(CompactText(dtstamp));
    IntToStringNoLineFeed(id);
    assert '\n' !in Uid(id, start);
    Labelled("UID:", Uid(id, start));
    Stamped(CompactText(dtstamp));
    Labelled("DTSTART:", CompactText(start));
    Labelled("DTEND:", CompactText(end));
  }

  lemma TextLinesHaveNoLineFeed(row: EventRow, showFloat: real -> string)
    requires row.name.Some? && row.address.Some?
    ensures '\n' !in "SUMMARY:" + EscapeText(row.name.value)
    ensures '\n' !in "DESCRIPTION:" + FormatDescription(row.description, row.price, showFloat)
    ensures '\n' !in "LOCATION:" + EscapeText(row.address.value)
  {
    EscapedHasNoBareSpecials(row.name.value);
    EscapedHasNoBareSpecials(row.address.value);
    Labelled("SUMMARY:", EscapeText(row.name.value));
    Labelled("DESCRIPTION:", FormatDescription(row.description, row.price, showFloat));
    Labelled("LOCATION:", EscapeText(row.address.value));
  }

  lemma Stamped(value: string)
    requires '\n' !in value
    ensures '\n' !in "DTSTAMP:" + value + "Z"
  {
  }

  /** The fixed lines are plain text without line feeds. */
  lemma FixedLines()
    ensures NoLineFeed(Header) && NoLineFeed(Footer)
  {
  }

  lemma Labelled(name: string, value: string)
    requires name in ["UID:", "DTSTART:", "DTEND:", "SUMMARY:", "DESCRIPTION:", "LOCATION:"]
    requires '\n' !in value
    ensures '\n' !in name + value
  {
  }

  /** A built payload is exactly its fourteen lines, each ended by CRLF, with no stray line feed. */
  lemma IcsFraming(row: EventRow, durationMinutes: nat, dtstamp: DateTime, showFloat: real -> string)
    requires ValidDateTime(dtstamp)
    requires BuildEventIcs(row, durationMinutes, dtstamp, showFloat).Some?
    ensures var f := BuildEventIcs(row, durationMinutes, dtstamp, showFloat).value;
      |f.lines| == 14 && Split(f.content, '\n') == CrLines(f.lines)
  {
    var f := BuildEventIcs(row, durationMinutes, dtstamp, showFloat).value;
    IcsLinesHaveNoLineFeed(row, EventStart(row).value, EventEnd(row, durationMinutes).value, dtstamp, showFloat);
    PayloadSplitsIntoLines(f.lines);
  }

  lemma DigitsNoLineFeed(s: string)
    requires |s| == 15 && s[8] == 'T'
    requires forall i :: 0 <= i < |s| && i != 8 ==> IsDigit(s[i])
    ensures '\n' !in s
  {
  }

  lemma IntToStringNoLineFeed(i: int)
    ensures '\n' !in IntToString(i)
  {
    if '\n' in IntToString(i) {
      var k :| 0 <= k < |IntToString(i)| && IntToString(i)[k] == '\n';
      IntToStringChars(i, k);
    }
  }

  // ---------------------------------------------------------------- the download button

  /** What `user_send_ics` does with a `user_ics:<event_id>` payload. */
  datatype IcsReply = SendFile(file: IcsFile) | EventNotFound | Failed

  /** The event must be live; `int(...)` of the payload or `build_event_ics` raising is a failure. */
  function IcsReplyTo(events: seq<EventRow>, data: string, dtstamp: DateTime, showFloat: real -> string): (r: IcsReply)
    requires ValidDateTime(dtstamp)
    ensures r.EventNotFound? <==> EventIdOf(data).Some? && GetEvent(events, EventIdOf(data).value).None?
    ensures r.SendFile? ==> exists e :: (e in events && !e.deleted && Some(e.id) == EventIdOf(data)
      && Some(r.file) == BuildEventIcs(e, DefaultDurationMinutes, dtstamp, showFloat))
    ensures r.Failed? <==> (EventIdOf(data).None? || (GetEvent(events, EventIdOf(data).value).Some?
      && BuildEventIcs(GetEvent(events, EventIdOf(data).value).value, DefaultDurationMinutes, dtstamp, showFloat).None?))
  {
    match EventIdOf(data)
    case None => Failed
    case Some(id) =>
      match GetEvent(events, id)
      case None => EventNotFound
      case Some(e) =>
        match BuildEventIcs(e, DefaultDurationMinutes, dtstamp, showFloat)
        case None => Failed
        case Some(f) => SendFile(f)
  }
}
