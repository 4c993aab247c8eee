/** The CSV log writer: escaping of fields, the eight-column row, the
    timestamp and file-name formats, the header-once rule at open, and the file
    as an append-only sequence of records.

    The file is a sequence of records, one per WriteLine (a record whose field
    holds a line break still counts as one record). `flushed` is the number of
    leading records Flush has forced out; StreamWriter may write more on its
    own, which is not modelled. */
module CsvLog {
  import opened Primitives
  import opened Decimal
  import opened Rfc4180
  import opened HookService

  // ===== Escaping =====

  function QuoteCount(s: string): nat {
    if |s| == 0 then 0 else (if s[0] == '"' then 1 else 0) + QuoteCount(s[1..])
  }

  /** `s.Replace("\"", "\"\"")`. */
  function DoubleQuotes(s: string): (r: string)
    ensures |r| == |s| + QuoteCount(s)
  {
    if |s| == 0 then ""
    else (if s[0] == '"' then "\"\"" else [s[0]]) + DoubleQuotes(s[1..])
  }

  /** `EscapeCsv`: empty stays empty, text without comma, quote, CR or LF is
      written as is, anything else is enclosed in quotes with inner quotes
      doubled. */
  function EscapeCsv(s: string): (r: string)
    ensures |s| == 0 ==> r == ""
    ensures IsTextData(s) ==> r == s
    ensures !IsTextData(s) ==>
      && |r| == |s| + 2 + QuoteCount(s)
      && r[0] == '"' && r[|r| - 1] == '"'
  {
    if |s| == 0 then ""
    else if IsTextData(s) then s
    else "\"" + DoubleQuotes(s) + "\""
  }

  lemma {:induction false} PlainLengthOfTextData(s: string, rest: string)
    requires IsTextData(s)
    requires |rest| == 0 || IsSpecial(rest[0])
    ensures PlainLength(s + rest) == |s|
  {
    if |s| == 0 {
      assert s + rest == rest;
    } else {
      assert (s + rest)[1..] == s[1..] + rest;
      assert IsTextData(s[1..]) by {
        forall i | 0 <= i < |s[1..]| ensures !IsSpecial(s[1..][i]) {
          assert s[1..][i] == s[i + 1];
        }
      }
      PlainLengthOfTextData(s[1..], rest);
    }
  }

  /** A doubled quote inside an escaped field reads as one quote. */
  lemma QuotedBodyPairStep(u: string, v: string, rest: string)
    requires ParseQuotedBody(u) == Some(Parsed(v, rest))
    ensures ParseQuotedBody("\"\"" + u) == Some(Parsed("\"" + v, rest))
  {
    var t := "\"\"" + u;
    assert t[0] == '"' && t[1] == '"';
    assert t[2..] == u;
  }

  /** Any other character inside an escaped field reads as itself. */
  lemma QuotedBodyCharStep(c: char, u: string, v: string, rest: string)
    requires c != '"'
    requires ParseQuotedBody(u) == Some(Parsed(v, rest))
    ensures ParseQuotedBody([c] + u) == Some(Parsed([c] + v, rest))
  {
    var t := [c] + u;
    assert t[0] == c;
    assert t[1..] == u;
  }

  /** The closing quote ends an escaped field when no quote follows it. */
  lemma QuotedBodyEnd(rest: string)
    requires |rest| == 0 || rest[0] != '"'
    ensures ParseQuotedBody(DoubleQuotes("") + "\"" + rest) == Some(Parsed("", rest))
  {
    var t := "\"" + rest;
    assert DoubleQuotes("") + "\"" + rest == t;
    assert t[1..] == rest;
  }

  /** One more character in front of an escaped field's content. */
  lemma QuotedBodyCons(s: string, rest: string)
    requires 0 < |s|
    requires ParseQuotedBody(DoubleQuotes(s[1..]) + "\"" + rest) == Some(Parsed(s[1..], rest))
    ensures ParseQuotedBody(DoubleQuotes(s) + "\"" + rest) == Some(Parsed(s, rest))
  {
    var u := DoubleQuotes(s[1..]) + "\"" + rest;
    if s[0] == '"' {
      QuotedBodyPairStep(u, s[1..], rest);
      assert DoubleQuotes(s) + "\"" + rest == "\"\"" + u;
      assert "\"" + s[1..] == s;
    } else {
      QuotedBodyCharStep(s[0], u, s[1..], rest);
      assert DoubleQuotes(s) + "\"" + rest == [s[0]] + u;
      assert [s[0]] + s[1..] == s;
    }
  }

  lemma {:induction false} QuotedBodyRoundTrip(s: string, rest: string)
    requires |rest| == 0 || rest[0] != '"'
    ensures ParseQuotedBody(DoubleQuotes(s) + "\"" + rest) == Some(Parsed(s, rest))
  {
    if |s| == 0 {
      QuotedBodyEnd(rest);
    } else {
      QuotedBodyRoundTrip(s[1..], rest);
      QuotedBodyCons(s, rest);
    }
  }

  lemma {:induction false} TextDataFieldRoundTrip(s: string, rest: string)
    requires IsTextData(s)
    requires |rest| == 0 || rest[0] == ','
    ensures ParseField(s + rest) == Some(Parsed(s, rest))
  {
    var t := s + rest;
    PlainLengthOfTextData(s, rest);
    if 0 < |s| {
      assert t[0] == s[0];
      assert !IsSpecial(s[0]);
    }
    assert t[..|s|] == s;
    assert t[|s|..] == rest;
  }

  lemma {:induction false} QuotedFieldRoundTrip(s: string, rest: string)
    requires |rest| == 0 || rest[0] == ','
    ensures ParseField("\"" + DoubleQuotes(s) + "\"" + rest) == Some(Parsed(s, rest))
  {
    QuotedBodyRoundTrip(s, rest);
    var t := "\"" + DoubleQuotes(s) + "\"" + rest;
    assert t[0] == '"';
    assert t[1..] == DoubleQuotes(s) + "\"" + rest;
  }

  /** Reading an escaped field back, per items 6 and 7 of section 2 of
      RFC 4180, gives the original text and stops at the next separator. */
  lemma EscapeCsvRoundTrip(s: string, rest: string)
    requires |rest| == 0 || rest[0] == ','
    ensures ParseField(EscapeCsv(s) + rest) == Some(Parsed(s, rest))
  {
    if IsTextData(s) {
      TextDataFieldRoundTrip(s, rest);
    } else {
      QuotedFieldRoundTrip(s, rest);
    }
  }

  // ===== Records =====

  /** Fields separated by commas, as the row's string interpolation writes them. */
  function JoinRecord(fields: seq<string>): (line: string)
    requires 0 < |fields|
  {
    if |fields| == 1 then fields[0] else fields[0] + "," + JoinRecord(fields[1..])
  }

  function EscapeAll(fields: seq<string>): (r: seq<string>)
    ensures |r| == |fields|
    ensures forall i :: 0 <= i < |fields| ==> r[i] == EscapeCsv(fields[i])
  {
    seq(|fields|, i requires 0 <= i < |fields| => EscapeCsv(fields[i]))
  }

  lemma ParseRecordLast(s: string, v: string)
    requires ParseField(s) == Some(Parsed(v, ""))
    ensures ParseRecord(s) == Some([v])
  {
  }

  lemma ParseRecordCons(s: string, v: string, tail: string, fs: seq<string>)
    requires ParseField(s) == Some(Parsed(v, "," + tail))
    requires ParseRecord(tail) == Some(fs)
    ensures ParseRecord(s) == Some([v] + fs)
  {
    assert ("," + tail)[1..] == tail;
  }

  lemma SingleFieldRoundTrip(fields: seq<string>)
    requires |fields| == 1
    ensures ParseRecord(JoinRecord(EscapeAll(fields))) == Some(fields)
  {
    var esc := EscapeAll(fields);
    EscapeCsvRoundTrip(fields[0], "");
    assert esc[0] + "" == esc[0];
    ParseRecordLast(esc[0], fields[0]);
    assert JoinRecord(esc) == esc[0];
    assert fields == [fields[0]];
  }

  /** Any non-empty list of fields, escaped and joined, reads back as exactly
      those fields. */
  lemma {:induction false} RecordRoundTrip(fields: seq<string>)
    requires 0 < |fields|
    ensures ParseRecord(JoinRecord(EscapeAll(fields))) == Some(fields)
  {
    if |fields| == 1 {
      SingleFieldRoundTrip(fields);
    } else {
      var esc := EscapeAll(fields);
      var tail := JoinRecord(esc[1..]);
      assert esc[1..] == EscapeAll(fields[1..]);
      RecordRoundTrip(fields[1..]);
      EscapeCsvRoundTrip(fields[0], "," + tail);
      assert JoinRecord(esc) == esc[0] + ("," + tail);
      ParseRecordCons(JoinRecord(esc), fields[0], tail, fields[1..]);
      assert [fields[0]] + fields[1..] == fields;
    }
  }

  // ===== Timestamps and file names =====

  /** Three zero-padded numbers joined by two one-character separators:
      the date `yyyy-MM-dd` and the time `HH:mm:ss` share this shape. */
  function Triple(a: nat, wa: nat, sep1: char, b: nat, wb: nat, sep2: char, c: nat, wc: nat): (s: string)
    requires a < Pow10(wa) && b < Pow10(wb) && c < Pow10(wc)
    ensures |s| == wa + wb + wc + 2
    ensures s[wa] == sep1 && s[wa + 1 + wb] == sep2
    ensures s[..wa] == PadDigits(a, wa)
    ensures s[wa + 1..wa + 1 + wb] == PadDigits(b, wb)
    ensures s[wa + wb + 2..] == PadDigits(c, wc)
  {
    var pa, pb, pc := PadDigits(a, wa), PadDigits(b, wb), PadDigits(c, wc);
    var s := pa + [sep1] + pb + [sep2] + pc;
    assert s[..wa] == pa;
    assert s[wa + 1..wa + 1 + wb] == pb;
    assert s[wa + wb + 2..] == pc;
    s
  }

  /** `ToString("yyyy-MM-ddTHH:mm:ss.fff", CultureInfo.InvariantCulture)`. */
  function FormatTimestamp(t: DateTimeUtc): (s: string)
    ensures |s| == 23
    ensures s[4] == '-' && s[7] == '-' && s[10] == 'T' && s[13] == ':' && s[16] == ':' && s[19] == '.'
  {
    var date := Triple(t.year, 4, '-', t.month, 2, '-', t.day, 2);
    var time := Triple(t.hour, 2, ':', t.minute, 2, ':', t.second, 2);
    var s := date + ['T'] + time + ['.'] + PadDigits(t.millisecond, 3);
    assert s[13] == time[2] && s[16] == time[5];
    s
  }

  lemma TextDataConcat(a: string, b: string)
    requires IsTextData(a) && IsTextData(b)
    ensures IsTextData(a + b)
  {
    forall i | 0 <= i < |a + b| ensures !IsSpecial((a + b)[i]) {
      if i < |a| {
        assert (a + b)[i] == a[i];
      } else {
        assert (a + b)[i] == b[i - |a|];
      }
    }
  }

  lemma TripleIsTextData(a: nat, wa: nat, sep1: char, b: nat, wb: nat, sep2: char, c: nat, wc: nat)
    requires a < Pow10(wa) && b < Pow10(wb) && c < Pow10(wc)
    requires !IsSpecial(sep1) && !IsSpecial(sep2)
    ensures IsTextData(Triple(a, wa, sep1, b, wb, sep2, c, wc))
  {
    var s := Triple(a, wa, sep1, b, wb, sep2, c, wc);
    forall i | 0 <= i < |s| ensures !IsSpecial(s[i]) {
      if i < wa {
        assert s[i] == s[..wa][i];
      } else if wa < i < wa + 1 + wb {
        assert s[i] == s[wa + 1..wa + 1 + wb][i - wa - 1];
      } else if wa + wb + 2 <= i {
        assert s[i] == s[wa + wb + 2..][i - wa - wb - 2];
      }
    }
  }

  /** A timestamp never needs quoting in a CSV field and starts with a digit. */
  lemma TimestampIsTextData(t: DateTimeUtc)
    ensures IsTextData(FormatTimestamp(t)) && IsDigit(FormatTimestamp(t)[0])
  {
    var date := Triple(t.year, 4, '-', t.month, 2, '-', t.day, 2);
    var time := Triple(t.hour, 2, ':', t.minute, 2, ':', t.second, 2);
    var ms := PadDigits(t.millisecond, 3);
    TripleIsTextData(t.year, 4, '-', t.month, 2, '-', t.day, 2);
    TripleIsTextData(t.hour, 2, ':', t.minute, 2, ':', t.second, 2);
    TextDataConcat(date, ['T']);
    TextDataConcat(date + ['T'], time);
    TextDataConcat(date + ['T'] + time, ['.']);
    TextDataConcat(date + ['T'] + time + ['.'], ms);
    assert FormatTimestamp(t)[0] == date[..4][0];
  }

  /** Reads back the three numbers of a `Triple`. */
  function ParseTriple(s: string, wa: nat, sep1: char, wb: nat, sep2: char, wc: nat): Option<(nat, nat, nat)> {
    if |s| == wa + wb + wc + 2 && s[wa] == sep1 && s[wa + 1 + wb] == sep2
       && AllDigits(s[..wa]) && AllDigits(s[wa + 1..wa + 1 + wb]) && AllDigits(s[wa + wb + 2..])
    then Some((DigitsValue(s[..wa]), DigitsValue(s[wa + 1..wa + 1 + wb]), DigitsValue(s[wa + wb + 2..])))
    else None
  }

  lemma TripleRoundTrip(a: nat, wa: nat, sep1: char, b: nat, wb: nat, sep2: char, c: nat, wc: nat)
    requires a < Pow10(wa) && b < Pow10(wb) && c < Pow10(wc)
    ensures ParseTriple(Triple(a, wa, sep1, b, wb, sep2, c, wc), wa, sep1, wb, sep2, wc) == Some((a, b, c))
  {
  }

  function ParseTimestamp(s: string): Option<DateTimeUtc> {
    if |s| != 23 || s[10] != 'T' || s[19] != '.' || !AllDigits(s[20..]) then None
    else
      var date := ParseTriple(s[..10], 4, '-', 2, '-', 2);
      var time := ParseTriple(s[11..19], 2, ':', 2, ':', 2);
      if date.None? || time.None? then None
      else
        var t := DateTimeParts(date.value.0, date.value.1, date.value.2,
                               time.value.0, time.value.1, time.value.2, DigitsValue(s[20..]));
        if ValidDateTime(t) then Some(t) else None
  }

  lemma TimestampRoundTrip(t: DateTimeUtc)
    ensures ParseTimestamp(FormatTimestamp(t)) == Some(t)
  {
    var s := FormatTimestamp(t);
    var date := Triple(t.year, 4, '-', t.month, 2, '-', t.day, 2);
    var time := Triple(t.hour, 2, ':', t.minute, 2, ':', t.second, 2);
    assert s[..10] == date && s[11..19] == time && s[20..] == PadDigits(t.millisecond, 3);
    TripleRoundTrip(t.year, 4, '-', t.month, 2, '-', t.day, 2);
    TripleRoundTrip(t.hour, 2, ':', t.minute, 2, ':', t.second, 2);
  }

  /** The "yyyyMMdd_HHmmss" part of the file name. */
  function FileStamp(t: DateTimeUtc): (s: string)
    ensures |s| == 15 && s[8] == '_'
  {
    PadDigits(t.year, 4) + PadDigits(t.month, 2) + PadDigits(t.day, 2) + "_"
    + PadDigits(t.hour, 2) + PadDigits(t.minute, 2) + PadDigits(t.second, 2)
  }

  /** Reads a file stamp back, to the second. */
  function ParseFileStamp(s: string): Option<DateTimeUtc> {
    if |s| == 15 && s[8] == '_'
       && AllDigits(s[0..4]) && AllDigits(s[4..6]) && AllDigits(s[6..8]) && AllDigits(s[9..11])
       && AllDigits(s[11..13]) && AllDigits(s[13..15])
    then
      var t := DateTimeParts(DigitsValue(s[0..4]), DigitsValue(s[4..6]), DigitsValue(s[6..8]),
                             DigitsValue(s[9..11]), DigitsValue(s[11..13]), DigitsValue(s[13..15]), 0);
      if ValidDateTime(t) then Some(t) else None
    else None
  }

  /** The time truncated to whole seconds. */
  function WholeSecond(t: DateTimeUtc): DateTimeUtc {
    t.(millisecond := 0)
  }

  lemma FileStampRoundTrip(t: DateTimeUtc)
    ensures ParseFileStamp(FileStamp(t)) == Some(WholeSecond(t))
  {
    var s := FileStamp(t);
    assert s[0..4] == PadDigits(t.year, 4);
    assert s[4..6] == PadDigits(t.month, 2);
    assert s[6..8] == PadDigits(t.day, 2);
    assert s[9..11] == PadDigits(t.hour, 2);
    assert s[11..13] == PadDigits(t.minute, 2);
    assert s[13..15] == PadDigits(t.second, 2);
  }

  const LogFileSuffix := "_utc.csv"

  /** `{prefix}_{yyyyMMdd_HHmmss}_utc.csv`. */
  function LogFileName(prefix: string, t: DateTimeUtc): (name: string)
    ensures |name| == |prefix| + 24
    ensures name[..|prefix|] == prefix && name[|prefix|] == '_'
    ensures name[|name| - 8..] == LogFileSuffix
    ensures ParseFileStamp(name[|prefix| + 1..|prefix| + 16]) == Some(WholeSecond(t))
  {
    var name := prefix + "_" + FileStamp(t) + LogFileSuffix;
    assert name[|prefix| + 1..|prefix| + 16] == FileStamp(t);
    FileStampRoundTrip(t);
    name
  }

  /** Two sessions get the same file exactly when they open it within the same
      second: then the second one appends to the first one's file. */
  lemma LogFileNameSameSecond(prefix: string, a: DateTimeUtc, b: DateTimeUtc)
    ensures LogFileName(prefix, a) == LogFileName(prefix, b) <==> WholeSecond(a) == WholeSecond(b)
  {
    if WholeSecond(a) == WholeSecond(b) {
      assert FileStamp(a) == FileStamp(b);
    }
  }

  // ===== Rows =====

  const HeaderFields: seq<string> :=
    ["timestamp", "target_pid", "target_app_name", "operation", "x", "y", "delta", "virtual_key"]

  /** The header line, "timestamp,target_pid,target_app_name,operation,x,y,delta,virtual_key". */
  const Header := JoinRecord(HeaderFields)

  /** An optional integer as a field: empty when absent. */
  function FormatOptInt(v: Option<int32>): (s: string)
    ensures v.None? <==> s == ""
    ensures IsTextData(s)
  {
    match v
    case None => ""
    case Some(i) => FormatInt(i)
  }

  /** The eight values of a row, in header order, before escaping. */
  function RowFields(e: InputLogEntry, appName: string): (fs: seq<string>)
    ensures |fs| == |HeaderFields|
  {
    [FormatTimestamp(e.timestampUtc), FormatInt(e.targetPid), appName, e.operation,
     FormatOptInt(e.x), FormatOptInt(e.y), FormatOptInt(e.delta), FormatOptInt(e.virtualKey)]
  }

  /** The row `Write` emits: `{ts},{pid},{app},{op},{x},{y},{delta},{vk}` where
      only the app name and the operation go through EscapeCsv. */
  function FormatRow(e: InputLogEntry, appName: string): string {
    JoinRecord([FormatTimestamp(e.timestampUtc), FormatInt(e.targetPid), EscapeCsv(appName),
                EscapeCsv(e.operation), FormatOptInt(e.x), FormatOptInt(e.y),
                FormatOptInt(e.delta), FormatOptInt(e.virtualKey)])
  }

  /** Escaping the row's fields touches only the app name and the operation:
      the other six never need quotes. */
  lemma EscapedRowFields(e: InputLogEntry, appName: string)
    ensures EscapeAll(RowFields(e, appName))
         == [FormatTimestamp(e.timestampUtc), FormatInt(e.targetPid), EscapeCsv(appName),
             EscapeCsv(e.operation), FormatOptInt(e.x), FormatOptInt(e.y),
             FormatOptInt(e.delta), FormatOptInt(e.virtualKey)]
  {
    var ts := FormatTimestamp(e.timestampUtc);
    var pid := FormatInt(e.targetPid);
    TimestampIsTextData(e.timestampUtc);
    assert IsTextData(pid);
    assert EscapeCsv(ts) == ts && EscapeCsv(pid) == pid;
  }

  /** Every row reads back as eight fields in header order. */
  lemma RowHasHeaderLayout(e: InputLogEntry, appName: string)
    ensures ParseRecord(FormatRow(e, appName)) == Some(RowFields(e, appName))
  {
    var fs := RowFields(e, appName);
    EscapedRowFields(e, appName);
    assert FormatRow(e, appName) == JoinRecord(EscapeAll(fs));
    RecordRoundTrip(fs);
  }

  /** The fields of a row are the unescaped app name and operation, and an
      empty field exactly where x, y, delta or the key code is absent. */
  lemma RowFieldsLayout(e: InputLogEntry, appName: string)
    ensures var fs := RowFields(e, appName);
      && fs[2] == appName && fs[3] == e.operation
      && (fs[4] == "" <==> e.x.None?) && (fs[5] == "" <==> e.y.None?)
      && (fs[6] == "" <==> e.delta.None?) && (fs[7] == "" <==> e.virtualKey.None?)
  {
  }

  /** An optional 32-bit integer field read back. */
  function ParseOptInt32(s: string): Option<Option<int32>> {
    if s == "" then Some(None)
    else match ParseInt(s)
      case Some(i) => if -0x8000_0000 <= i < 0x8000_0000 then Some(Some(i as int32)) else None
      case None => None
  }

  /** The entry and app name eight row fields stand for. */
  function DecodeFields(fs: seq<string>): Option<(InputLogEntry, string)>
    requires |fs| == 8
  {
    var ts := ParseTimestamp(fs[0]);
    var pid := ParseOptInt32(fs[1]);
    var x := ParseOptInt32(fs[4]);
    var y := ParseOptInt32(fs[5]);
    var delta := ParseOptInt32(fs[6]);
    var vk := ParseOptInt32(fs[7]);
    if ts.Some? && pid.Some? && pid.value.Some? && x.Some? && y.Some? && delta.Some? && vk.Some?
    then Some((InputLogEntry(ts.value, pid.value.value, fs[3], x.value, y.value, delta.value, vk.value), fs[2]))
    else None
  }

  /** Reads a row back into the entry and the app name it was written with. */
  function DecodeRow(line: string): Option<(InputLogEntry, string)> {
    match ParseRecord(line)
    case None => None
    case Some(fs) => if |fs| != 8 then None else DecodeFields(fs)
  }

  lemma OptIntRoundTrip(v: Option<int32>)
    ensures ParseOptInt32(FormatOptInt(v)) == Some(v)
  {
    if v.Some? {
      FormatIntRoundTrip(v.value);
    }
  }

  /** Eight fields decode to an entry once each of them reads back as the
      entry's value. */
  lemma DecodeFieldsOf(fs: seq<string>, e: InputLogEntry, appName: string)
    requires |fs| == 8
    requires ParseTimestamp(fs[0]) == Some(e.timestampUtc)
    requires ParseOptInt32(fs[1]) == Some(Some(e.targetPid))
    requires fs[2] == appName && fs[3] == e.operation
    requires ParseOptInt32(fs[4]) == Some(e.x) && ParseOptInt32(fs[5]) == Some(e.y)
    requires ParseOptInt32(fs[6]) == Some(e.delta) && ParseOptInt32(fs[7]) == Some(e.virtualKey)
    ensures DecodeFields(fs) == Some((e, appName))
  {
  }

  lemma TimestampFieldRoundTrip(e: InputLogEntry, appName: string)
    ensures ParseTimestamp(RowFields(e, appName)[0]) == Some(e.timestampUtc)
  {
    TimestampRoundTrip(e.timestampUtc);
  }

  lemma PidFieldRoundTrip(e: InputLogEntry, appName: string)
    ensures ParseOptInt32(RowFields(e, appName)[1]) == Some(Some(e.targetPid))
  {
    OptIntRoundTrip(Some(e.targetPid));
    assert FormatOptInt(Some(e.targetPid)) == RowFields(e, appName)[1];
  }

  lemma OptionalFieldsRoundTrip(e: InputLogEntry, appName: string)
    ensures var fs := RowFields(e, appName);
      && ParseOptInt32(fs[4]) == Some(e.x) && ParseOptInt32(fs[5]) == Some(e.y)
      && ParseOptInt32(fs[6]) == Some(e.delta) && ParseOptInt32(fs[7]) == Some(e.virtualKey)
  {
    OptIntRoundTrip(e.x);
    OptIntRoundTrip(e.y);
    OptIntRoundTrip(e.delta);
    OptIntRoundTrip(e.virtualKey);
  }

  /** The eight fields of a row decode to the entry and app name. */
  lemma FieldsRoundTrip(e: InputLogEntry, appName: string)
    ensures DecodeFields(RowFields(e, appName)) == Some((e, appName))
  {
    TimestampFieldRoundTrip(e, appName);
    PidFieldRoundTrip(e, appName);
    OptionalFieldsRoundTrip(e, appName);
    DecodeFieldsOf(RowFields(e, appName), e, appName);
  }

  /** A written row decodes to the entry and app name it was written from, at
      the model's millisecond resolution. */
  lemma RowRoundTrip(e: InputLogEntry, appName: string)
    ensures DecodeRow(FormatRow(e, appName)) == Some((e, appName))
  {
    RowHasHeaderLayout(e, appName);
    FieldsRoundTrip(e, appName);
  }

  /** The header reads back as the eight column names. */
  lemma HeaderLayout()
    ensures ParseRecord(Header) == Some(HeaderFields)
  {
    assert forall i :: 0 <= i < |HeaderFields| ==> IsTextData(HeaderFields[i]) by {
      assert IsTextData("timestamp") && IsTextData("target_pid") && IsTextData("target_app_name");
      assert IsTextData("operation") && IsTextData("x") && IsTextData("y");
      assert IsTextData("delta") && IsTextData("virtual_key");
    }
    assert EscapeAll(HeaderFields) == HeaderFields;
    RecordRoundTrip(HeaderFields);
  }

  // ===== Writer =====

  /** An open CsvLogWriter: its path, the records of its file (what was there
      before plus what it wrote), and how many leading records are known to
      have been flushed. */
  datatype CsvWriter = CsvWriter(path: string, lines: seq<string>, flushed: nat)

  predicate ValidWriter(w: CsvWriter) {
    w.flushed <= |w.lines|
  }

  /** The records certainly on disk. */
  function Durable(w: CsvWriter): seq<string>
    requires ValidWriter(w)
  {
    w.lines[..w.flushed]
  }

  /** The constructor: opens `{prefix}_{stamp}_utc.csv` for append (its
      current records are `existing`) and writes the header only when the
      file is empty. Nothing is flushed yet. */
  function Open(prefix: string, now: DateTimeUtc, existing: seq<string>): (w: CsvWriter)
    ensures ValidWriter(w) && Durable(w) == existing
    ensures w.path == LogFileName(prefix, now)
    ensures existing <= w.lines
    ensures |existing| == 0 ==> w.lines == [Header]
    ensures |existing| > 0 ==> w.lines == existing
  {
    CsvWriter(LogFileName(prefix, now), if |existing| == 0 then [Header] else existing, |existing|)
  }

  /** `Write`: appends exactly one record and changes nothing before it. */
  function Write(w: CsvWriter, e: InputLogEntry, appName: string): (w': CsvWriter)
    ensures w'.lines == w.lines + [FormatRow(e, appName)]
    ensures w'.path == w.path && w'.flushed == w.flushed
    ensures ValidWriter(w) ==> ValidWriter(w') && Durable(w') == Durable(w)
  {
    w.(lines := w.lines + [FormatRow(e, appName)])
  }

  /** `Flush` (and the flush done by `Dispose`): every record so far is durable. */
  function Flush(w: CsvWriter): (w': CsvWriter)
    ensures ValidWriter(w') && Durable(w') == w.lines
    ensures w'.path == w.path && w'.lines == w.lines
  {
    w.(flushed := |w.lines|)
  }

  // ===== The file across sessions =====

  /** A row's first character is the first digit of its timestamp. */
  predicate IsDataRow(line: string) {
    0 < |line| && IsDigit(line[0])
  }

  /** A log file: empty, or the header followed by data rows only. */
  predicate WellFormedLog(f: seq<string>) {
    |f| == 0 || (f[0] == Header && forall i :: 1 <= i < |f| ==> IsDataRow(f[i]))
  }

  lemma RowIsDataRow(e: InputLogEntry, appName: string)
    ensures IsDataRow(FormatRow(e, appName))
  {
    var ts := FormatTimestamp(e.timestampUtc);
    TimestampIsTextData(e.timestampUtc);
    assert FormatRow(e, appName)[0] == ts[0];
  }

  lemma HeaderIsNotDataRow()
    ensures !IsDataRow(Header)
  {
    assert Header == "timestamp" + "," + JoinRecord(HeaderFields[1..]);
    assert Header[0] == 't';
  }

  /** In a well-formed non-empty log the header occurs exactly once. */
  lemma {:induction false} SingleHeader(f: seq<string>)
    requires WellFormedLog(f) && 0 < |f|
    ensures multiset(f)[Header] == 1
  {
    HeaderIsNotDataRow();
    assert f == [f[0]] + f[1..];
    assert Header !in f[1..] by {
      forall i | 0 <= i < |f[1..]| ensures f[1..][i] != Header {
        assert IsDataRow(f[i + 1]);
      }
    }
    assert multiset(f) == multiset{f[0]} + multiset(f[1..]);
  }

  /** What happens to one file over time: a session opens it (in the same
      second as the session that created it), or the open writer appends a
      row. */
  datatype FileEvent = Reopen(now: DateTimeUtc) | Append(entry: InputLogEntry, appName: string)

  function Replay(prefix: string, f: seq<string>, events: seq<FileEvent>): seq<string>
    decreases |events|
  {
    if |events| == 0 then f
    else
      var f' := match events[0]
        case Reopen(now) => Open(prefix, now, f).lines
        case Append(e, app) => Write(CsvWriter("", f, 0), e, app).lines;
      Replay(prefix, f', events[1..])
  }

  lemma AppendKeepsWellFormed(f: seq<string>, e: InputLogEntry, appName: string)
    requires WellFormedLog(f) && 0 < |f|
    ensures WellFormedLog(f + [FormatRow(e, appName)])
  {
    RowIsDataRow(e, appName);
    var f' := f + [FormatRow(e, appName)];
    forall i | 1 <= i < |f'| ensures IsDataRow(f'[i]) {
      if i < |f| {
        assert f'[i] == f[i];
      }
    }
  }

  /** Over sessions that follow one another on one file (each writer
      disposed before the next open, so every open sees all earlier records),
      the file stays well formed, and once it is non-empty its header occurs
      exactly once. */
  lemma {:induction false} HeaderWrittenOnce(prefix: string, f: seq<string>, events: seq<FileEvent>)
    requires WellFormedLog(f)
    requires 0 < |events| && events[0].Reopen?
    ensures WellFormedLog(Replay(prefix, f, events))
    ensures multiset(Replay(prefix, f, events))[Header] == 1
    decreases |events|
  {
    var f' := Open(prefix, events[0].now, f).lines;
    assert WellFormedLog(f') && 0 < |f'|;
    OpenedLogStaysSingleHeader(prefix, f', events[1..]);
  }

  lemma {:induction false} OpenedLogStaysSingleHeader(prefix: string, f: seq<string>, events: seq<FileEvent>)
    requires WellFormedLog(f) && 0 < |f|
    ensures WellFormedLog(Replay(prefix, f, events))
    ensures multiset(Replay(prefix, f, events))[Header] == 1
    decreases |events|
  {
    if |events| == 0 {
      SingleHeader(f);
    } else {
      match events[0]
      case Reopen(now) =>
        assert Open(prefix, now, f).lines == f;
        OpenedLogStaysSingleHeader(prefix, f, events[1..]);
      case Append(e, app) =>
        AppendKeepsWellFormed(f, e, app);
        OpenedLogStaysSingleHeader(prefix, f + [FormatRow(e, app)], events[1..]);
    }
  }
}
