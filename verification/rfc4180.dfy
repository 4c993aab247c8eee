/** A reader for one record of comma-separated values following section 2 of
    RFC 4180: fields are separated by commas; a field is either plain text
    without comma, double quote, CR or LF, or is enclosed in double quotes, in
    which case it may hold commas and line breaks and a double quote inside it
    is written twice (items 5 to 7). The record's terminating line break is not
    part of the text given to ParseRecord. */
module Rfc4180 {
  import opened Primitives

  /** The characters that force a field to be enclosed in double quotes. */
  predicate IsSpecial(c: char) {
    c == ',' || c == '"' || c == '\n' || c == '\r'
  }

  /** A run of TEXTDATA: text that may stand as a field without quotes. */
  predicate IsTextData(s: string) {
    forall i :: 0 <= i < |s| ==> !IsSpecial(s[i])
  }

  /** Length of the longest prefix of `s` free of special characters. */
  function PlainLength(s: string): (n: nat)
    ensures n <= |s|
    ensures forall i :: 0 <= i < n ==> !IsSpecial(s[i])
    ensures n < |s| ==> IsSpecial(s[n])
  {
    if |s| == 0 || IsSpecial(s[0]) then 0 else 1 + PlainLength(s[1..])
  }

  /** A field value and the text that follows the field. */
  datatype Parsed = Parsed(value: string, rest: string)

  /** The inside of an escaped field, after its opening double quote, up to and
      including its closing double quote. */
  function ParseQuotedBody(s: string): (r: Option<Parsed>)
    ensures r.Some? ==> |r.value.rest| < |s|
  {
    if |s| == 0 then None
    else if s[0] == '"' then
      if 1 < |s| && s[1] == '"' then
        match ParseQuotedBody(s[2..])
        case None => None
        case Some(p) => Some(Parsed(['"'] + p.value, p.rest))
      else Some(Parsed("", s[1..]))
    else
      match ParseQuotedBody(s[1..])
      case None => None
      case Some(p) => Some(Parsed([s[0]] + p.value, p.rest))
  }

  /** The field at the start of `s`. */
  function ParseField(s: string): (r: Option<Parsed>)
    ensures r.Some? ==> |r.value.rest| <= |s|
  {
    if 0 < |s| && s[0] == '"' then ParseQuotedBody(s[1..])
    else
      var n := PlainLength(s);
      Some(Parsed(s[..n], s[n..]))
  }

  /** All fields of a record, or None when the text is not one record. */
  function ParseRecord(s: string): (r: Option<seq<string>>)
    ensures r.Some? ==> 0 < |r.value|
    decreases |s|
  {
    match ParseField(s)
    case None => None
    case Some(p) =>
      if |p.rest| == 0 then Some([p.value])
      else if p.rest[0] == ',' then
        match ParseRecord(p.rest[1..])
        case None => None
        case Some(fs) => Some([p.value] + fs)
      else None
  }
}
