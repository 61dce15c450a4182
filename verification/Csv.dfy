/** The calibrator's CSV rows, read back as section 2 of RFC 4180 describes. */
module Csv {
  import opened Wrappers
  import opened Seqs

  // ---- Writing

  /** Every double quote doubled. */
  function Doubled(s: string): string {
    if s == "" then ""
    else if s[0] == '"' then "\"\"" + Doubled(s[1..])
    else [s[0]] + Doubled(s[1..])
  }

  predicate NeedsQuotes(s: string) {
    ',' in s || '"' in s || '\n' in s
  }

  function CsvEscape(s: string): string {
    if NeedsQuotes(s) then "\"" + Doubled(s) + "\"" else s
  }

  function Join(fields: seq<string>): string
    requires fields != []
  {
    if |fields| == 1 then fields[0] else fields[0] + "," + Join(fields[1..])
  }

  /** A printed row: the numeric columns as they are, then the escaped error text. */
  function PrintedRow(numeric: seq<string>, error: string): string {
    Join(numeric + [CsvEscape(error)])
  }

  // ---- Reading, by the rules of RFC 4180

  /** Characters an unquoted field may contain: anything but comma, quote and line break. */
  predicate IsPlainChar(c: char) {
    c != ',' && c != '"' && c != '\r' && c != '\n'
  }

  predicate IsPlain(s: string) {
    forall i :: 0 <= i < |s| ==> IsPlainChar(s[i])
  }

  datatype Parsed = Parsed(field: string, rest: string)

  /** An unquoted field: the longest run of plain characters. */
  function ParseUnquoted(s: string): (p: Parsed)
    ensures |p.rest| <= |s|
  {
    if s == "" || !IsPlainChar(s[0]) then Parsed("", s)
    else
      var p := ParseUnquoted(s[1..]);
      Parsed([s[0]] + p.field, p.rest)
  }

  /** The inside of a quoted field, up to its closing quote; two quotes stand for one. */
  function ParseQuoted(s: string): (p: Option<Parsed>)
    ensures p.Some? ==> |p.value.rest| < |s|
  {
    if s == "" then None
    else if s[0] != '"' then
      match ParseQuoted(s[1..])
      case None => None
      case Some(p) => Some(Parsed([s[0]] + p.field, p.rest))
    else if |s| > 1 && s[1] == '"' then
      match ParseQuoted(s[2..])
      case None => None
      case Some(p) => Some(Parsed("\"" + p.field, p.rest))
    else Some(Parsed("", s[1..]))
  }

  function ParseField(s: string): (p: Option<Parsed>)
    ensures p.Some? ==> |p.value.rest| <= |s|
  {
    if s != "" && s[0] == '"' then ParseQuoted(s[1..]) else Some(ParseUnquoted(s))
  }

  /** One record: fields separated by commas; a field must end at a comma or at the end. */
  function ParseRecord(s: string): Option<seq<string>>
    decreases |s|
  {
    match ParseField(s)
    case None => None
    case Some(p) =>
      if p.rest == "" then Some([p.field])
      else if p.rest[0] != ',' then None
      else
        match ParseRecord(p.rest[1..])
        case None => None
        case Some(fields) => Some([p.field] + fields)
  }

  // ---- The round trip

  /** What may follow a field inside a record. */
  predicate AtFieldEnd(rest: string) {
    rest == "" || rest[0] == ','
  }

  lemma {:induction false} UnquotedParses(field: string, rest: string)
    requires IsPlain(field) && (rest == "" || !IsPlainChar(rest[0]))
    ensures ParseUnquoted(field + rest) == Parsed(field, rest)
  {
    if field == "" {
      assert field + rest == rest;
    } else {
      assert (field + rest)[1..] == field[1..] + rest;
      UnquotedParses(field[1..], rest);
      assert field == [field[0]] + field[1..];
    }
  }

  lemma QuotedSteps(c: char, inner: string)
    ensures c != '"' ==>
              ParseQuoted([c] + inner)
              == match ParseQuoted(inner) { case None => None case Some(p) => Some(Parsed([c] + p.field, p.rest)) }
    ensures ParseQuoted("\"\"" + inner)
            == match ParseQuoted(inner) { case None => None case Some(p) => Some(Parsed("\"" + p.field, p.rest)) }
  {
    assert ([c] + inner)[1..] == inner;
    assert ("\"\"" + inner)[2..] == inner;
  }

  lemma HeadAndTail(field: string)
    requires field != ""
    ensures field == [field[0]] + field[1..]
  {
  }

  lemma DoubledFront(field: string, close: string)
    requires field != ""
    ensures Doubled(field) + close == (if field[0] == '"' then "\"\"" else [field[0]]) + (Doubled(field[1..]) + close)
  {
    var head := if field[0] == '"' then "\"\"" else [field[0]];
    var tail := Doubled(field[1..]);
    assert Doubled(field) == head + tail;
    hide Doubled;
    Associates(head, tail, close);
  }

  lemma {:induction false} QuotedParses(field: string, rest: string)
    requires rest == "" || rest[0] != '"'
    ensures ParseQuoted(Doubled(field) + ("\"" + rest)) == Some(Parsed(field, rest))
  {
    var close := "\"" + rest;
    if field == "" {
      assert Doubled(field) + close == close && close[1..] == rest;
    } else {
      hide Doubled, ParseQuoted;
      QuotedParses(field[1..], rest);
      QuotedSteps(field[0], Doubled(field[1..]) + close);
      DoubledFront(field, close);
      HeadAndTail(field);
    }
  }

  lemma EscapedFieldParses(error: string, rest: string)
    requires AtFieldEnd(rest) && (NeedsQuotes(error) || IsPlain(error))
    ensures ParseField(CsvEscape(error) + rest) == Some(Parsed(error, rest))
  {
    if NeedsQuotes(error) {
      QuotedParses(error, rest);
      assert CsvEscape(error) + rest == "\"" + (Doubled(error) + ("\"" + rest));
      assert ("\"" + (Doubled(error) + ("\"" + rest)))[1..] == Doubled(error) + ("\"" + rest);
    } else {
      UnquotedParses(error, rest);
      assert error != "" ==> (error + rest)[0] == error[0];
    }
  }

  /** Plain columns in front of a row are read as they are. */
  lemma {:induction false} PlainColumnsParse(numeric: seq<string>, last: string)
    requires forall i :: 0 <= i < |numeric| ==> IsPlain(numeric[i])
    ensures ParseRecord(Join(numeric + [last]))
         == match ParseRecord(last)
            case None => None
            case Some(fields) => Some(numeric + fields)
  {
    if numeric == [] {
      assert numeric + [last] == [last];
      assert ParseRecord(last).Some? ==> [] + ParseRecord(last).value == ParseRecord(last).value;
    } else {
      var f, more := numeric[0], numeric[1..];
      assert (numeric + [last])[1..] == more + [last];
      PlainColumnsParse(more, last);
      var rest := "," + Join(more + [last]);
      UnquotedParses(f, rest);
      assert Join(numeric + [last]) == f + rest;
      assert (f + rest)[0] == if f == "" then ',' else f[0];
      assert ParseField(f + rest) == Some(Parsed(f, rest));
      assert rest[1..] == Join(more + [last]);
      assert forall fields: seq<string> :: [f] + (more + fields) == numeric + fields;
    }
  }

  lemma {:induction false} UnquotedStops(s: string)
    requires !IsPlain(s) && !NeedsQuotes(s)
    ensures var rest := ParseUnquoted(s).rest; rest != "" && rest[0] == '\r'
  {
    if IsPlainChar(s[0]) {
      assert s == [s[0]] + s[1..];
      UnquotedStops(s[1..]);
    }
  }

  /** Text is quoted only if it has a comma, a quote or a line feed. */
  lemma QuotedOnlyIfNeeded(s: string)
    ensures if ',' in s || '"' in s || '\n' in s then CsvEscape(s) == "\"" + Doubled(s) + "\"" else CsvEscape(s) == s
  {
  }

  /** A row reads back as its plain columns followed by the error text iff the text was quoted or has no
      carriage return; otherwise the row is not a record at all. */
  lemma RowRoundTrip(numeric: seq<string>, error: string)
    requires forall i :: 0 <= i < |numeric| ==> IsPlain(numeric[i])
    ensures ParseRecord(PrintedRow(numeric, error))
         == if ',' in error || '"' in error || '\n' in error || '\r' !in error then Some(numeric + [error]) else None
  {
    PlainColumnsParse(numeric, CsvEscape(error));
    if NeedsQuotes(error) || '\r' !in error {
      EscapedFieldParses(error, "");
      assert CsvEscape(error) + "" == CsvEscape(error);
    } else {
      UnquotedStops(error);
    }
  }
}
