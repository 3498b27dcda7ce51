/** The audit export as CSV text, and a reader that follows the quoting rules of section 2 of RFC 4180. */
module CsvWriter {
  import opened Prelude

  // ---- The writer ----

  const CSV_HEADERS: seq<string> := ["timestamp", "event_type", "actor_email", "payload_summary"]

  const MAX_PAYLOAD_KEYS := 6

  // The timestamp is already rendered as ISO 8601 text and each payload value as its string form; the payload
  // lists its keys in the order in which the object enumerates them.
  datatype AuditRow = AuditRow(
    timestamp: string,
    eventType: string,
    actorEmail: Option<string>,
    payload: seq<(string, string)>)

  function Join(parts: seq<string>, separator: string): string {
    if parts == [] then ""
    else if |parts| == 1 then parts[0]
    else parts[0] + separator + Join(parts[1..], separator)
  }

  function DoubleQuotes(value: string): string {
    if value == "" then ""
    else (if value[0] == '"' then "\"\"" else [value[0]]) + DoubleQuotes(value[1..])
  }

  predicate NeedsQuotes(value: string) {
    '"' in value || ',' in value || '\n' in value
  }

  function EscapeCsv(value: string): string {
    if NeedsQuotes(value) then "\"" + DoubleQuotes(value) + "\"" else value
  }

  function Entries(payload: seq<(string, string)>): seq<string> {
    seq(|payload|, i requires 0 <= i < |payload| => payload[i].0 + "=" + payload[i].1)
  }

  function SummarizePayload(payload: seq<(string, string)>): string {
    Join(Entries(if |payload| <= MAX_PAYLOAD_KEYS then payload else payload[..MAX_PAYLOAD_KEYS]), "; ")
  }

  function OrEmpty(value: Option<string>): string {
    if value.Some? then value.value else ""
  }

  lemma {:induction false} JoinAppend(parts: seq<string>, last: string, separator: string)
    requires parts != []
    ensures Join(parts + [last], separator) == Join(parts, separator) + separator + last
  {
    if |parts| > 1 {
      assert (parts + [last])[1..] == parts[1..] + [last];
      JoinAppend(parts[1..], last, separator);
    }
  }

  /** A summary lists its entries in order up to the sixth and ignores the rest; these cases determine it. */
  lemma SummaryGrows(payload: seq<(string, string)>, key: string, value: string)
    ensures SummarizePayload([]) == ""
    ensures payload == [] ==> SummarizePayload(payload + [(key, value)]) == key + "=" + value
    ensures 0 < |payload| < 6
            ==> SummarizePayload(payload + [(key, value)]) == SummarizePayload(payload) + "; " + (key + "=" + value)
    ensures |payload| >= 6 ==> SummarizePayload(payload + [(key, value)]) == SummarizePayload(payload)
  {
    hide Join;
    var all := payload + [(key, value)];
    EmptyJoin("; ", key + "=" + value);
    if |payload| < MAX_PAYLOAD_KEYS {
      assert Entries(all) == Entries(payload) + [key + "=" + value];
      if payload == [] {
        assert Entries(all) == [key + "=" + value];
      } else {
        JoinAppend(Entries(payload), key + "=" + value, "; ");
      }
    } else {
      assert all[..MAX_PAYLOAD_KEYS] == payload[..MAX_PAYLOAD_KEYS];
    }
  }

  lemma EmptyJoin(separator: string, part: string)
    ensures Join([], separator) == "" && Join([part], separator) == part
  {
  }

  // The four values a row stands for.
  function Fields(row: AuditRow): seq<string> {
    [row.timestamp, row.eventType, OrEmpty(row.actorEmail), SummarizePayload(row.payload)]
  }

  function EscapeAll(fields: seq<string>): seq<string> {
    if fields == [] then [] else [EscapeCsv(fields[0])] + EscapeAll(fields[1..])
  }

  function Line(fields: seq<string>): string {
    Join(EscapeAll(fields), ",") + "\n"
  }

  function Records(rows: seq<AuditRow>): seq<seq<string>> {
    if rows == [] then [] else [Fields(rows[0])] + Records(rows[1..])
  }

  // The text of a stream of chunks.
  function Text(chunks: seq<string>): string {
    if chunks == [] then "" else Text(chunks[..|chunks| - 1]) + chunks[|chunks| - 1]
  }

  /** The chunks of the stream: read back, they are the header and the rows, nothing lost and nothing run together. */
  method CreateAuditCsvStream(rows: seq<AuditRow>) returns (chunks: seq<string>)
    ensures |chunks| == 1 + |rows|
    ensures Read(Text(chunks)) == Some([CSV_HEADERS] + Records(rows))
    ensures var records := Read(Text(chunks));
            && records.Some? && |records.value| == 1 + |rows|
            && records.value[0] == ["timestamp", "event_type", "actor_email", "payload_summary"]
            && forall i :: 0 <= i < |rows| ==> IsRow(records.value[0], records.value[i + 1], rows[i])
  {
    hide Text, Lines, Records, Read, EscapeCsv, EscapeAll, SummarizePayload;
    chunks := [Join(CSV_HEADERS, ",") + "\n"];
    HeaderText();
    var i := 0;
    while i < |rows|
      invariant 0 <= i <= |rows|
      invariant |chunks| == 1 + i
      invariant Text(chunks) == Lines([CSV_HEADERS] + Records(rows[..i]))
    {
      var row := rows[i];
      var line := Join([EscapeCsv(row.timestamp), EscapeCsv(row.eventType), EscapeCsv(OrEmpty(row.actorEmail)),
                        EscapeCsv(SummarizePayload(row.payload))], ",");
      EscapeFour(row.timestamp, row.eventType, OrEmpty(row.actorEmail), SummarizePayload(row.payload));
      assert rows[..i + 1] == rows[..i] + [row];
      OneMoreChunk(chunks, rows[..i], row);
      chunks := chunks + [line + "\n"];
      i := i + 1;
    }
    assert rows[..i] == rows;
    RecordsAreNonEmpty(rows);
    LinesReadBack([CSV_HEADERS] + Records(rows));
    forall i | 0 <= i < |rows|
      ensures IsRow(CSV_HEADERS, ([CSV_HEADERS] + Records(rows))[i + 1], rows[i])
    {
      FieldsAreInTheirColumns(rows[i]);
    }
  }

  // The value under a column of the header.
  ghost predicate Under(header: seq<string>, record: seq<string>, column: string, value: string) {
    exists k :: 0 <= k < |header| && k < |record| && header[k] == column && record[k] == value
  }

  // The record holds each value of the row under the column it belongs to.
  ghost predicate IsRow(header: seq<string>, record: seq<string>, row: AuditRow) {
    && |record| == |header|
    && Under(header, record, "timestamp", row.timestamp)
    && Under(header, record, "event_type", row.eventType)
    && Under(header, record, "actor_email", match row.actorEmail case Some(email) => email case None => "")
    && Under(header, record, "payload_summary", SummarizePayload(row.payload))
  }

  lemma FieldsAreInTheirColumns(row: AuditRow)
    ensures IsRow(CSV_HEADERS, Fields(row), row)
  {
    hide SummarizePayload;
    var record := Fields(row);
    assert CSV_HEADERS[0] == "timestamp" && record[0] == row.timestamp;
    assert CSV_HEADERS[1] == "event_type" && record[1] == row.eventType;
    assert CSV_HEADERS[2] == "actor_email" && record[2] == OrEmpty(row.actorEmail);
    assert CSV_HEADERS[3] == "payload_summary" && record[3] == SummarizePayload(row.payload);
  }

  // ---- The reader ----

  // Inside a quoted field a quote either ends the field or, doubled, stands for itself.
  datatype Mode = FieldStart | Plain | Quoted | QuoteSeen | Malformed

  datatype Reader = Reader(mode: Mode, field: string, record: seq<string>, records: seq<seq<string>>)

  function EndField(r: Reader): Reader {
    Reader(FieldStart, "", r.record + [r.field], r.records)
  }

  function EndRecord(r: Reader): Reader {
    Reader(FieldStart, "", [], r.records + [r.record + [r.field]])
  }

  function Feed(r: Reader, c: char): Reader {
    match r.mode
    case FieldStart =>
      if c == '"' then r.(mode := Quoted)
      else if c == ',' then EndField(r)
      else if c == '\n' then EndRecord(r)
      else r.(mode := Plain, field := r.field + [c])
    case Plain =>
      if c == '"' then r.(mode := Malformed)
      else if c == ',' then EndField(r)
      else if c == '\n' then EndRecord(r)
      else r.(field := r.field + [c])
    case Quoted =>
      if c == '"' then r.(mode := QuoteSeen) else r.(field := r.field + [c])
    case QuoteSeen =>
      if c == '"' then r.(mode := Quoted, field := r.field + [c])
      else if c == ',' then EndField(r)
      else if c == '\n' then EndRecord(r)
      else r.(mode := Malformed)
    case Malformed => r
  }

  function FeedAll(r: Reader, text: string): Reader
    decreases text
  {
    if text == "" then r else FeedAll(Feed(r, text[0]), text[1..])
  }

  // The last record may come without its line end; an open quote or a stray one is an error.
  function Read(text: string): Option<seq<seq<string>>> {
    var r := FeedAll(Reader(FieldStart, "", [], []), text);
    if r.mode == Malformed || r.mode == Quoted then None
    else if r.mode == FieldStart && r.record == [] then Some(r.records)
    else Some(EndRecord(r).records)
  }

  // ---- Round trip ----

  lemma {:induction false} FeedAllAppend(r: Reader, first: string, second: string)
    ensures FeedAll(r, first + second) == FeedAll(FeedAll(r, first), second)
    decreases first
  {
    if first == "" {
      assert first + second == second;
    } else {
      assert (first + second)[1..] == first[1..] + second;
      FeedAllAppend(Feed(r, first[0]), first[1..], second);
    }
  }

  lemma {:induction false} FeedPlain(r: Reader, value: string)
    requires r.mode == Plain && !NeedsQuotes(value)
    ensures FeedAll(r, value) == r.(field := r.field + value)
    decreases value
  {
    if value == "" {
      assert r.field + value == r.field;
    } else {
      FeedPlain(Feed(r, value[0]), value[1..]);
      assert (r.field + [value[0]]) + value[1..] == r.field + value;
    }
  }

  lemma {:induction false} FeedQuoted(r: Reader, value: string)
    requires r.mode == Quoted
    ensures FeedAll(r, DoubleQuotes(value)) == r.(field := r.field + value)
    decreases value
  {
    if value == "" {
      assert r.field + value == r.field;
    } else {
      var head := if value[0] == '"' then "\"\"" else [value[0]];
      FeedAllAppend(r, head, DoubleQuotes(value[1..]));
      FeedShort(r, head);
      FeedQuoted(FeedAll(r, head), value[1..]);
      assert (r.field + [value[0]]) + value[1..] == r.field + value;
    }
  }

  lemma FeedShort(r: Reader, head: string)
    ensures |head| == 1 ==> FeedAll(r, head) == Feed(r, head[0])
    ensures |head| == 2 ==> FeedAll(r, head) == Feed(Feed(r, head[0]), head[1])
  {
    if |head| == 1 {
      assert FeedAll(Feed(r, head[0]), head[1..]) == Feed(r, head[0]);
    } else if |head| == 2 {
      assert FeedAll(Feed(Feed(r, head[0]), head[1]), head[1..][1..]) == Feed(Feed(r, head[0]), head[1]);
    }
  }

  // From the start of a field, an escaped value leaves exactly that value in the open field.
  lemma FeedEscaped(r: Reader, value: string)
    requires r.mode == FieldStart && r.field == ""
    ensures var s := FeedAll(r, EscapeCsv(value));
            s.mode in {FieldStart, Plain, QuoteSeen} && s == r.(mode := s.mode, field := value)
  {
    if NeedsQuotes(value) {
      var quoted := Feed(r, '"');
      FeedAllAppend(r, "\"" + DoubleQuotes(value), "\"");
      FeedAllAppend(r, "\"", DoubleQuotes(value));
      FeedShort(r, "\"");
      FeedQuoted(quoted, value);
      assert quoted.field + value == value;
      FeedShort(FeedAll(quoted, DoubleQuotes(value)), "\"");
    } else if value != "" {
      FeedPlain(Feed(r, value[0]), value[1..]);
      assert [value[0]] + value[1..] == value;
      assert r.field + [value[0]] == [value[0]];
    }
  }

  // A comma or a line end closes the open field.
  lemma FeedSeparator(s: Reader)
    requires s.mode in {FieldStart, Plain, QuoteSeen}
    ensures FeedAll(s, ",") == EndField(s) && FeedAll(s, "\n") == EndRecord(s)
  {
    FeedShort(s, ",");
    FeedShort(s, "\n");
  }

  lemma LineOfOne(value: string)
    ensures Line([value]) == EscapeCsv(value) + "\n"
  {
    hide EscapeCsv;
    assert [value][1..] == [];
    assert EscapeAll([value]) == [EscapeCsv(value)];
  }

  lemma LineOfMore(value: string, rest: seq<string>)
    requires rest != []
    ensures Line([value] + rest) == (EscapeCsv(value) + ",") + Line(rest)
  {
    hide EscapeCsv;
    EscapeAllLength(rest);
    assert ([value] + rest)[1..] == rest;
    assert EscapeAll([value] + rest) == [EscapeCsv(value)] + EscapeAll(rest);
    assert EscapeAll([value] + rest)[1..] == EscapeAll(rest);
  }

  // A line closes one record with exactly its fields.
  lemma {:induction false} FeedLine(r: Reader, fields: seq<string>)
    requires r.mode == FieldStart && r.field == "" && fields != []
    ensures FeedAll(r, Line(fields)) == Reader(FieldStart, "", [], r.records + [r.record + fields])
    decreases fields
  {
    hide EscapeCsv, FeedAll, Line;
    var value, rest := fields[0], fields[1..];
    var s := FeedAll(r, EscapeCsv(value));
    FeedEscaped(r, value);
    FeedSeparator(s);
    if rest == [] {
      assert fields == [value];
      LineOfOne(value);
      FeedAllAppend(r, EscapeCsv(value), "\n");
    } else {
      assert fields == [value] + rest;
      LineOfMore(value, rest);
      FeedAllAppend(r, EscapeCsv(value) + ",", Line(rest));
      FeedAllAppend(r, EscapeCsv(value), ",");
      FeedLine(EndField(s), rest);
      assert (r.record + [value]) + rest == r.record + fields;
    }
  }

  lemma {:induction false} EscapeAllLength(fields: seq<string>)
    ensures |EscapeAll(fields)| == |fields|
  {
    if fields != [] {
      EscapeAllLength(fields[1..]);
    }
  }

  function Lines(records: seq<seq<string>>): string {
    if records == [] then "" else Lines(records[..|records| - 1]) + Line(records[|records| - 1])
  }

  lemma LinesAppend(records: seq<seq<string>>, fields: seq<string>)
    ensures Lines(records + [fields]) == Lines(records) + Line(fields)
  {
    assert (records + [fields])[..|records|] == records;
  }

  lemma {:induction false} FeedLines(records: seq<seq<string>>)
    requires forall i :: 0 <= i < |records| ==> records[i] != []
    ensures FeedAll(Reader(FieldStart, "", [], []), Lines(records)) == Reader(FieldStart, "", [], records)
  {
    if records != [] {
      var front, last := records[..|records| - 1], records[|records| - 1];
      FeedLines(front);
      FeedAllAppend(Reader(FieldStart, "", [], []), Lines(front), Line(last));
      FeedLine(Reader(FieldStart, "", [], front), last);
      assert [] + last == last;
      assert front + [last] == records;
    }
  }

  /** Any records of at least one field, whatever characters the fields hold, are read back from their lines. */
  lemma LinesReadBack(records: seq<seq<string>>)
    requires forall i :: 0 <= i < |records| ==> records[i] != []
    ensures Read(Lines(records)) == Some(records)
  {
    FeedLines(records);
  }

  /** So two exports with the same text hold the same values, row by row. */
  lemma LinesAreInjective(records: seq<seq<string>>, others: seq<seq<string>>)
    requires forall i :: 0 <= i < |records| ==> records[i] != []
    requires forall i :: 0 <= i < |others| ==> others[i] != []
    requires Lines(records) == Lines(others)
    ensures records == others
  {
    LinesReadBack(records);
    LinesReadBack(others);
  }

  // ---- The header and the rows of the export ----

  lemma EscapeFour(a: string, b: string, c: string, d: string)
    ensures EscapeAll([a, b, c, d]) == [EscapeCsv(a), EscapeCsv(b), EscapeCsv(c), EscapeCsv(d)]
  {
    hide EscapeCsv;
    assert [d][1..] == [] && EscapeAll([d]) == [EscapeCsv(d)];
    assert [c, d][1..] == [d] && EscapeAll([c, d]) == [EscapeCsv(c), EscapeCsv(d)];
    assert [b, c, d][1..] == [c, d] && EscapeAll([b, c, d]) == [EscapeCsv(b), EscapeCsv(c), EscapeCsv(d)];
    assert [a, b, c, d][1..] == [b, c, d];
  }

  // The header is written without escaping, which its four names do not need.
  lemma HeaderText()
    ensures Text([Join(CSV_HEADERS, ",") + "\n"]) == Lines([CSV_HEADERS] + Records([]))
  {
    hide EscapeCsv, EscapeAll, Join;
    HeaderIsPlain();
    EscapeFour("timestamp", "event_type", "actor_email", "payload_summary");
    TextAppend([], Join(CSV_HEADERS, ",") + "\n");
    LinesAppend([], CSV_HEADERS);
    assert [CSV_HEADERS] + Records([]) == [] + [CSV_HEADERS];
    assert [] + [Join(CSV_HEADERS, ",") + "\n"] == [Join(CSV_HEADERS, ",") + "\n"];
  }

  lemma HeaderIsPlain()
    ensures EscapeCsv("timestamp") == "timestamp" && EscapeCsv("event_type") == "event_type"
    ensures EscapeCsv("actor_email") == "actor_email" && EscapeCsv("payload_summary") == "payload_summary"
  {
    hide NeedsQuotes;
    HeaderNeedsNoQuotes();
  }

  lemma HeaderNeedsNoQuotes()
    ensures !NeedsQuotes("timestamp") && !NeedsQuotes("event_type")
    ensures !NeedsQuotes("actor_email") && !NeedsQuotes("payload_summary")
  {
    forall h | h in CSV_HEADERS
      ensures !NeedsQuotes(h)
    {
      if h == "timestamp" {
      } else if h == "event_type" {
      } else if h == "actor_email" {
      } else {
        assert h == "payload_summary";
      }
    }
  }

  lemma TextAppend(chunks: seq<string>, chunk: string)
    ensures Text(chunks + [chunk]) == Text(chunks) + chunk
  {
    assert (chunks + [chunk])[..|chunks|] == chunks;
  }

  lemma OneMoreChunk(chunks: seq<string>, rows: seq<AuditRow>, row: AuditRow)
    requires Text(chunks) == Lines([CSV_HEADERS] + Records(rows))
    ensures Text(chunks + [Line(Fields(row))]) == Lines([CSV_HEADERS] + Records(rows + [row]))
  {
    hide Text, Lines, Records, Fields, Line;
    TextAppend(chunks, Line(Fields(row)));
    RecordsAppend(rows, row);
    LinesAppend([CSV_HEADERS] + Records(rows), Fields(row));
    assert [CSV_HEADERS] + Records(rows + [row]) == ([CSV_HEADERS] + Records(rows)) + [Fields(row)];
  }

  lemma {:induction false} RecordsAppend(rows: seq<AuditRow>, row: AuditRow)
    ensures Records(rows + [row]) == Records(rows) + [Fields(row)]
  {
    if rows == [] {
      assert rows + [row] == [row];
      assert [row][1..] == [];
    } else {
      assert (rows + [row])[1..] == rows[1..] + [row];
      RecordsAppend(rows[1..], row);
    }
  }

  lemma {:induction false} RecordsAreNonEmpty(rows: seq<AuditRow>)
    ensures |Records(rows)| == |rows|
    ensures forall i :: 0 <= i < |rows| ==> Records(rows)[i] == Fields(rows[i])
  {
    if rows != [] {
      RecordsAreNonEmpty(rows[1..]);
    }
  }
}
