/**
 * CSV export of tasks (code-algorithms/javascript/TaskManager/export.js).
 *
 * `EscapeCsv` quotes a value as section 2 of RFC 4180 describes, `GetPriorityName`
 * is the priority lookup table, and `ExportToCsv` builds the header line and one
 * line per task. The partner of the encoder is a reader for the same format
 * (`ParseField`, `ParseRecord`, `ParseFile`): the text written for a list of
 * tasks reads back as the header followed by each task's field values.
 *
 * Lines are separated by a single line feed, as the exporter writes them, where
 * RFC 4180 uses CRLF.
 */
module CsvExport {
  import opened Common

  // ---------------------------------------------------------------------------
  // Field escaping
  // ---------------------------------------------------------------------------

  /** The value contains a comma, a double quote or a newline. */
  predicate NeedsQuoting(s: string) { ',' in s || '"' in s || '\n' in s }

  /** `s.replace(/"/g, '""')` */
  function DoubleQuotes(s: string): string {
    if s == [] then []
    else (if s[0] == '"' then "\"\"" else [s[0]]) + DoubleQuotes(s[1..])
  }

  /** The escaping rule applied to a string value. */
  function EscapeText(s: string): string {
    if NeedsQuoting(s) then "\"" + DoubleQuotes(s) + "\"" else s
  }

  // ---------------------------------------------------------------------------
  // Reading back: the record grammar of section 2 of RFC 4180, with LF lines
  // ---------------------------------------------------------------------------

  /** The rest of a quoted field after its opening quote: its value and the text after the closing quote. */
  function ParseQuoted(s: string): (r: (string, string))
    ensures |r.1| <= |s|
  {
    if s == [] then ("", "")
    else if s[0] != '"' then
      var p := ParseQuoted(s[1..]); ([s[0]] + p.0, p.1)
    else if |s| > 1 && s[1] == '"' then
      var p := ParseQuoted(s[2..]); ("\"" + p.0, p.1)
    else ("", s[1..])
  }

  /** An unquoted field runs to the next comma or newline. */
  function ParseUnquoted(s: string): (r: (string, string))
    ensures |r.1| <= |s|
  {
    if s == [] || s[0] == ',' || s[0] == '\n' then ("", s)
    else
      var p := ParseUnquoted(s[1..]); ([s[0]] + p.0, p.1)
  }

  function ParseField(s: string): (r: (string, string))
    ensures |r.1| <= |s|
  {
    if |s| > 0 && s[0] == '"' then ParseQuoted(s[1..]) else ParseUnquoted(s)
  }

  /** The fields of one record and the text after it. */
  function ParseRecord(s: string): (r: (seq<string>, string))
    ensures |r.0| >= 1 && |r.1| <= |s|
    decreases |s|
  {
    var f := ParseField(s);
    if |f.1| > 0 && f.1[0] == ',' then
      var rec := ParseRecord(f.1[1..]); ([f.0] + rec.0, rec.1)
    else ([f.0], f.1)
  }

  /** The records of a text whose records are separated by newlines. */
  function ParseFile(s: string): (records: seq<seq<string>>)
    ensures |records| >= 1
    decreases |s|
  {
    var rec := ParseRecord(s);
    if |rec.1| > 0 && rec.1[0] == '\n' then [rec.0] + ParseFile(rec.1[1..]) else [rec.0]
  }

  // ---------------------------------------------------------------------------
  // Joining
  // ---------------------------------------------------------------------------

  /** `Array.prototype.join(sep)` */
  function Join(parts: seq<string>, sep: char): string {
    if |parts| == 0 then ""
    else if |parts| == 1 then parts[0]
    else parts[0] + [sep] + Join(parts[1..], sep)
  }

  /** The escaped fields of a record, joined by commas. */
  function EncodeRecord(values: seq<string>): string {
    Join(seq(|values|, i requires 0 <= i < |values| => EscapeText(values[i])), ',')
  }

  // ---------------------------------------------------------------------------
  // Round trip
  // ---------------------------------------------------------------------------

  /** What may follow a field: the end of the text, a comma or a newline. */
  predicate FieldEnd(rest: string) { rest == [] || rest[0] == ',' || rest[0] == '\n' }

  /** What may follow a record: the end of the text or a newline. */
  predicate RecordEnd(rest: string) { rest == [] || rest[0] == '\n' }

  lemma {:induction false} ParseQuotedDoubled(v: string, rest: string)
    requires rest == [] || rest[0] != '"'
    ensures ParseQuoted(DoubleQuotes(v) + "\"" + rest) == (v, rest)
  {
    var s := DoubleQuotes(v) + "\"" + rest;
    if v == [] {
      assert s == "\"" + rest;
      assert s[1..] == rest;
    } else if v[0] == '"' {
      var t := DoubleQuotes(v[1..]) + "\"" + rest;
      assert ParseQuoted(s) == ("\"" + ParseQuoted(t).0, ParseQuoted(t).1) by {
        assert s == "\"\"" + t;
        assert s[2..] == t;
      }
      ParseQuotedDoubled(v[1..], rest);
      assert "\"" + v[1..] == v;
    } else {
      var t := DoubleQuotes(v[1..]) + "\"" + rest;
      assert ParseQuoted(s) == ([v[0]] + ParseQuoted(t).0, ParseQuoted(t).1) by {
        assert s == [v[0]] + t;
        assert s[1..] == t;
      }
      ParseQuotedDoubled(v[1..], rest);
      assert [v[0]] + v[1..] == v;
    }
  }

  lemma {:induction false} ParseUnquotedPlain(v: string, rest: string)
    requires ',' !in v && '\n' !in v && FieldEnd(rest)
    ensures ParseUnquoted(v + rest) == (v, rest)
  {
    if v == [] {
      assert v + rest == rest;
    } else {
      assert (v + rest)[1..] == v[1..] + rest;
      ParseUnquotedPlain(v[1..], rest);
      assert [v[0]] + v[1..] == v;
    }
  }

  /** An escaped field reads back as the original value. */
  lemma ParseFieldEscaped(v: string, rest: string)
    requires FieldEnd(rest)
    ensures ParseField(EscapeText(v) + rest) == (v, rest)
  {
    if NeedsQuoting(v) {
      ParseQuotedField(v, rest);
    } else {
      ParsePlainField(v, rest);
    }
  }

  lemma ParseQuotedField(v: string, rest: string)
    requires FieldEnd(rest) && NeedsQuoting(v)
    ensures ParseField("\"" + DoubleQuotes(v) + "\"" + rest) == (v, rest)
  {
    var s := "\"" + DoubleQuotes(v) + "\"" + rest;
    assert ParseField(s) == ParseQuoted(DoubleQuotes(v) + "\"" + rest) by {
      assert s == "\"" + (DoubleQuotes(v) + "\"" + rest);
      assert s[1..] == DoubleQuotes(v) + "\"" + rest;
    }
    ParseQuotedDoubled(v, rest);
  }

  lemma ParsePlainField(v: string, rest: string)
    requires FieldEnd(rest) && !NeedsQuoting(v)
    ensures ParseField(v + rest) == (v, rest)
  {
    assert ParseField(v + rest) == ParseUnquoted(v + rest) by {
      if v != [] {
        assert (v + rest)[0] == v[0] && v[0] in v;
      }
    }
    ParseUnquotedPlain(v, rest);
  }

  lemma {:induction false} ParseRecordEncoded(values: seq<string>, rest: string)
    requires |values| >= 1 && RecordEnd(rest)
    ensures ParseRecord(EncodeRecord(values) + rest) == (values, rest)
  {
    if |values| == 1 {
      var cells := seq(|values|, i requires 0 <= i < |values| => EscapeText(values[i]));
      assert EncodeRecord(values) == cells[0];
      ParseFieldEscaped(values[0], rest);
      assert [values[0]] == values;
    } else {
      var tail := values[1..];
      var after := EncodeRecord(tail) + rest;
      var s := EncodeRecord(values) + rest;
      assert s == EscapeText(values[0]) + ([','] + after) by {
        EncodeRecordCons(values);
      }
      assert ParseField(s) == (values[0], [','] + after) by {
        ParseFieldEscaped(values[0], [','] + after);
      }
      ParseRecordStep(s, values[0], after);
      assert ParseRecord(after) == (tail, rest) by {
        ParseRecordEncoded(tail, rest);
      }
      assert [values[0]] + tail == values;
    }
  }

  /** A record of two or more values: the first escaped value, a comma, the rest encoded. */
  lemma EncodeRecordCons(values: seq<string>)
    requires |values| >= 2
    ensures EncodeRecord(values) == EscapeText(values[0]) + [','] + EncodeRecord(values[1..])
  {
    var cells := seq(|values|, i requires 0 <= i < |values| => EscapeText(values[i]));
    var tail := values[1..];
    assert cells[1..] == seq(|tail|, i requires 0 <= i < |tail| => EscapeText(tail[i]));
  }

  /** A field followed by a comma: the record is that field and the record after the comma. */
  lemma ParseRecordStep(s: string, v: string, after: string)
    requires ParseField(s) == (v, [','] + after)
    ensures ParseRecord(s) == ([v] + ParseRecord(after).0, ParseRecord(after).1)
  {
    assert ([','] + after)[1..] == after;
  }

  /** The encoded records, one line each. */
  function EncodeLines(records: seq<seq<string>>): (lines: seq<string>)
    ensures |lines| == |records|
  {
    if records == [] then [] else [EncodeRecord(records[0])] + EncodeLines(records[1..])
  }

  lemma {:induction false} EncodeLinesSnoc(records: seq<seq<string>>, r: seq<string>)
    ensures EncodeLines(records + [r]) == EncodeLines(records) + [EncodeRecord(r)]
  {
    if records == [] {
      assert [] + [r] == [r] && [r][1..] == [];
    } else {
      assert (records + [r])[1..] == records[1..] + [r];
      EncodeLinesSnoc(records[1..], r);
    }
  }

  /** The records, each encoded, one per line. */
  function EncodeFile(records: seq<seq<string>>): string {
    Join(EncodeLines(records), '\n')
  }

  /** Encoding then reading back gives the records again (each record has a field). */
  lemma {:induction false} ParseFileEncoded(records: seq<seq<string>>)
    requires |records| >= 1
    requires forall i :: 0 <= i < |records| ==> |records[i]| >= 1
    ensures ParseFile(EncodeFile(records)) == records
  {
    if |records| == 1 {
      ParseRecordEncoded(records[0], "");
      assert EncodeFile(records) == EncodeRecord(records[0]) + "";
    } else {
      var tail := records[1..];
      var after := EncodeFile(tail);
      var s := EncodeFile(records);
      assert s == EncodeRecord(records[0]) + (['\n'] + after);
      assert ParseRecord(s) == (records[0], ['\n'] + after) by {
        ParseRecordEncoded(records[0], ['\n'] + after);
      }
      assert (['\n'] + after)[1..] == after;
      assert ParseFile(after) == tail by {
        ParseFileEncoded(tail);
      }
      assert [records[0]] + tail == records;
    }
  }

  /**
   * `TaskExporter.escapeCSV`: `null` and `undefined` become the empty field,
   * and every field reads back as the value it escapes.
   */
  function EscapeCsv(value: Option<string>): (field: string)
    ensures value.None? ==> field == ""
    ensures value.Some? && !NeedsQuoting(value.value) ==> field == value.value
    ensures forall rest :: FieldEnd(rest) ==> ParseField(field + rest) == (value.GetOr(""), rest)
  {
    match value
    case None =>
      assert forall rest :: FieldEnd(rest) ==> ParseField("" + rest) == ParseField(EscapeText("") + rest);
      ParseAllEscaped("");
      ""
    case Some(s) =>
      ParseAllEscaped(s);
      EscapeText(s)
  }

  lemma ParseAllEscaped(v: string)
    ensures forall rest :: FieldEnd(rest) ==> ParseField(EscapeText(v) + rest) == (v, rest)
  {
    forall rest | FieldEnd(rest) ensures ParseField(EscapeText(v) + rest) == (v, rest) {
      ParseFieldEscaped(v, rest);
    }
  }

  // ---------------------------------------------------------------------------
  // Priority names
  // ---------------------------------------------------------------------------

  /** `TaskExporter.getPriorityName`: 1 to 4 name a priority, anything else is unknown. */
  function GetPriorityName(priority: int): (name: string)
    ensures name == "UNKNOWN" <==> !(1 <= priority <= 4)
  {
    if priority == 1 then "LOW"
    else if priority == 2 then "MEDIUM"
    else if priority == 3 then "HIGH"
    else if priority == 4 then "URGENT"
    else "UNKNOWN"
  }

  /** The inverse lookup, from a name back to its priority value. */
  function PriorityValue(name: string): Option<int> {
    if name == "LOW" then Some(1)
    else if name == "MEDIUM" then Some(2)
    else if name == "HIGH" then Some(3)
    else if name == "URGENT" then Some(4)
    else None
  }

  /** No priority name needs quoting in a CSV field. */
  lemma PriorityNamePlain(priority: int)
    ensures !NeedsQuoting(GetPriorityName(priority))
  {
    var name := GetPriorityName(priority);
    forall i | 0 <= i < |name| ensures 'A' <= name[i] <= 'Z' { }
  }

  /** The table is one-to-one: the name of a known priority leads back to it. */
  lemma PriorityNameRoundTrip(priority: int)
    ensures 1 <= priority <= 4 ==> PriorityValue(GetPriorityName(priority)) == Some(priority)
    ensures !(1 <= priority <= 4) ==> PriorityValue(GetPriorityName(priority)) == None
  {
  }

  // ---------------------------------------------------------------------------
  // Export
  // ---------------------------------------------------------------------------

  /**
   * A task as `listTasks` returns it. Dates are already in their ISO 8601 text
   * form, or absent.
   */
  datatype Task = Task(
    id: Option<string>, title: Option<string>, description: Option<string>, priority: int,
    status: Option<string>, createdAt: Option<string>, updatedAt: Option<string>,
    dueDate: Option<string>, completedAt: Option<string>, tags: seq<string>)

  const Headers := ["ID", "Title", "Description", "Priority", "Status",
                    "Created At", "Updated At", "Due Date", "Completed At", "Tags"]

  /** `TaskExporter.formatDate`, on an already formatted date: absent dates become the empty field. */
  function FormatDate(date: Option<string>): string { date.GetOr("") }

  /** The cells of a task's line, as `exportToCSV` builds them. */
  function RowCells(t: Task): seq<string> {
    [EscapeCsv(t.id), EscapeCsv(t.title), EscapeCsv(t.description), GetPriorityName(t.priority),
     EscapeCsv(t.status), FormatDate(t.createdAt), FormatDate(t.updatedAt), FormatDate(t.dueDate),
     FormatDate(t.completedAt), EscapeCsv(Some(Join(t.tags, ';')))]
  }

  function RowLine(t: Task): string { Join(RowCells(t), ',') }

  /** One line per task, in list order. */
  function RowLines(tasks: seq<Task>): (lines: seq<string>)
    ensures |lines| == |tasks|
    ensures forall i :: 0 <= i < |tasks| ==> lines[i] == RowLine(tasks[i])
  {
    if tasks == [] then [] else RowLines(tasks[..|tasks| - 1]) + [RowLine(tasks[|tasks| - 1])]
  }

  /** The header line followed by the task lines. */
  function CsvLines(tasks: seq<Task>): (lines: seq<string>)
    ensures |lines| == |tasks| + 1
  {
    [Join(Headers, ',')] + RowLines(tasks)
  }

  /** The file content: the lines joined by newlines. */
  function CsvText(tasks: seq<Task>): string { Join(CsvLines(tasks), '\n') }

  /** The `forEach` of `exportToCSV`: one line per task, pushed in order. */
  method TaskRows(tasks: seq<Task>) returns (csvRows: seq<string>)
    ensures csvRows == RowLines(tasks)
  {
    csvRows := [];
    for i := 0 to |tasks|
      invariant csvRows == RowLines(tasks[..i])
    {
      var row := RowCells(tasks[i]);
      assert tasks[..i + 1][..i] == tasks[..i];
      csvRows := csvRows + [Join(row, ',')];
    }
    assert tasks[..|tasks|] == tasks;
  }

  /**
   * `TaskExporter.exportToCSV`. `listTasks` stands for the task manager's
   * query; the written text is returned instead of being saved to a file.
   */
  method ExportToCsv(listTasks: (Option<string>, Option<int>, bool) -> seq<Task>,
                     statusFilter: Option<string>, priorityFilter: Option<int>)
    returns (success: bool, written: Option<string>)
    ensures var tasks := listTasks(statusFilter, priorityFilter, false);
      success == (tasks != []) && written == (if tasks == [] then None else Some(CsvText(tasks)))
  {
    var tasks := listTasks(statusFilter, priorityFilter, false);
    if |tasks| == 0 {
      return false, None;
    }
    var headers := Headers;
    var rows := TaskRows(tasks);
    var csvRows := [Join(headers, ',')] + rows;
    return true, Some(Join(csvRows, '\n'));
  }

  // ---------------------------------------------------------------------------
  // What a reader of the file sees
  // ---------------------------------------------------------------------------

  /** ISO 8601 text, as `toISOString` produces, never needs quoting. */
  predicate PlainDates(t: Task) {
    !NeedsQuoting(FormatDate(t.createdAt)) && !NeedsQuoting(FormatDate(t.updatedAt))
    && !NeedsQuoting(FormatDate(t.dueDate)) && !NeedsQuoting(FormatDate(t.completedAt))
  }

  /** The values a reader recovers from a task's line. */
  function RowValues(t: Task): seq<string> {
    [t.id.GetOr(""), t.title.GetOr(""), t.description.GetOr(""), GetPriorityName(t.priority),
     t.status.GetOr(""), FormatDate(t.createdAt), FormatDate(t.updatedAt), FormatDate(t.dueDate),
     FormatDate(t.completedAt), Join(t.tags, ';')]
  }

  lemma EscapeOf(value: Option<string>)
    ensures EscapeCsv(value) == EscapeText(value.GetOr(""))
  {
  }

  lemma RowLineEncodes(t: Task)
    requires PlainDates(t)
    ensures RowLine(t) == EncodeRecord(RowValues(t))
  {
    var values := RowValues(t);
    var cells := seq(|values|, i requires 0 <= i < |values| => EscapeText(values[i]));
    EscapeOf(t.id);
    EscapeOf(t.title);
    EscapeOf(t.description);
    EscapeOf(t.status);
    PriorityNamePlain(t.priority);
    assert cells == RowCells(t);
  }

  /** Every column name is plain text. */
  lemma HeadersPlain()
    ensures forall i :: 0 <= i < |Headers| ==> !NeedsQuoting(Headers[i])
  {
    forall i | 0 <= i < |Headers| ensures !NeedsQuoting(Headers[i]) {
    }
  }

  lemma EncodePlainRecord(header: seq<string>)
    requires forall i :: 0 <= i < |header| ==> !NeedsQuoting(header[i])
    ensures EncodeRecord(header) == Join(header, ',')
  {
    var cells := seq(|header|, i requires 0 <= i < |header| => EscapeText(header[i]));
    assert cells == header;
  }

  /** The values of each task, in list order. */
  function RowRecords(tasks: seq<Task>): (records: seq<seq<string>>)
    ensures |records| == |tasks|
    ensures forall i :: 0 <= i < |tasks| ==> records[i] == RowValues(tasks[i])
  {
    if tasks == [] then [] else RowRecords(tasks[..|tasks| - 1]) + [RowValues(tasks[|tasks| - 1])]
  }

  /** Encoding each task's values gives its exported line. */
  lemma {:induction false} RowRecordsEncode(tasks: seq<Task>)
    requires forall i :: 0 <= i < |tasks| ==> PlainDates(tasks[i])
    ensures EncodeLines(RowRecords(tasks)) == RowLines(tasks)
  {
    if tasks != [] {
      var init, last := tasks[..|tasks| - 1], tasks[|tasks| - 1];
      assert forall i :: 0 <= i < |init| ==> init[i] == tasks[i];
      RowRecordsEncode(init);
      EncodeLinesSnoc(RowRecords(init), RowValues(last));
      RowLineEncodes(last);
    }
  }

  /**
   * Reading the exported text with the RFC 4180 grammar gives the header and
   * then exactly one record per task, in order, holding the task's values.
   */
  lemma ExportReadsBack(tasks: seq<Task>)
    requires forall i :: 0 <= i < |tasks| ==> PlainDates(tasks[i])
    ensures ParseFile(CsvText(tasks)) == [Headers] + RowRecords(tasks)
  {
    ExportLinesReadBack(tasks);
    CsvTextLines(tasks);
  }

  /** The header line and the task lines, joined by newlines, read back as the header and the task values. */
  lemma ExportLinesReadBack(tasks: seq<Task>)
    requires forall i :: 0 <= i < |tasks| ==> PlainDates(tasks[i])
    ensures ParseFile(Join([Join(Headers, ',')] + RowLines(tasks), '\n')) == [Headers] + RowRecords(tasks)
  {
    HeadersPlain();
    ReadsBackWith(Headers, tasks);
  }

  lemma CsvTextLines(tasks: seq<Task>)
    ensures CsvText(tasks) == Join([Join(Headers, ',')] + RowLines(tasks), '\n')
  {
  }

  /** The same for any header of plain column names. */
  lemma ReadsBackWith(header: seq<string>, tasks: seq<Task>)
    requires |header| >= 1 && forall i :: 0 <= i < |header| ==> !NeedsQuoting(header[i])
    requires forall i :: 0 <= i < |tasks| ==> PlainDates(tasks[i])
    ensures ParseFile(Join([Join(header, ',')] + RowLines(tasks), '\n')) == [header] + RowRecords(tasks)
  {
    var records := [header] + RowRecords(tasks);
    assert EncodeFile(records) == Join([Join(header, ',')] + RowLines(tasks), '\n') by {
      EncodePlainRecord(header);
      assert records[1..] == RowRecords(tasks);
      RowRecordsEncode(tasks);
    }
    assert forall i :: 0 <= i < |records| ==> |records[i]| >= 1 by {
      forall i | 0 <= i < |records| ensures |records[i]| >= 1 {
        if i > 0 {
          assert records[i] == RowValues(tasks[i - 1]);
        }
      }
    }
    ParseFileEncoded(records);
  }
}
