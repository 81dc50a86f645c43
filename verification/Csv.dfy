/**
 The CSV export of the audit log, and readers for the quoting rules of RFC 4180, section 2: one whose
 records end with LF, which is what the export writes, and one that also ends them with CRLF.
 */
module Csv {
  import opened Wrappers
  import opened AuditQuery

  // ----- Export -----

  function DoubleQuotes(s: string): string {
    if s == "" then "" else (if s[0] == '"' then "\"\"" else [s[0]]) + DoubleQuotes(s[1..])
  }

  predicate NeedsQuotes(s: string) {
    ',' in s || '"' in s || '\n' in s
  }

  function CsvEscape(s: string): string {
    if NeedsQuotes(s) then "\"" + DoubleQuotes(s) + "\"" else s
  }

  lemma {:induction false} DoublingNeverShortens(s: string)
    ensures |DoubleQuotes(s)| >= |s|
  {
    if s == "" {
    } else {
      DoublingNeverShortens(s[1..]);
    }
  }

  /** A field is written as it is exactly if it has no comma, no quote and no line feed. */
  lemma QuotedOnlyIfNeeded(s: string)
    ensures CsvEscape(s) == s <==> ',' !in s && '"' !in s && '\n' !in s
  {
    DoublingNeverShortens(s);
  }

  const HEADER: seq<string> :=
    ["timestamp", "admin_username", "action", "result", "target_keycloak_user_id", "target_matrix_user_id"]

  /** The header line, written out; no column name needs quotes. */
  const HEADER_LINE: string :=
    "timestamp" + ("," + ("admin_username" + ("," + ("action" + ("," + ("result" + (","
    + ("target_keycloak_user_id" + ("," + ("target_matrix_user_id" + "\n"))))))))))

  function OrEmpty(s: Option<string>): string {
    if s.Some? then s.value else ""
  }

  function Fields(r: AuditRow): seq<string> {
    [r.timestamp, r.adminUsername, r.action, r.result, OrEmpty(r.keycloakTarget), OrEmpty(r.matrixTarget)]
  }

  /** The text of a record: escaped fields with commas between, LF at the end. */
  function Record(fields: seq<string>): string
    requires fields != []
  {
    if |fields| == 1 then CsvEscape(fields[0]) + "\n" else CsvEscape(fields[0]) + "," + Record(fields[1..])
  }

  function AllFields(logs: seq<AuditRow>): seq<seq<string>> {
    seq(|logs|, i requires 0 <= i < |logs| => Fields(logs[i]))
  }

  /** What an entry has under a column name. */
  function Cell(r: AuditRow, column: string): Option<string> {
    if column == "timestamp" then Some(r.timestamp)
    else if column == "admin_username" then Some(r.adminUsername)
    else if column == "action" then Some(r.action)
    else if column == "result" then Some(r.result)
    else if column == "target_keycloak_user_id" then r.keycloakTarget
    else if column == "target_matrix_user_id" then r.matrixTarget
    else None
  }

  /** Every field stands under the name of its column; a missing value is empty. */
  lemma FieldsMatchHeader(r: AuditRow, i: nat)
    requires i < 6
    ensures |HEADER| == |Fields(r)| == 6
    ensures Fields(r)[i] == if Cell(r, HEADER[i]).Some? then Cell(r, HEADER[i]).value else ""
    ensures i < 4 ==> Cell(r, HEADER[i]).Some?
  {
    assert HEADER[0] == "timestamp" && HEADER[1] == "admin_username" && HEADER[2] == "action" && HEADER[3] == "result";
    assert HEADER[4] == "target_keycloak_user_id" && HEADER[5] == "target_matrix_user_id";
  }

  // ----- Reading -----

  /** Where the reader stands within a field. */
  datatype Mode = Start | Plain | Quoted | QuoteSeen

  /** The fields of the current record, and the finished records; `crlf` readers take CRLF as the end of a record, too. */
  datatype Reader = Reader(mode: Mode, field: string, record: seq<string>, records: seq<seq<string>>, crlf: bool)

  function Fresh(crlf: bool): Reader {
    Reader(Start, "", [], [], crlf)
  }

  function EndField(p: Reader): Reader {
    p.(mode := Start, field := "", record := p.record + [p.field])
  }

  predicate EndsWithCr(s: string) {
    s != "" && s[|s| - 1] == '\r'
  }

  /** At LF: a CR just before it, outside quotes, belongs to the line end if the reader knows CRLF. */
  function EndRecord(p: Reader): Reader {
    var field := if p.crlf && p.mode.Plain? && EndsWithCr(p.field) then p.field[..|p.field| - 1] else p.field;
    p.(mode := Start, field := "", record := [], records := p.records + [p.record + [field]])
  }

  /** One character; `None` when the text is not CSV. */
  function Read(p: Reader, c: char): Option<Reader> {
    if p.mode.Quoted? then Some(if c == '"' then p.(mode := QuoteSeen) else p.(field := p.field + [c]))
    else if c == ',' then Some(EndField(p))
    else if c == '\n' then Some(EndRecord(p))
    else if c == '"' then
      match p.mode
      case Start => Some(p.(mode := Quoted))
      case QuoteSeen => Some(p.(mode := Quoted, field := p.field + [c]))
      case _ => None
    else if p.mode.QuoteSeen? then None
    else Some(p.(mode := Plain, field := p.field + [c]))
  }

  function ReadAll(p: Reader, s: string): Option<Reader>
    decreases |s|
  {
    if s == "" then Some(p)
    else
      var q := Read(p, s[0]);
      if q.None? then None else ReadAll(q.value, s[1..])
  }

  /** A text is read back if it ends with a complete record. */
  function ParseCsv(s: string, crlf: bool): Option<seq<seq<string>>> {
    var p := ReadAll(Fresh(crlf), s);
    if p.Some? && p.value.mode.Start? && p.value.record == [] then Some(p.value.records) else None
  }

  // ----- Round trip -----

  lemma {:induction false} ReadSum(p: Reader, s: string, t: string)
    requires ReadAll(p, s).Some?
    ensures ReadAll(p, s + t) == ReadAll(ReadAll(p, s).value, t)
    decreases |s|
  {
    if s == "" {
      assert s + t == t;
    } else {
      assert (s + t)[1..] == s[1..] + t;
      ReadSum(Read(p, s[0]).value, s[1..], t);
    }
  }

  lemma ReadChar(p: Reader, c: char)
    ensures ReadAll(p, [c]) == Read(p, c)
  {
    assert [c][1..] == "";
  }

  lemma {:induction false} ReadPlain(p: Reader, s: string)
    requires !NeedsQuotes(s) && (p.mode.Start? || p.mode.Plain?)
    ensures ReadAll(p, s) == Some(if s == "" then p else p.(mode := Plain, field := p.field + s))
    decreases |s|
  {
    if s == "" {
    } else {
      var q := p.(mode := Plain, field := p.field + [s[0]]);
      assert s[0] in s && forall c :: c in s[1..] ==> c in s;
      assert Read(p, s[0]) == Some(q);
      ReadPlain(q, s[1..]);
      assert s == [s[0]] + s[1..];
      assert s[1..] == "" ==> p.field + [s[0]] == p.field + s;
      assert p.field + [s[0]] + s[1..] == p.field + s;
    }
  }

  lemma {:induction false} ReadDoubled(p: Reader, s: string)
    requires p.mode.Quoted?
    ensures ReadAll(p, DoubleQuotes(s)) == Some(p.(field := p.field + s))
    decreases |s|
  {
    if s == "" {
      assert p.field + "" == p.field;
    } else {
      var q := p.(field := p.field + [s[0]]);
      var head := if s[0] == '"' then "\"\"" else [s[0]];
      ReadHead(p, s[0]);
      ReadSum(p, head, DoubleQuotes(s[1..]));
      ReadDoubled(q, s[1..]);
      assert p.field + [s[0]] + s[1..] == p.field + s;
    }
  }

  lemma ReadHead(p: Reader, c: char)
    requires p.mode.Quoted?
    ensures ReadAll(p, if c == '"' then "\"\"" else [c]) == Some(p.(field := p.field + [c]))
  {
    if c == '"' {
      assert "\"\""[1..] == "\"" && "\""[1..] == "";
    } else {
      ReadChar(p, c);
    }
  }

  /** An escaped field is read back as itself, whatever it contains. */
  lemma ReadField(p: Reader, s: string)
    requires p.mode.Start? && p.field == ""
    ensures ReadAll(p, CsvEscape(s)).Some?
    ensures var q := ReadAll(p, CsvEscape(s)).value;
            && q == p.(mode := q.mode, field := s)
            && !q.mode.Quoted? && (q.mode.Plain? <==> !NeedsQuotes(s) && s != "")
  {
    if NeedsQuotes(s) {
      var q := p.(mode := Quoted);
      ReadChar(p, '"');
      ReadDoubled(q, s);
      ReadChar(q.(field := s), '"');
      ReadSum(q, DoubleQuotes(s), "\"");
      ReadSum(p, "\"", DoubleQuotes(s) + "\"");
      assert "\"" + DoubleQuotes(s) + "\"" == "\"" + (DoubleQuotes(s) + "\"");
      assert "" + s == s;
    } else {
      ReadPlain(p, s);
      assert "" + s == s;
    }
  }

  /** A field and its comma add the field to the record. */
  lemma ReadFieldThenComma(p: Reader, s: string)
    requires p.mode.Start? && p.field == ""
    ensures ReadAll(p, CsvEscape(s) + ",") == Some(p.(record := p.record + [s]))
  {
    ReadField(p, s);
    ReadSum(p, CsvEscape(s), ",");
    ReadChar(ReadAll(p, CsvEscape(s)).value, ',');
  }

  /** The CR that a reader which knows CRLF takes for part of the line end. */
  predicate CutsCr(crlf: bool, s: string) {
    crlf && !NeedsQuotes(s) && EndsWithCr(s)
  }

  /** What the reader gets of the last field of a record. */
  function LastField(crlf: bool, s: string): string {
    if CutsCr(crlf, s) then s[..|s| - 1] else s
  }

  /** What the reader gets of a record. */
  function Received(crlf: bool, fields: seq<string>): seq<string>
    requires fields != []
  {
    fields[..|fields| - 1] + [LastField(crlf, fields[|fields| - 1])]
  }

  lemma ReadFieldThenLf(p: Reader, s: string)
    requires p.mode.Start? && p.field == ""
    ensures ReadAll(p, CsvEscape(s) + "\n")
         == Some(p.(record := [], records := p.records + [p.record + [LastField(p.crlf, s)]]))
  {
    ReadField(p, s);
    ReadSum(p, CsvEscape(s), "\n");
    ReadChar(ReadAll(p, CsvEscape(s)).value, '\n');
  }

  lemma {:induction false} ReadRecord(p: Reader, fields: seq<string>)
    requires fields != [] && p.mode.Start? && p.field == ""
    ensures ReadAll(p, Record(fields))
         == Some(p.(record := [], records := p.records + [p.record + Received(p.crlf, fields)]))
    decreases |fields|
  {
    if |fields| == 1 {
      ReadFieldThenLf(p, fields[0]);
      assert Received(p.crlf, fields) == [LastField(p.crlf, fields[0])];
    } else {
      var q := p.(record := p.record + [fields[0]]);
      ReadRecord(q, fields[1..]);
      ReadFieldThenRest(p, fields[0], Record(fields[1..]));
      assert q.record + Received(p.crlf, fields[1..]) == p.record + Received(p.crlf, fields);
    }
  }

  lemma ReadFieldThenRest(p: Reader, s: string, rest: string)
    requires p.mode.Start? && p.field == ""
    ensures ReadAll(p, CsvEscape(s) + "," + rest) == ReadAll(p.(record := p.record + [s]), rest)
  {
    ReadFieldThenComma(p, s);
    ReadSum(p, CsvEscape(s) + ",", rest);
  }

  /** Fields that need no quotes are written as they are. */
  lemma PlainFields(f: seq<string>, rest: string)
    requires |f| >= 2 && !NeedsQuotes(f[0]) && Record(f[1..]) == rest
    ensures Record(f) == f[0] + ("," + rest)
  {
  }

  lemma PlainRecord(f: seq<string>, text: string)
    requires |f| == 6 && forall x | x in f :: !NeedsQuotes(x)
    requires text == f[0] + ("," + (f[1] + ("," + (f[2] + ("," + (f[3] + ("," + (f[4] + ("," + (f[5] + "\n"))))))))))
    ensures Record(f) == text
  {
    PlainFields(f[4..], f[5] + "\n");
    PlainFields(f[3..], Record(f[4..]));
    PlainFields(f[2..], Record(f[3..]));
    PlainFields(f[1..], Record(f[2..]));
    PlainFields(f, Record(f[1..]));
  }

  lemma HeaderLineIsRecord()
    ensures HEADER_LINE == Record(HEADER)
  {
    PlainRecord(HEADER, HEADER_LINE);
  }

  function AllReceived(crlf: bool, logs: seq<AuditRow>): seq<seq<string>> {
    seq(|logs|, i requires 0 <= i < |logs| => Received(crlf, Fields(logs[i])))
  }

  lemma ReadOneMore(crlf: bool, csv: string, logs: seq<AuditRow>, i: nat)
    requires i < |logs|
    requires ReadAll(Fresh(crlf), csv) == Some(Fresh(crlf).(records := [HEADER] + AllReceived(crlf, logs[..i])))
    ensures ReadAll(Fresh(crlf), csv + Record(Fields(logs[i])))
         == Some(Fresh(crlf).(records := [HEADER] + AllReceived(crlf, logs[..i + 1])))
  {
    var f := Fields(logs[i]);
    var p := Fresh(crlf).(records := [HEADER] + AllReceived(crlf, logs[..i]));
    ReadSum(Fresh(crlf), csv, Record(f));
    ReadRecord(p, f);
    assert [] + Received(crlf, f) == Received(crlf, f);
    assert [HEADER] + AllReceived(crlf, logs[..i + 1]) == p.records + [Received(crlf, f)];
  }

  lemma HeaderIsReceived(crlf: bool)
    ensures ReadAll(Fresh(crlf), HEADER_LINE) == Some(Fresh(crlf).(records := [HEADER]))
  {
    HeaderLineIsRecord();
    ReadRecord(Fresh(crlf), HEADER);
    assert [] + Received(crlf, HEADER) == HEADER && [] + [HEADER] == [HEADER];
  }

  /** What is received is what was written, unless a reader that knows CRLF cuts the CR of a last field. */
  lemma ReceivedIff(crlf: bool, logs: seq<AuditRow>)
    ensures AllReceived(crlf, logs) == AllFields(logs)
       <==> forall r | r in logs :: !CutsCr(crlf, OrEmpty(r.matrixTarget))
  {
    forall i | 0 <= i < |logs|
      ensures AllReceived(crlf, logs)[i] == AllFields(logs)[i] <==> !CutsCr(crlf, OrEmpty(logs[i].matrixTarget))
    {
      var f := Fields(logs[i]);
      assert Received(crlf, f)[5] == LastField(crlf, f[5]);
      assert f == f[..5] + [f[5]];
    }
    if AllReceived(crlf, logs) == AllFields(logs) {
      forall r | r in logs ensures !CutsCr(crlf, OrEmpty(r.matrixTarget)) {
        var i :| 0 <= i < |logs| && logs[i] == r;
        assert AllReceived(crlf, logs)[i] == AllFields(logs)[i];
      }
    }
    if forall r | r in logs :: !CutsCr(crlf, OrEmpty(r.matrixTarget)) {
      assert forall i | 0 <= i < |logs| :: logs[i] in logs;
      assert AllReceived(crlf, logs) == AllFields(logs);
    }
  }

  /** It can be cut: an entry whose Matrix user id ends in CR, and has nothing else in it that asks for quotes. */
  lemma CrMayBeCut(r: AuditRow)
    requires r.matrixTarget == Some("@u:d\r")
    ensures AllReceived(true, [r]) != AllFields([r])
  {
    var s := "@u:d\r";
    assert r in [r] && s[4] == '\r' && CutsCr(true, s);
    ReceivedIff(true, [r]);
  }

  /**
   The exported text is read back as the header followed by exactly the fields of every log entry, in
   order, whatever they contain; by a reader that also knows CRLF, exactly when no entry has a Matrix
   user id that ends in CR and needs no quotes.
   */
  method ExportCsv(logs: seq<AuditRow>) returns (csv: string)
    ensures ParseCsv(csv, false) == Some([HEADER] + AllFields(logs))
    ensures ParseCsv(csv, true) == Some([HEADER] + AllFields(logs))
       <==> forall r | r in logs :: !CutsCr(true, OrEmpty(r.matrixTarget))
  {
    csv := HEADER_LINE;
    HeaderIsReceived(false);
    HeaderIsReceived(true);
    assert [HEADER] + AllReceived(false, logs[..0]) == [HEADER] == [HEADER] + AllReceived(true, logs[..0]);
    for i := 0 to |logs|
      invariant ReadAll(Fresh(false), csv) == Some(Fresh(false).(records := [HEADER] + AllReceived(false, logs[..i])))
      invariant ReadAll(Fresh(true), csv) == Some(Fresh(true).(records := [HEADER] + AllReceived(true, logs[..i])))
    {
      ReadOneMore(false, csv, logs, i);
      ReadOneMore(true, csv, logs, i);
      csv := csv + Record(Fields(logs[i]));
    }
    assert logs[..|logs|] == logs;
    ReceivedIff(false, logs);
    ReceivedIff(true, logs);
    SameTail(AllReceived(true, logs), AllFields(logs));
  }

  lemma SameTail(a: seq<seq<string>>, b: seq<seq<string>>)
    ensures [HEADER] + a == [HEADER] + b <==> a == b
  {
    assert ([HEADER] + a)[1..] == a && ([HEADER] + b)[1..] == b;
  }
}
