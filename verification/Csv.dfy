// packages/production/src/csv.ts: the CSV load file, read back by a decoder for the format of
// section 2 of RFC 4180.
module Csv {
  import opened Wrappers

  const CRLF: string := "\r\n"

  // ----- writing -----

  predicate IsTrigger(c: char) {
    c in {'=', '+', '-', '@', '\t', '\r'}
  }

  function Guarded(value: string): string {
    if value != "" && IsTrigger(value[0]) then "'" + value else value
  }

  predicate MustQuote(v: string, d: char) {
    exists i :: 0 <= i < |v| && (v[i] == '\"' || v[i] == d || v[i] == '\r' || v[i] == '\n' || v[i] == '\t')
  }

  // v.replaceAll('"', '""')
  function Doubled(v: string): string {
    if v == "" then "" else (if v[0] == '\"' then "\"\"" else [v[0]]) + Doubled(v[1..])
  }

  function Cell(value: string, d: char): string {
    var v := Guarded(value);
    if MustQuote(v, d) then "\"" + Doubled(v) + "\"" else v
  }

  // None when the delimiter is refused.
  function CsvEscape(value: string, delimiter: string): Option<string> {
    if |delimiter| != 1 || delimiter == "\"" then None else Some(Cell(value, delimiter[0]))
  }

  // A record's field: null or undefined, a text, or several texts.
  datatype Value = Absent | Text(text: string) | Many(texts: seq<string>)

  type Record = map<string, Value>

  datatype Mapping = Mapping(loadFileField: string, source: string)

  function JoinWith(parts: seq<string>, separator: string): string {
    if parts == [] then "" else if |parts| == 1 then parts[0] else parts[0] + separator + JoinWith(parts[1..], separator)
  }

  function ToCell(record: Record, source: string, separator: string): string {
    if source !in record then ""
    else match record[source]
      case Absent => ""
      case Text(t) => t
      case Many(ts) => JoinWith(ts, separator)
  }

  function Header(profile: seq<Mapping>): (r: seq<string>)
    ensures |r| == |profile|
  {
    seq(|profile|, i requires 0 <= i < |profile| => profile[i].loadFileField)
  }

  function RowOf(record: Record, profile: seq<Mapping>, separator: string): (r: seq<string>)
    ensures |r| == |profile|
  {
    seq(|profile|, i requires 0 <= i < |profile| => ToCell(record, profile[i].source, separator))
  }

  function Cells(values: seq<string>, d: char): (r: seq<string>)
    ensures |r| == |values| && forall i :: 0 <= i < |r| ==> r[i] == Cell(values[i], d)
  {
    seq(|values|, i requires 0 <= i < |values| => Cell(values[i], d))
  }

  function Line(values: seq<string>, d: char): string {
    JoinWith(Cells(values, d), [d])
  }

  // The header and one row per record, before escaping.
  function Table(records: seq<Record>, profile: seq<Mapping>, separator: string): (r: seq<seq<string>>)
    ensures |r| == |records| + 1 && forall i :: 0 <= i < |r| ==> |r[i]| == |profile|
  {
    [Header(profile)] + seq(|records|, i requires 0 <= i < |records| => RowOf(records[i], profile, separator))
  }

  function GuardedRow(values: seq<string>): (r: seq<string>)
    ensures |r| == |values| && forall i :: 0 <= i < |r| ==> r[i] == Guarded(values[i])
  {
    seq(|values|, i requires 0 <= i < |values| => Guarded(values[i]))
  }

  function GuardedTable(rows: seq<seq<string>>): (r: seq<seq<string>>)
    ensures |r| == |rows| && forall i :: 0 <= i < |r| ==> r[i] == GuardedRow(rows[i])
  {
    seq(|rows|, i requires 0 <= i < |rows| => GuardedRow(rows[i]))
  }

  // ----- reading -----

  predicate Plain(c: char, d: char) {
    c != '\"' && c != d && c != '\r' && c != '\n'
  }

  // A field and what follows it.
  function ReadPlain(s: string, d: char): (string, string) {
    if s == "" || !Plain(s[0], d) then ("", s)
    else
      var (f, rest) := ReadPlain(s[1..], d);
      ([s[0]] + f, rest)
  }

  // Inside quotes, up to and past the closing one.
  function ReadQuoted(s: string): Option<(string, string)>
    decreases |s|
  {
    if s == "" then None
    else if s[0] != '\"' then
      match ReadQuoted(s[1..])
      case Some((f, rest)) => Some(([s[0]] + f, rest))
      case None => None
    else if |s| > 1 && s[1] == '\"' then
      match ReadQuoted(s[2..])
      case Some((f, rest)) => Some((['\"'] + f, rest))
      case None => None
    else Some(("", s[1..]))
  }

  function ReadField(s: string, d: char): Option<(string, string)> {
    if s != "" && s[0] == '\"' then ReadQuoted(s[1..]) else Some(ReadPlain(s, d))
  }

  lemma {:induction false} PlainShorter(s: string, d: char)
    ensures |ReadPlain(s, d).1| <= |s|
  {
    if s != "" && Plain(s[0], d) { PlainShorter(s[1..], d); }
  }

  lemma {:induction false} QuotedShorter(s: string)
    ensures ReadQuoted(s).Some? ==> |ReadQuoted(s).value.1| < |s|
    decreases |s|
  {
    if s != "" {
      if s[0] != '\"' { QuotedShorter(s[1..]); }
      else if |s| > 1 && s[1] == '\"' { QuotedShorter(s[2..]); }
    }
  }

  lemma FieldShorter(s: string, d: char)
    ensures ReadField(s, d).Some? ==> |ReadField(s, d).value.1| <= |s|
  {
    PlainShorter(s, d);
    if s != "" { QuotedShorter(s[1..]); }
  }

  // A record and what follows its line break; the last record may end without one.
  function ReadRecord(s: string, d: char): Option<(seq<string>, string)>
    decreases |s|
  {
    FieldShorter(s, d);
    match ReadField(s, d)
    case None => None
    case Some((f, rest)) =>
      if rest == "" then Some(([f], ""))
      else if rest[0] == d then
        match ReadRecord(rest[1..], d)
        case Some((fs, after)) => Some(([f] + fs, after))
        case None => None
      else if |rest| >= 2 && rest[..2] == CRLF then Some(([f], rest[2..]))
      else None
  }

  lemma {:induction false} RecordShorter(s: string, d: char)
    requires s != ""
    ensures ReadRecord(s, d).Some? ==> |ReadRecord(s, d).value.1| < |s|
    decreases |s|
  {
    FieldShorter(s, d);
    if ReadField(s, d).Some? {
      var rest := ReadField(s, d).value.1;
      if rest != "" && rest[0] == d {
        if rest[1..] != "" { RecordShorter(rest[1..], d); } else { LastField(d); }
      }
    }
  }

  lemma LastField(d: char)
    ensures ReadRecord("", d) == Some(([""], ""))
  {
    assert ReadField("", d) == Some(("", ""));
  }

  function Decode(s: string, d: char): Option<seq<seq<string>>>
    decreases |s|
  {
    if s == "" then Some([])
    else
      RecordShorter(s, d);
      match ReadRecord(s, d)
      case None => None
      case Some((r, rest)) =>
        match Decode(rest, d)
        case Some(rs) => Some([r] + rs)
        case None => None
  }

  // ----- what was written is read back -----

  predicate EndsField(after: string, d: char) {
    after == "" || after[0] == d || CRLF <= after
  }

  lemma {:induction false} ReadPlainText(v: string, after: string, d: char)
    requires !MustQuote(v, d) && EndsField(after, d)
    ensures ReadPlain(v + after, d) == (v, after)
  {
    var s := v + after;
    if v == "" {
      assert s == after;
      if after != "" && after[0] != d { assert after[0] == CRLF[0]; }
    } else {
      assert s[0] == v[0] && s[1..] == v[1..] + after;
      assert forall i :: 0 <= i < |v[1..]| ==> v[1..][i] == v[i + 1];
      ReadPlainText(v[1..], after, d);
      assert v == [v[0]] + v[1..];
    }
  }

  lemma {:induction false} ReadQuotedText(v: string, after: string)
    requires after == "" || after[0] != '\"'
    ensures ReadQuoted(Doubled(v) + "\"" + after) == Some((v, after))
  {
    var s := Doubled(v) + "\"" + after;
    if v == "" {
      assert s == "\"" + after && s[1..] == after;
    } else {
      var rest := Doubled(v[1..]) + "\"" + after;
      ReadQuotedText(v[1..], after);
      assert v == [v[0]] + v[1..];
      if v[0] == '\"' {
        assert s == "\"\"" + rest && s[2..] == rest;
      } else {
        assert s == [v[0]] + rest && s[1..] == rest;
      }
    }
  }

  lemma PlainStart(v: string, d: char)
    requires !MustQuote(v, d)
    ensures v != "" ==> v[0] != '\"'
  {
  }

  lemma AfterField(after: string, d: char)
    requires d != '\"' && EndsField(after, d)
    ensures after == "" || after[0] != '\"'
  {
    assert CRLF <= after ==> after[0] == CRLF[0];
  }

  lemma ReadCell(value: string, after: string, d: char)
    requires d != '\"' && EndsField(after, d)
    ensures ReadField(Cell(value, d) + after, d) == Some((Guarded(value), after))
  {
    var v := Guarded(value);
    AfterField(after, d);
    if MustQuote(v, d) {
      ReadQuotedText(v, after);
      hide Guarded, MustQuote, ReadQuoted, Doubled, EndsField;
      var s := "\"" + Doubled(v) + "\"" + after;
      assert Cell(value, d) + after == s;
      assert s[0] == '\"' && s[1..] == Doubled(v) + "\"" + after;
    } else {
      ReadPlainText(v, after, d);
      PlainStart(v, d);
      hide Guarded, MustQuote, ReadPlain, EndsField;
      assert Cell(value, d) == v;
      assert v + after != "" ==> (v + after)[0] != '\"';
    }
  }

  lemma LineFirst(values: seq<string>, d: char)
    requires |values| > 1
    ensures Line(values, d) == Cell(values[0], d) + [d] + Line(values[1..], d)
  {
    hide Cell;
    assert Cells(values, d)[1..] == Cells(values[1..], d);
  }

  lemma LineOnly(values: seq<string>, d: char)
    requires |values| == 1
    ensures Line(values, d) == Cell(values[0], d)
  {
  }

  // One record: what is left after its line break. With the line break's own CR as delimiter the
  // record goes on with the field that starts at LF, which nothing ends.
  lemma {:induction false} ReadLine(values: seq<string>, after: string, d: char)
    requires d != '\"' && values != []
    ensures ReadRecord(Line(values, d) + CRLF + after, d) == if d == '\r' then None else Some((GuardedRow(values), after))
    decreases |values|
  {
    hide Cell, ReadField, Line, Guarded;
    var s := Line(values, d) + CRLF + after;
    var first := Cell(values[0], d);
    if |values| == 1 {
      LineOnly(values, d);
      assert s == first + (CRLF + after);
      assert CRLF <= CRLF + after;
      ReadCell(values[0], CRLF + after, d);
      assert (CRLF + after)[..2] == CRLF && (CRLF + after)[2..] == after;
      assert GuardedRow(values) == [Guarded(values[0])];
      assert (CRLF + after)[1..] == "\n" + after;
      if d == '\r' { ReadFromLineFeed(after); }
    } else {
      var more := Line(values[1..], d) + CRLF + after;
      LineFirst(values, d);
      assert s == first + ([d] + more);
      ReadCell(values[0], [d] + more, d);
      ReadLine(values[1..], after, d);
      hide GuardedRow;
      assert ([d] + more)[1..] == more;
      RowFirst(values);
    }
  }

  lemma ReadFromLineFeed(after: string)
    ensures ReadRecord("\n" + after, '\r') == None
  {
    var s := "\n" + after;
    assert ReadField(s, '\r') == Some(("", s));
  }

  lemma RowFirst(values: seq<string>)
    requires values != []
    ensures GuardedRow(values) == [Guarded(values[0])] + GuardedRow(values[1..])
  {
    hide Guarded;
  }

  // Every line ended by CRLF.
  function Lines(rows: seq<seq<string>>, d: char): string {
    if rows == [] then "" else Line(rows[0], d) + CRLF + Lines(rows[1..], d)
  }

  lemma TableFirst(rows: seq<seq<string>>)
    requires rows != []
    ensures GuardedTable(rows) == [GuardedRow(rows[0])] + GuardedTable(rows[1..])
  {
    hide GuardedRow;
  }

  // The decoder gives back exactly the guarded cells, row by row; with CR as delimiter it gives back
  // nothing at all.
  lemma {:induction false} DecodeLines(rows: seq<seq<string>>, d: char)
    requires d != '\"' && rows != [] && forall k :: 0 <= k < |rows| ==> rows[k] != []
    ensures Decode(Lines(rows, d), d) == if d == '\r' then None else Some(GuardedTable(rows))
  {
    var after := Lines(rows[1..], d);
    ReadLine(rows[0], after, d);
    hide ReadRecord, Line, GuardedRow;
    if |rows| > 1 { DecodeLines(rows[1..], d); } else { assert after == "" && GuardedTable(rows[1..]) == []; }
    assert Lines(rows, d) == Line(rows[0], d) + CRLF + after && |CRLF| == 2;
    hide Lines;
    TableFirst(rows);
  }

  // lines.join(CRLF) + CRLF
  lemma {:induction false} JoinedLines(lines: seq<string>, rows: seq<seq<string>>, d: char)
    requires |lines| == |rows| > 0 && forall k :: 0 <= k < |lines| ==> lines[k] == Line(rows[k], d)
    ensures JoinWith(lines, CRLF) + CRLF == Lines(rows, d)
  {
    hide Line;
    if |lines| == 1 {
      assert Lines(rows[1..], d) == "";
    } else {
      JoinedLines(lines[1..], rows[1..], d);
    }
  }

  datatype CsvError = EmptyProfile | BadDelimiter

  // Whatever the records hold, the file decodes to the header and one row per record, each with one
  // field per profile column, every cell as written but for the formula guard; for every delimiter the
  // program accepts except CR, with which no file decodes.
  method BuildCsvFile(records: seq<Record>, profile: seq<Mapping>, delimiter: string, separator: string)
    returns (file: Result<string, CsvError>)
    ensures file.Ok? <==> profile != [] && |delimiter| == 1 && delimiter != "\""
    ensures file.Err? ==> file.error == if profile == [] then EmptyProfile else BadDelimiter
    ensures file.Ok? ==> file.value == Lines(Table(records, profile, separator), delimiter[0])
    ensures file.Ok? ==>
              Decode(file.value, delimiter[0]) ==
                if delimiter[0] == '\r' then None else Some(GuardedTable(Table(records, profile, separator)))
  {
    if |profile| == 0 { return Err(EmptyProfile); }
    if |delimiter| != 1 || delimiter == "\"" { return Err(BadDelimiter); }
    var d := delimiter[0];
    ghost var table := Table(records, profile, separator);
    var lines: seq<string> := [Line(Header(profile), d)];
    for k := 0 to |records|
      invariant |lines| == k + 1 && forall j :: 0 <= j <= k ==> lines[j] == Line(table[j], d)
    {
      hide Line;
      lines := lines + [Line(RowOf(records[k], profile, separator), d)];
    }
    JoinedLines(lines, table, d);
    DecodeLines(table, d);
    file := Ok(JoinWith(lines, CRLF) + CRLF);
  }

  // A file reads back as what was written exactly when its delimiter is not CR.
  lemma ReadsBackExactly(records: seq<Record>, profile: seq<Mapping>, d: char, separator: string)
    requires profile != [] && d != '\"'
    ensures var table := Table(records, profile, separator);
            Decode(Lines(table, d), d) == Some(GuardedTable(table)) <==> d != '\r'
  {
    DecodeLines(Table(records, profile, separator), d);
  }

  lemma GuardedIsSafe(value: string)
    ensures var v := Guarded(value);
            (v != "" ==> !IsTrigger(v[0])) && (v == value || v == "'" + value)
  {
  }

  // No cell a reader gets from a file can be taken for a formula, and an apostrophe in front is the
  // only difference to the cell as it was.
  lemma NoFormula(records: seq<Record>, profile: seq<Mapping>, d: char, separator: string, i: nat, j: nat)
    requires profile != [] && d != '\"'
    requires var read := Decode(Lines(Table(records, profile, separator), d), d);
             read.Some? && i < |read.value| && j < |read.value[i]|
    ensures var table := Table(records, profile, separator);
            var cell := Decode(Lines(table, d), d).value[i][j];
            && i < |table| && j < |table[i]|
            && (cell != "" ==> !IsTrigger(cell[0])) && (cell == table[i][j] || cell == "'" + table[i][j])
  {
    var table := Table(records, profile, separator);
    DecodeLines(table, d);
    GuardedIsSafe(table[i][j]);
  }
}
