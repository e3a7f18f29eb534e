/** The CSV writer and the CSV reader, and that the second undoes the first.
    The format is RFC 4180, section 2, with the reader accepting more than the writer emits. */
module Csv {
  import opened Outcomes

  // ---------------------------------------------------------------- the writer

  /** A date as its ISO rendering, which starts with a digit or, far from the present, a sign. */
  type Iso = s: string | s != "" && ('0' <= s[0] <= '9' || s[0] == '+' || s[0] == '-') witness "1970"

  datatype Entry = Entry(
    group: string, title: string, username: string, password: string, url: string, notes: string,
    totpSeed: Option<string>, tags: seq<string>, expiresAt: Option<Iso>, updatedAt: Iso)

  const HEADER: seq<string> :=
    ["Group", "Title", "Username", "Password", "URL", "Notes", "TOTP", "Tags", "Expires", "Last Modified"]

  predicate NeedsQuotes(v: string) {
    exists i :: 0 <= i < |v| && (v[i] == '"' || v[i] == ',' || v[i] == '\r' || v[i] == '\n')
  }

  function Doubled(v: string): string {
    if v == "" then "" else (if v[0] == '"' then "\"\"" else [v[0]]) + Doubled(v[1..])
  }

  function Cell(v: string): string {
    if NeedsQuotes(v) then "\"" + Doubled(v) + "\"" else v
  }

  function Join(parts: seq<string>, sep: string): string {
    if parts == [] then ""
    else if |parts| == 1 then parts[0]
    else parts[0] + sep + Join(parts[1..], sep)
  }

  function Cells(row: seq<string>): (r: seq<string>)
    ensures |r| == |row| && forall i :: 0 <= i < |r| ==> r[i] == Cell(row[i])
  {
    seq(|row|, i requires 0 <= i < |row| => Cell(row[i]))
  }

  function OrEmpty(v: Option<string>): string {
    if v.Some? then v.value else ""
  }

  function RowOf(e: Entry, groups: map<string, string>): seq<string> {
    [if e.group in groups then groups[e.group] else "", e.title, e.username, e.password, e.url, e.notes,
     OrEmpty(e.totpSeed), Join(e.tags, ";"), if e.expiresAt.Some? then e.expiresAt.value else "", e.updatedAt]
  }

  function RowsOf(entries: seq<Entry>, groups: map<string, string>): (r: seq<seq<string>>)
    ensures |r| == |entries| && forall i :: 0 <= i < |r| ==> r[i] == RowOf(entries[i], groups)
  {
    seq(|entries|, i requires 0 <= i < |entries| => RowOf(entries[i], groups))
  }

  function LineOf(row: seq<string>): string {
    Join(Cells(row), ",")
  }

  const EOL := "\r\n"

  /** Every row on a line of its own. */
  function Printed(rows: seq<seq<string>>): string {
    if rows == [] then "" else LineOf(rows[0]) + EOL + Printed(rows[1..])
  }

  method ExportCsv(entries: seq<Entry>, groups: map<string, string>) returns (text: string)
    ensures text == Printed([HEADER] + RowsOf(entries, groups))
  {
    var head := HEADER;
    HeaderLetters();
    text := PrintUnder(head, entries, groups);
  }

  method PrintUnder(head: seq<string>, entries: seq<Entry>, groups: map<string, string>) returns (text: string)
    requires LetterCells(head)
    ensures text == Printed([head] + RowsOf(entries, groups))
  {
    LettersUnquoted(head);
    var lines := [Join(head, ",")];
    ghost var rows := [head];
    for i := 0 to |entries|
      invariant rows == [head] + RowsOf(entries, groups)[..i]
      invariant lines == Lines(rows)
    {
      var row := RowOf(entries[i], groups);
      lines := lines + [Join(Cells(row), ",")];
      rows := rows + [row];
    }
    text := Join(lines, EOL) + EOL;
    JoinedLines(rows);
    assert rows == [head] + RowsOf(entries, groups);
  }

  ghost function Lines(rows: seq<seq<string>>): (r: seq<string>)
    ensures |r| == |rows| && forall i :: 0 <= i < |r| ==> r[i] == LineOf(rows[i])
  {
    seq(|rows|, i requires 0 <= i < |rows| => LineOf(rows[i]))
  }

  predicate Letters(v: string) {
    forall i :: 0 <= i < |v| ==> v[i] == ' ' || 'A' <= v[i] <= 'Z' || 'a' <= v[i] <= 'z'
  }

  predicate LetterCells(row: seq<string>) {
    forall i :: 0 <= i < |row| ==> Letters(row[i])
  }

  lemma HeaderLetters()
    ensures LetterCells(HEADER)
  {
  }

  lemma LettersUnquoted(row: seq<string>)
    requires LetterCells(row)
    ensures Cells(row) == row
  {
  }

  lemma {:induction false} JoinedLines(rows: seq<seq<string>>)
    requires rows != []
    ensures Join(Lines(rows), EOL) + EOL == Printed(rows)
  {
    assert Lines(rows)[1..] == Lines(rows[1..]);
    if |rows| == 1 {
      assert Printed(rows[1..]) == "";
    } else {
      JoinedLines(rows[1..]);
      assert Join(Lines(rows), EOL) + EOL == LineOf(rows[0]) + EOL + (Join(Lines(rows[1..]), EOL) + EOL);
    }
  }

  // ---------------------------------------------------------------- the reader

  const BOM: char := '\U{FEFF}'

  predicate IsWhiteSpace(c: char) {
    || '\U{0009}' <= c <= '\U{000D}' || c == ' ' || c == '\U{00A0}' || c == '\U{1680}'
    || '\U{2000}' <= c <= '\U{200A}' || c == '\U{2028}' || c == '\U{2029}' || c == '\U{202F}'
    || c == '\U{205F}' || c == '\U{3000}' || c == BOM
  }

  predicate Blank(s: string) {
    forall i :: 0 <= i < |s| ==> IsWhiteSpace(s[i])
  }

  predicate HasText(row: seq<string>) {
    exists i :: 0 <= i < |row| && !Blank(row[i])
  }

  function FirstLine(s: string): string {
    if s == "" || s[0] == '\r' || s[0] == '\n' then "" else [s[0]] + FirstLine(s[1..])
  }

  function Count(s: string, c: char): nat {
    if s == "" then 0 else (if s[0] == c then 1 else 0) + Count(s[1..], c)
  }

  function DelimiterOf(text: string): char {
    var line := FirstLine(text);
    var commas, semis, tabs := Count(line, ','), Count(line, ';'), Count(line, '\t');
    if semis > commas && semis > tabs then ';'
    else if tabs > commas && tabs > semis then '\t'
    else ','
  }

  datatype Scan = Scan(rows: seq<seq<string>>, row: seq<string>, field: string, inQuotes: bool)

  const START := Scan([], [], "", false)

  function EndRow(s: Scan): Scan {
    var row := s.row + [s.field];
    Scan(if HasText(row) then s.rows + [row] else s.rows, [], "", s.inQuotes)
  }

  /** One step: the state after character c, and how many characters it took. */
  function Feed(s: Scan, c: char, next: Option<char>, delimiter: char): (r: (Scan, nat))
    ensures r.1 == 1 || (r.1 == 2 && next.Some?)
  {
    if s.inQuotes then
      if c == '"' then
        if next == Some('"') then (s.(field := s.field + ['"']), 2) else (s.(inQuotes := false), 1)
      else (s.(field := s.field + [c]), 1)
    else if c == '"' then (s.(inQuotes := true), 1)
    else if c == delimiter then (s.(row := s.row + [s.field], field := ""), 1)
    else if c == '\r' then (EndRow(s), if next == Some('\n') then 2 else 1)
    else if c == '\n' then (EndRow(s), 1)
    else (s.(field := s.field + [c]), 1)
  }

  function CharAt(text: string, i: nat): Option<char> {
    if i < |text| then Some(text[i]) else None
  }

  function FeedAll(s: Scan, text: string, delimiter: char): Scan
    decreases |text|
  {
    if text == "" then s
    else
      var (next, n) := Feed(s, text[0], CharAt(text, 1), delimiter);
      FeedAll(next, text[n..], delimiter)
  }

  function Finished(s: Scan): seq<seq<string>> {
    if s.field != "" || s.row != [] then EndRow(s).rows else s.rows
  }

  function Parsed(csvText: string): seq<seq<string>> {
    var clean := if csvText != "" && csvText[0] == BOM then csvText[1..] else csvText;
    if Blank(clean) then [] else Finished(FeedAll(START, clean, DelimiterOf(clean)))
  }

  method ParseCsvRecords(csvText: string) returns (rows: seq<seq<string>>)
    ensures rows == Parsed(csvText)
  {
    if csvText == "" {
      return [];
    }
    var text := if csvText[0] == BOM then csvText[1..] else csvText;
    if Blank(text) {
      return [];
    }
    rows := ScanRows(text, DelimiterOf(text));
  }

  method ScanRows(text: string, delimiter: char) returns (rows: seq<seq<string>>)
    ensures rows == Finished(FeedAll(START, text, delimiter))
  {
    rows := [];
    var row: seq<string>, field, inQuotes := [], "", false;
    var i := 0;
    while i < |text|
      invariant 0 <= i <= |text|
      invariant FeedAll(Scan(rows, row, field, inQuotes), text[i..], delimiter) == FeedAll(START, text, delimiter)
    {
      ghost var before := Scan(rows, row, field, inQuotes);
      ghost var at := i;
      var c := text[i];
      var next := CharAt(text, i + 1);
      if inQuotes {
        if c == '"' {
          if next == Some('"') {
            field := field + ['"'];
            i := i + 1;
          } else {
            inQuotes := false;
          }
        } else {
          field := field + [c];
        }
      } else if c == '"' {
        inQuotes := true;
      } else if c == delimiter {
        row := row + [field];
        field := "";
      } else if c == '\r' {
        if next == Some('\n') {
          i := i + 1;
        }
        row := row + [field];
        field := "";
        if HasText(row) {
          rows := rows + [row];
        }
        row := [];
      } else if c == '\n' {
        row := row + [field];
        field := "";
        if HasText(row) {
          rows := rows + [row];
        }
        row := [];
      } else {
        field := field + [c];
      }
      i := i + 1;
      FedOnce(before, Scan(rows, row, field, inQuotes), text, at, i, delimiter);
    }
    if field != "" || row != [] {
      row := row + [field];
      if HasText(row) {
        rows := rows + [row];
      }
    }
  }

  lemma FedOnce(s: Scan, after: Scan, text: string, i: nat, j: nat, delimiter: char)
    requires i < |text| && i < j
    requires Feed(s, text[i], CharAt(text, i + 1), delimiter) == (after, j - i)
    ensures j <= |text| && FeedAll(s, text[i..], delimiter) == FeedAll(after, text[j..], delimiter)
  {
  }

  // ---------------------------------------------------------------- reading back one row

  predicate Plain(v: string) {
    !NeedsQuotes(v)
  }

  lemma {:induction false} ReadsPlain(s: Scan, v: string, rest: string)
    requires !s.inQuotes && Plain(v)
    ensures FeedAll(s, v + rest, ',') == FeedAll(s.(field := s.field + v), rest, ',')
    decreases |v|
  {
    if v == "" {
      assert v + rest == rest && s.field + v == s.field;
    } else {
      var c := v[0];
      assert (v + rest)[1..] == v[1..] + rest && (v + rest)[0] == c;
      assert Plain(v[1..]);
      var next := s.(field := s.field + [c]);
      ReadsPlain(next, v[1..], rest);
      assert next.field + v[1..] == s.field + v;
    }
  }

  lemma {:induction false} ReadsQuoted(s: Scan, v: string, rest: string)
    requires s.inQuotes && (rest == "" || rest[0] != '"')
    ensures FeedAll(s, Doubled(v) + "\"" + rest, ',') == FeedAll(s.(field := s.field + v, inQuotes := false), rest, ',')
    decreases |v|
  {
    var text := Doubled(v) + "\"" + rest;
    if v == "" {
      assert text[1..] == rest && s.field + v == s.field;
    } else {
      var next := s.(field := s.field + [v[0]]);
      var tail := Doubled(v[1..]) + "\"" + rest;
      if v[0] == '"' {
        assert text[0] == '"' && text[1] == '"' && text[2..] == tail;
      } else {
        assert text[0] == v[0] && text[1..] == tail;
      }
      ReadsQuoted(next, v[1..], rest);
      assert next.field + v[1..] == s.field + v;
    }
  }

  /** A printed cell, followed by anything but a quote, reads back as its value. */
  lemma ReadsCell(s: Scan, v: string, rest: string)
    requires !s.inQuotes && s.field == "" && (rest == "" || rest[0] != '"')
    ensures FeedAll(s, Cell(v) + rest, ',') == FeedAll(s.(field := v), rest, ',')
  {
    assert "" + v == v;
    if NeedsQuotes(v) {
      var inner := Doubled(v) + "\"" + rest;
      assert Cell(v) + rest == "\"" + inner;
      Opens(s, inner);
      ReadsQuoted(s.(inQuotes := true), v, rest);
    } else {
      ReadsPlain(s, v, rest);
    }
  }

  lemma Opens(s: Scan, inner: string)
    requires !s.inQuotes
    ensures FeedAll(s, "\"" + inner, ',') == FeedAll(s.(inQuotes := true), inner, ',')
  {
  }

  function EndedBy(s: Scan, row: seq<string>): Scan {
    Scan(if HasText(s.row + row) then s.rows + [s.row + row] else s.rows, [], "", false)
  }

  lemma ReadsLastCell(s: Scan, v: string, rest: string)
    requires !s.inQuotes && s.field == ""
    ensures FeedAll(s, LineOf([v]) + EOL + rest, ',') == FeedAll(EndedBy(s, [v]), rest, ',')
  {
    var after := EOL + rest;
    assert LineOf([v]) + EOL + rest == Cell(v) + after;
    ReadsCell(s, v, after);
    ReadsEnd(s, v, rest);
  }

  lemma ReadsFirstCell(s: Scan, row: seq<string>, rest: string)
    requires !s.inQuotes && s.field == "" && |row| > 1
    ensures FeedAll(s, LineOf(row) + EOL + rest, ',')
         == FeedAll(s.(row := s.row + [row[0]]), LineOf(row[1..]) + EOL + rest, ',')
  {
    assert Cells(row)[1..] == Cells(row[1..]);
    var left := LineOf(row[1..]) + EOL + rest;
    assert LineOf(row) + EOL + rest == Cell(row[0]) + ("," + left);
    ReadsCell(s, row[0], "," + left);
    ReadsComma(s, row[0], left);
  }

  lemma {:induction false} ReadsRow(s: Scan, row: seq<string>, rest: string)
    requires !s.inQuotes && s.field == "" && row != []
    ensures FeedAll(s, LineOf(row) + EOL + rest, ',') == FeedAll(EndedBy(s, row), rest, ',')
    decreases |row|
  {
    if |row| == 1 {
      assert row == [row[0]];
      ReadsLastCell(s, row[0], rest);
    } else {
      ReadsFirstCell(s, row, rest);
      ReadsRow(s.(row := s.row + [row[0]]), row[1..], rest);
      assert s.row + [row[0]] + row[1..] == s.row + row;
    }
  }

  lemma ReadsEnd(s: Scan, v: string, rest: string)
    requires !s.inQuotes && s.field == ""
    ensures FeedAll(s.(field := v), EOL + rest, ',') == FeedAll(EndedBy(s, [v]), rest, ',')
  {
  }

  lemma ReadsComma(s: Scan, v: string, left: string)
    requires !s.inQuotes && s.field == ""
    ensures FeedAll(s.(field := v), "," + left, ',') == FeedAll(s.(row := s.row + [v]), left, ',')
  {
  }

  function Kept(rows: seq<seq<string>>): seq<seq<string>> {
    if rows == [] then [] else (if HasText(rows[0]) then [rows[0]] else []) + Kept(rows[1..])
  }

  lemma ReadsFirst(done: seq<seq<string>>, rows: seq<seq<string>>)
    requires rows != [] && rows[0] != []
    ensures FeedAll(Scan(done, [], "", false), Printed(rows), ',')
         == FeedAll(EndedBy(Scan(done, [], "", false), rows[0]), Printed(rows[1..]), ',')
  {
    ReadsRow(Scan(done, [], "", false), rows[0], Printed(rows[1..]));
  }

  lemma KeptFirst(done: seq<seq<string>>, rows: seq<seq<string>>)
    requires rows != []
    ensures done + Kept(rows) == EndedBy(Scan(done, [], "", false), rows[0]).rows + Kept(rows[1..])
  {
    var first, rest := rows[0], Kept(rows[1..]);
    assert [] + first == first;
    if HasText(first) {
      assert done + ([first] + rest) == (done + [first]) + rest;
    } else {
      assert [] + rest == rest;
    }
  }

  predicate NoneEmpty(rows: seq<seq<string>>) {
    forall i :: 0 <= i < |rows| ==> rows[i] != []
  }

  lemma {:induction false} ReadsRows(done: seq<seq<string>>, rows: seq<seq<string>>)
    requires NoneEmpty(rows)
    ensures FeedAll(Scan(done, [], "", false), Printed(rows), ',') == Scan(done + Kept(rows), [], "", false)
    decreases |rows|
  {
    if rows == [] {
      assert done + [] == done;
    } else {
      ReadsFirst(done, rows);
      KeptFirst(done, rows);
      ReadsRows(EndedBy(Scan(done, [], "", false), rows[0]).rows, rows[1..]);
    }
  }

  // ---------------------------------------------------------------- choosing the delimiter

  lemma {:induction false} FirstLineOf(line: string, rest: string)
    requires forall i :: 0 <= i < |line| ==> line[i] != '\r' && line[i] != '\n'
    requires rest != "" && rest[0] == '\r'
    ensures FirstLine(line + rest) == line
  {
    if line == "" {
      assert line + rest == rest;
    } else {
      assert (line + rest)[1..] == line[1..] + rest;
      FirstLineOf(line[1..], rest);
    }
  }

  lemma {:induction false} CountAbsent(s: string, c: char)
    requires c !in s
    ensures Count(s, c) == 0
  {
    if s != "" {
      CountAbsent(s[1..], c);
    }
  }

  lemma {:induction false} JoinedChars(parts: seq<string>, c: char)
    requires c in Join(parts, ",")
    ensures c == ',' || exists i :: 0 <= i < |parts| && c in parts[i]
  {
    if |parts| > 1 {
      if c in Join(parts[1..], ",") {
        JoinedChars(parts[1..], c);
        if c != ',' {
          var i :| 0 <= i < |parts[1..]| && c in parts[1..][i];
          assert c in parts[i + 1];
        }
      }
    }
  }

  /** A first line of plain cells without semicolons or tabs makes the reader use commas. */
  lemma CommaChosen(head: seq<string>, rest: string)
    requires LetterCells(head)
    requires rest != "" && rest[0] == '\r'
    ensures DelimiterOf(Join(head, ",") + rest) == ','
  {
    var line := Join(head, ",");
    forall i | 0 <= i < |line| ensures line[i] != '\r' && line[i] != '\n' && line[i] != ';' && line[i] != '\t' {
      JoinedChars(head, line[i]);
      forall k | 0 <= k < |head| && line[i] in head[k] ensures line[i] == ' ' || 'A' <= line[i] <= 'z' {
        assert Letters(head[k]);
      }
    }
    FirstLineOf(line, rest);
    CountAbsent(line, ';');
    CountAbsent(line, '\t');
  }

  // ---------------------------------------------------------------- the round trip

  lemma ParsedWithCommas(text: string)
    requires text != "" && !IsWhiteSpace(text[0]) && DelimiterOf(text) == ','
    ensures Parsed(text) == Finished(FeedAll(START, text, ','))
  {
  }

  lemma PrintedUnder(head: seq<string>, rows: seq<seq<string>>)
    requires LetterCells(head)
    ensures Printed([head] + rows) == Join(head, ",") + (EOL + Printed(rows))
  {
    LettersUnquoted(head);
    assert ([head] + rows)[1..] == rows;
  }

  lemma JoinStarts(head: seq<string>)
    requires head != [] && head[0] != ""
    ensures Join(head, ",") != "" && Join(head, ",")[0] == head[0][0]
  {
  }

  lemma LettersKept(head: seq<string>, rows: seq<seq<string>>)
    requires LetterCells(head) && head != [] && head[0] != "" && head[0][0] != ' '
    ensures !IsWhiteSpace(head[0][0])
    ensures Kept([head] + rows) == [head] + Kept(rows)
  {
  }

  lemma ReadsAll(rows: seq<seq<string>>)
    requires NoneEmpty(rows)
    ensures Finished(FeedAll(START, Printed(rows), ',')) == Kept(rows)
  {
    ReadsRows([], rows);
    assert [] + Kept(rows) == Kept(rows);
  }

  lemma OpensPlainly(head: seq<string>, rows: seq<seq<string>>)
    requires LetterCells(head) && head != [] && head[0] != "" && head[0][0] != ' '
    ensures var text := Printed([head] + rows);
      text != "" && !IsWhiteSpace(text[0]) && DelimiterOf(text) == ','
  {
    PrintedUnder(head, rows);
    CommaChosen(head, EOL + Printed(rows));
    JoinStarts(head);
    LettersKept(head, rows);
  }

  /** Any table under a row of letters reads back exactly, less its wholly blank rows. */
  lemma PrintedParses(head: seq<string>, rows: seq<seq<string>>)
    requires LetterCells(head) && head != [] && head[0] != "" && head[0][0] != ' '
    requires NoneEmpty(rows)
    ensures Parsed(Printed([head] + rows)) == [head] + Kept(rows)
  {
    var all := [head] + rows;
    OpensPlainly(head, rows);
    ParsedWithCommas(Printed(all));
    ReadsAll(all);
    LettersKept(head, rows);
  }

  lemma {:induction false} KeptAll(rows: seq<seq<string>>)
    requires forall i :: 0 <= i < |rows| ==> HasText(rows[i])
    ensures Kept(rows) == rows
  {
    if rows != [] {
      KeptAll(rows[1..]);
    }
  }

  /** Reading an export back gives the header and then one row per entry, cell for cell. */
  lemma ExportRoundTrip(entries: seq<Entry>, groups: map<string, string>)
    ensures Parsed(Printed([HEADER] + RowsOf(entries, groups))) == [HEADER] + RowsOf(entries, groups)
  {
    var rows := RowsOf(entries, groups);
    forall i | 0 <= i < |rows| ensures rows[i] != [] && HasText(rows[i]) {
      var date: string := entries[i].updatedAt;
      assert !Blank(date) by {
        assert !IsWhiteSpace(date[0]);
      }
      assert rows[i][9] == date;
    }
    KeptAll(rows);
    HeaderLetters();
    PrintedParses(HEADER, rows);
  }
}
