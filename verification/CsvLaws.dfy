/** What stands in each column of an export, which cells are quoted, and what the reader makes of files the exporter
    never writes: other separators, other line ends, a byte order mark, no last line end. */
module CsvLaws {
  import opened Outcomes
  import opened Csv

  // ---------------------------------------------------------------- columns

  /** Each column holds its field: nothing for a group unknown or a value absent. */
  lemma RowColumns(e: Entry, groups: map<string, string>)
    ensures var row := RowOf(e, groups);
      && |row| == 10
      && row[0] == (if e.group in groups then groups[e.group] else "")
      && row[1] == e.title && row[2] == e.username && row[3] == e.password && row[4] == e.url && row[5] == e.notes
      && row[6] == (if e.totpSeed.Some? then e.totpSeed.value else "")
      && row[7] == Join(e.tags, ";")
      && row[8] == (if e.expiresAt.Some? then e.expiresAt.value else "")
      && row[9] == e.updatedAt
  {
  }

  /** Joining puts the separator between each part and the next. */
  lemma {:induction false} JoinGrows(parts: seq<string>, p: string, sep: string)
    ensures Join([p], sep) == p
    ensures parts != [] ==> Join(parts + [p], sep) == Join(parts, sep) + sep + p
  {
    if |parts| > 1 {
      JoinGrows(parts[1..], p, sep);
      assert (parts + [p])[1..] == parts[1..] + [p];
      assert Join(parts + [p], sep) == parts[0] + sep + (Join(parts[1..], sep) + sep + p);
    } else if |parts| == 1 {
      assert (parts + [p])[1..] == [p];
    }
  }

  /** Reading an export back gives, under its ten headings, each entry's values in their columns. */
  lemma ExportReadsBack(entries: seq<Entry>, groups: map<string, string>, i: nat)
    requires i < |entries|
    ensures var rows, e := Parsed(Printed([HEADER] + RowsOf(entries, groups))), entries[i];
      && |rows| == |entries| + 1
      && rows[0] == ["Group", "Title", "Username", "Password", "URL", "Notes", "TOTP", "Tags", "Expires", "Last Modified"]
      && |rows[i + 1]| == 10
      && rows[i + 1][0] == (if e.group in groups then groups[e.group] else "")
      && rows[i + 1][1..6] == [e.title, e.username, e.password, e.url, e.notes]
      && rows[i + 1][6] == (if e.totpSeed.Some? then e.totpSeed.value else "")
      && rows[i + 1][7] == Join(e.tags, ";")
      && rows[i + 1][8] == (if e.expiresAt.Some? then e.expiresAt.value else "")
      && rows[i + 1][9] == e.updatedAt
  {
    ExportRoundTrip(entries, groups);
    EntryRow(entries, groups, i);
    RowColumns(entries[i], groups);
    FiveOf(RowOf(entries[i], groups));
  }

  lemma FiveOf(row: seq<string>)
    requires |row| == 10
    ensures row[1..6] == [row[1], row[2], row[3], row[4], row[5]]
  {
  }

  lemma EntryRow(entries: seq<Entry>, groups: map<string, string>, i: nat)
    requires i < |entries|
    ensures var rows := [HEADER] + RowsOf(entries, groups);
      |rows| == |entries| + 1 && rows[0] == HEADER && rows[i + 1] == RowOf(entries[i], groups)
  {
  }

  /** Only a cell that holds a quote, a comma or a line end is quoted. */
  lemma QuotedIff(v: string)
    ensures var special := '"' in v || ',' in v || '\r' in v || '\n' in v;
      && (!special ==> Cell(v) == v)
      && (special ==> |Cell(v)| >= 2 && Cell(v)[0] == '"' && Cell(v)[|Cell(v)| - 1] == '"'
                      && |Cell(v)| == |v| + 2 + |set i | 0 <= i < |v| && v[i] == '"'|)
  {
    DoubledLength(v);
  }

  lemma {:induction false} DoubledLength(v: string)
    ensures |Doubled(v)| == |v| + |set i | 0 <= i < |v| && v[i] == '"'|
  {
    if v != "" {
      DoubledLength(v[1..]);
      var tail, all := set i | 0 <= i < |v[1..]| && v[1..][i] == '"', set i | 0 <= i < |v| && v[i] == '"';
      var moved := set i | i in tail :: i + 1;
      MovedSize(tail);
      assert all == moved + (if v[0] == '"' then {0} else {}) by {
        forall i | i in all && i > 0 ensures i in moved {
          assert v[1..][i - 1] == v[i] && i - 1 in tail;
        }
      }
    }
  }

  lemma {:induction false} MovedSize(s: set<int>)
    ensures |set i | i in s :: i + 1| == |s|
    decreases |s|
  {
    if s != {} {
      assert (forall j: int :: j !in s) ==> s == {};
      var i: int :| i in s;
      MovedSize(s - {i});
      var moved, fewer := set j | j in s :: j + 1, set j | j in s - {i} :: j + 1;
      forall x | x in moved ensures x in fewer + {i + 1} {
        var j :| j in s && x == j + 1;
        assert j != i ==> j in s - {i};
      }
      assert i + 1 !in fewer;
      assert moved == fewer + {i + 1};
    }
  }

  // ---------------------------------------------------------------- what the reader skips and chooses

  /** The white space a cell is trimmed of. */
  lemma WhiteSpaceIs(c: char)
    ensures IsWhiteSpace(c) <==>
      (c as int) in {0x9, 0xA, 0xB, 0xC, 0xD, 0x20, 0xA0, 0x1680, 0x2000, 0x2001, 0x2002, 0x2003, 0x2004, 0x2005, 0x2006, 0x2007,
                     0x2008, 0x2009, 0x200A, 0x2028, 0x2029, 0x202F, 0x205F, 0x3000, 0xFEFF}
  {
  }

  /** A row is dropped exactly when every cell of it is white space. */
  lemma {:induction false} KeptIff(rows: seq<seq<string>>, row: seq<string>)
    ensures row in Kept(rows) <==> row in rows && exists i, j :: 0 <= i < |row| && 0 <= j < |row[i]| && !IsWhiteSpace(row[i][j])
  {
    if rows != [] {
      KeptIff(rows[1..], row);
      assert rows == [rows[0]] + rows[1..];
      if HasText(row) {
        var i :| 0 <= i < |row| && !Blank(row[i]);
        var j :| 0 <= j < |row[i]| && !IsWhiteSpace(row[i][j]);
      }
    }
  }

  lemma {:induction false} CountIs(s: string, c: char)
    ensures Count(s, c) == |set i | 0 <= i < |s| && s[i] == c|
  {
    if s != "" {
      CountIs(s[1..], c);
      var tail, all := set i | 0 <= i < |s[1..]| && s[1..][i] == c, set i | 0 <= i < |s| && s[i] == c;
      var moved := set i | i in tail :: i + 1;
      MovedSize(tail);
      assert all == moved + (if s[0] == c then {0} else {}) by {
        forall i | i in all && i > 0 ensures i in moved {
          assert s[1..][i - 1] == s[i] && i - 1 in tail;
        }
      }
    }
  }

  /** The first line is what stands before the first line end. */
  lemma {:induction false} FirstLineIs(s: string)
    ensures var n := |FirstLine(s)|;
      n <= |s| && FirstLine(s) == s[..n] && (forall i :: 0 <= i < n ==> s[i] != '\r' && s[i] != '\n')
      && (n < |s| ==> s[n] == '\r' || s[n] == '\n')
  {
    if s != "" && s[0] != '\r' && s[0] != '\n' {
      FirstLineIs(s[1..]);
      assert s == [s[0]] + s[1..];
    }
  }

  /** The separator is the semicolon or the tab if there are more of it in the first line than of either other one,
      and the comma otherwise. */
  lemma SeparatorIs(text: string)
    ensures var line := FirstLine(text);
      var commas, semis, tabs := |set i | 0 <= i < |line| && line[i] == ','|, |set i | 0 <= i < |line| && line[i] == ';'|,
                                 |set i | 0 <= i < |line| && line[i] == '\t'|;
      DelimiterOf(text) == if semis > commas && semis > tabs then ';' else if tabs > commas && tabs > semis then '\t' else ','
  {
    CountIs(FirstLine(text), ',');
    CountIs(FirstLine(text), ';');
    CountIs(FirstLine(text), '\t');
  }

  /** A byte order mark in front makes no difference. */
  lemma MarkIgnored(text: string)
    requires text == "" || text[0] != BOM
    ensures Parsed([BOM] + text) == Parsed(text)
  {
    assert ([BOM] + text)[1..] == text;
  }

  // ---------------------------------------------------------------- other separators and line ends

  predicate Separator(d: char) {
    d != '"' && d != '\r' && d != '\n'
  }

  predicate LineEnd(eol: string) {
    eol == "\r\n" || eol == "\n" || eol == "\r"
  }

  predicate Bare(v: string, d: char) {
    forall i :: 0 <= i < |v| ==> v[i] != '"' && v[i] != d && v[i] != '\r' && v[i] != '\n'
  }

  predicate BareRow(row: seq<string>, d: char) {
    row != [] && forall i :: 0 <= i < |row| ==> Bare(row[i], d)
  }

  predicate BareRows(rows: seq<seq<string>>, d: char) {
    forall i :: 0 <= i < |rows| ==> BareRow(rows[i], d)
  }

  lemma {:induction false} ReadsBare(s: Scan, v: string, rest: string, d: char)
    requires !s.inQuotes && Bare(v, d)
    ensures FeedAll(s, v + rest, d) == FeedAll(s.(field := s.field + v), rest, d)
    decreases |v|
  {
    if v == "" {
      assert v + rest == rest && s.field + v == s.field;
    } else {
      var next := s.(field := s.field + [v[0]]);
      assert (v + rest)[1..] == v[1..] + rest && (v + rest)[0] == v[0];
      ReadsBare(next, v[1..], rest, d);
      assert next.field + v[1..] == s.field + v;
    }
  }

  lemma ReadsSeparator(s: Scan, rest: string, d: char)
    requires !s.inQuotes && Separator(d)
    ensures FeedAll(s, [d] + rest, d) == FeedAll(s.(row := s.row + [s.field], field := ""), rest, d)
  {
    assert ([d] + rest)[1..] == rest;
  }

  /** The row so far and the cell so far end here; the row is kept if any of it is not white space. */
  function RowEnded(s: Scan): Scan {
    var row := s.row + [s.field];
    Scan(if exists i :: 0 <= i < |row| && !Blank(row[i]) then s.rows + [row] else s.rows, [], "", s.inQuotes)
  }

  lemma ReadsLineEnd(s: Scan, rest: string, eol: string, d: char)
    requires !s.inQuotes && Separator(d) && LineEnd(eol) && (eol == "\r" ==> rest == "" || rest[0] != '\n')
    ensures FeedAll(s, eol + rest, d) == FeedAll(RowEnded(s), rest, d)
  {
    var text := eol + rest;
    assert text[|eol|..] == rest;
    if eol == "\r" && rest != "" {
      assert text[1] == rest[0];
    }
  }

  function TextOf(rows: seq<seq<string>>, eol: string, d: char): string {
    if rows == [] then "" else Join(rows[0], [d]) + eol + TextOf(rows[1..], eol, d)
  }

  lemma ReadsLastBare(s: Scan, v: string, rest: string, eol: string, d: char)
    requires !s.inQuotes && s.field == "" && Separator(d) && LineEnd(eol) && Bare(v, d)
    requires eol == "\r" ==> rest == "" || rest[0] != '\n'
    ensures FeedAll(s, Join([v], [d]) + eol + rest, d) == FeedAll(EndedBy(s, [v]), rest, d)
  {
    var tail := eol + rest;
    assert "" + v == v && Join([v], [d]) == v;
    assert v + eol + rest == v + tail;
    ReadsBare(s, v, tail, d);
    ReadsLineEnd(s.(field := v), rest, eol, d);
    EndedOne(s, v);
  }

  lemma EndedOne(s: Scan, v: string)
    requires !s.inQuotes && s.field == ""
    ensures RowEnded(s.(field := v)) == EndedBy(s, [v])
  {
  }

  lemma ReadsFirstBare(s: Scan, row: seq<string>, rest: string, eol: string, d: char)
    requires !s.inQuotes && s.field == "" && Separator(d) && |row| > 1 && Bare(row[0], d)
    ensures FeedAll(s, Join(row, [d]) + eol + rest, d)
         == FeedAll(s.(row := s.row + [row[0]]), Join(row[1..], [d]) + eol + rest, d)
  {
    var left := Join(row[1..], [d]) + eol + rest;
    assert "" + row[0] == row[0];
    assert Join(row, [d]) + eol + rest == row[0] + ([d] + left);
    ReadsBare(s, row[0], [d] + left, d);
    ReadsSeparator(s.(field := row[0]), left, d);
  }

  lemma {:induction false} ReadsBareRow(s: Scan, row: seq<string>, rest: string, eol: string, d: char)
    requires !s.inQuotes && s.field == "" && Separator(d) && LineEnd(eol) && BareRow(row, d)
    requires eol == "\r" ==> rest == "" || rest[0] != '\n'
    ensures FeedAll(s, Join(row, [d]) + eol + rest, d) == FeedAll(EndedBy(s, row), rest, d)
    decreases |row|
  {
    if |row| == 1 {
      assert row == [row[0]];
      ReadsLastBare(s, row[0], rest, eol, d);
    } else {
      ReadsFirstBare(s, row, rest, eol, d);
      ReadsBareRow(s.(row := s.row + [row[0]]), row[1..], rest, eol, d);
      assert s.row + [row[0]] + row[1..] == s.row + row;
    }
  }

  /** No row's text starts with a line feed, so a carriage return before it ends its line alone. */
  lemma TextStarts(rows: seq<seq<string>>, d: char)
    requires BareRows(rows, d) && Separator(d) && rows != []
    ensures TextOf(rows, "\r", d) != "" && TextOf(rows, "\r", d)[0] != '\n'
  {
    var row, line := rows[0], Join(rows[0], [d]);
    assert BareRow(row, d);
    if row[0] != "" {
      assert line[0] == row[0][0];
    } else if |row| > 1 {
      assert line[0] == d;
    } else {
      assert line == "";
    }
  }

  lemma {:induction false} ReadsBareRows(done: seq<seq<string>>, rows: seq<seq<string>>, eol: string, d: char)
    requires BareRows(rows, d) && Separator(d) && LineEnd(eol)
    ensures FeedAll(Scan(done, [], "", false), TextOf(rows, eol, d), d) == Scan(done + Kept(rows), [], "", false)
    decreases |rows|
  {
    if rows == [] {
      assert done + [] == done;
    } else {
      var s := Scan(done, [], "", false);
      assert BareRow(rows[0], d);
      if eol == "\r" && rows[1..] != [] {
        TextStarts(rows[1..], d);
      }
      ReadsBareRow(s, rows[0], TextOf(rows[1..], eol, d), eol, d);
      KeptFirst(done, rows);
      ReadsBareRows(EndedBy(s, rows[0]).rows, rows[1..], eol, d);
    }
  }

  /** A table of plain cells, whatever its separator and line ends, reads back row by row, less its blank rows, as
      long as the separator is the one the reader chooses. */
  lemma PlainTableReads(rows: seq<seq<string>>, eol: string, d: char)
    requires BareRows(rows, d) && Separator(d) && LineEnd(eol)
    requires var text := TextOf(rows, eol, d); text != "" && !IsWhiteSpace(text[0]) && DelimiterOf(text) == d
    ensures Parsed(TextOf(rows, eol, d)) == Kept(rows)
  {
    ReadsBareRows([], rows, eol, d);
    assert [] + Kept(rows) == Kept(rows);
  }

  /** The last line needs no end. */
  lemma LastLineNeedsNoEnd(s: Scan, row: seq<string>, d: char)
    requires !s.inQuotes && s.field == "" && s.row == [] && Separator(d) && BareRow(row, d) && Join(row, [d]) != ""
    ensures Finished(FeedAll(s, Join(row, [d]), d)) == EndedBy(s, row).rows
  {
    ReadsOpenRow(s, row, d);
    FinishesOpen(s, row);
  }

  lemma FinishesOpen(s: Scan, row: seq<string>)
    requires s.row == [] && !s.inQuotes && row != [] && (|row| > 1 || row[0] != "")
    ensures Finished(s.(row := s.row + row[..|row| - 1], field := row[|row| - 1])) == EndedBy(s, row).rows
  {
    var n := |row| - 1;
    var open := s.(row := s.row + row[..n], field := row[n]);
    assert open.row + [open.field] == row && s.row + row == row;
  }

  lemma {:induction false} ReadsOpenRow(s: Scan, row: seq<string>, d: char)
    requires !s.inQuotes && s.field == "" && Separator(d) && BareRow(row, d)
    ensures FeedAll(s, Join(row, [d]), d) == s.(row := s.row + row[..|row| - 1], field := row[|row| - 1])
    decreases |row|
  {
    if |row| == 1 {
      ReadsOpenCell(s, row[0], d);
      assert s.row + row[..0] == s.row;
    } else {
      ReadsFirstOpen(s, row, d);
      ReadsOpenRow(s.(row := s.row + [row[0]]), row[1..], d);
      assert s.row + [row[0]] + row[1..][..|row| - 2] == s.row + row[..|row| - 1];
    }
  }

  lemma ReadsOpenCell(s: Scan, v: string, d: char)
    requires !s.inQuotes && s.field == "" && Bare(v, d)
    ensures FeedAll(s, v, d) == s.(field := v)
  {
    assert v + "" == v && "" + v == v;
    ReadsBare(s, v, "", d);
  }

  lemma ReadsFirstOpen(s: Scan, row: seq<string>, d: char)
    requires !s.inQuotes && s.field == "" && Separator(d) && |row| > 1 && Bare(row[0], d)
    ensures FeedAll(s, Join(row, [d]), d) == FeedAll(s.(row := s.row + [row[0]]), Join(row[1..], [d]), d)
  {
    var left := Join(row[1..], [d]);
    assert "" + row[0] == row[0];
    assert Join(row, [d]) == row[0] + ([d] + left);
    ReadsBare(s, row[0], [d] + left, d);
    ReadsSeparator(s.(field := row[0]), left, d);
  }

  /** A heading of letters in two or more columns makes the reader choose its separator, be it comma, semicolon or
      tab; so any plain table under one reads back. */
  lemma TableUnderHeadingReads(head: seq<string>, rows: seq<seq<string>>, eol: string, d: char)
    requires LetterCells(head) && |head| >= 2 && head[0] != "" && head[0][0] != ' '
    requires d in {',', ';', '\t'} && LineEnd(eol) && BareRows(rows, d)
    ensures Parsed(TextOf([head] + rows, eol, d)) == [head] + Kept(rows)
  {
    var all := [head] + rows;
    HeadingBare(head, d);
    assert BareRows(all, d) by {
      forall i | 0 <= i < |all| ensures BareRow(all[i], d) {
        assert i > 0 ==> all[i] == rows[i - 1];
      }
    }
    HeadingChooses(head, all, eol, d);
    PlainTableReads(all, eol, d);
    LettersKept(head, rows);
  }

  lemma HeadingBare(head: seq<string>, d: char)
    requires LetterCells(head) && |head| >= 2 && d in {',', ';', '\t'}
    ensures BareRow(head, d)
  {
    forall i | 0 <= i < |head| ensures Bare(head[i], d) {
      assert Letters(head[i]);
    }
  }

  lemma HeadingChooses(head: seq<string>, all: seq<seq<string>>, eol: string, d: char)
    requires LetterCells(head) && |head| >= 2 && head[0] != "" && head[0][0] != ' '
    requires d in {',', ';', '\t'} && LineEnd(eol) && all != [] && all[0] == head
    ensures var text := TextOf(all, eol, d); text != "" && !IsWhiteSpace(text[0]) && DelimiterOf(text) == d
  {
    var line, rest := Join(head, [d]), eol + TextOf(all[1..], eol, d);
    assert TextOf(all, eol, d) == line + rest;
    assert Letters(head[0]) && line[0] == head[0][0];
    HeadingLine(head, d);
    forall i | 0 <= i < |line| ensures line[i] == d || (line[i] !in {'\r', '\n', ',', ';', '\t'}) {
      assert line[i] == d || Letters([line[i]]);
      assert [line[i]][0] == line[i];
    }
    FirstLineBefore(line, rest);
    forall c | c in {',', ';', '\t'} && c != d ensures Count(line, c) == 0 {
      CountAbsent(line, c);
    }
  }

  lemma {:induction false} FirstLineBefore(line: string, rest: string)
    requires forall i :: 0 <= i < |line| ==> line[i] != '\r' && line[i] != '\n'
    requires rest != "" && (rest[0] == '\r' || rest[0] == '\n')
    ensures FirstLine(line + rest) == line
  {
    if line == "" {
      assert line + rest == rest;
    } else {
      assert (line + rest)[1..] == line[1..] + rest;
      FirstLineBefore(line[1..], rest);
    }
  }

  lemma {:induction false} HeadingLine(head: seq<string>, d: char)
    requires LetterCells(head) && head != [] && d in {',', ';', '\t'}
    ensures forall i :: 0 <= i < |Join(head, [d])| ==> Join(head, [d])[i] == d || Letters([Join(head, [d])[i]])
    ensures |head| >= 2 ==> Count(Join(head, [d]), d) > 0
  {
    assert Letters(head[0]);
    forall i | 0 <= i < |head[0]| ensures Letters([head[0][i]]) {
    }
    if |head| >= 2 {
      HeadingLine(head[1..], d);
      var line := Join(head, [d]);
      assert line == head[0] + [d] + Join(head[1..], [d]);
      assert line[|head[0]|] == d;
      CountPresent(line, d);
    }
  }

  lemma {:induction false} CountPresent(s: string, c: char)
    requires c in s
    ensures Count(s, c) > 0
  {
    if s[0] != c {
      CountPresent(s[1..], c);
    }
  }
}
