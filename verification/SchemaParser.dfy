/**
 The tab-separated schema parsers: grouping lines by table in one pass, against the plain
 reading "the columns of a table are the lines of that table, in order".
 */
module SchemaParser {

  // ----- str.splitlines and str.split -----

  predicate EndsLine(c: char) {
    var n := c as int;
    10 <= n <= 13 || 28 <= n <= 30 || n == 0x85 || n == 0x2028 || n == 0x2029
  }

  /** Where the first line stops. */
  function LineEnd(s: string): (i: nat)
    ensures i <= |s| && (forall j :: 0 <= j < i ==> !EndsLine(s[j])) && (i < |s| ==> EndsLine(s[i]))
  {
    if s == "" || EndsLine(s[0]) then 0 else 1 + LineEnd(s[1..])
  }

  /** Where the next line starts: a carriage return and a line feed count as one ending. */
  function NextLine(s: string): (i: nat)
    requires s != ""
    ensures 0 < i <= |s|
  {
    var e := LineEnd(s);
    if e == |s| then e else if s[e] == '\r' && e + 1 < |s| && s[e + 1] == '\n' then e + 2 else e + 1
  }

  function SplitLines(s: string): seq<string> {
    if s == "" then [] else [s[..LineEnd(s)]] + SplitLines(s[NextLine(s)..])
  }

  function FieldEnd(s: string): (i: nat)
    ensures i <= |s| && '\t' !in s[..i] && (i < |s| ==> s[i] == '\t')
  {
    if s == "" || s[0] == '\t' then 0
    else
      var rest := FieldEnd(s[1..]);
      assert s[..1 + rest] == [s[0]] + s[1..][..rest];
      1 + rest
  }

  function Fields(line: string): (fields: seq<string>)
    ensures fields != []
  {
    var e := FieldEnd(line);
    if e == |line| then [line] else [line[..e]] + Fields(line[e + 1..])
  }

  // ----- The meaning of a schema listing -----

  datatype Column = Column(name: string, dtype: string, nullable: bool)

  /** Tables in order of first appearance, as the dictionary keeps them, with their columns. */
  datatype Schema = Schema(tables: seq<string>, columns: map<string, seq<Column>>)

  predicate Usable(line: string) {
    |Fields(line)| >= 3
  }

  function TableOf(line: string): string {
    Fields(line)[0]
  }

  /** `at` is the field that says whether the column is nullable; a line too short for it says yes. */
  function ColumnOf(line: string, at: nat): Column
    requires Usable(line)
  {
    var parts := Fields(line);
    Column(parts[1], parts[2], if |parts| > at then parts[at] == "YES" else true)
  }

  /** The columns of a table: its lines, in order. */
  function ColumnsOf(lines: seq<string>, at: nat, table: string): seq<Column> {
    if lines == [] then []
    else
      var last := lines[|lines| - 1];
      ColumnsOf(lines[..|lines| - 1], at, table)
      + if Usable(last) && TableOf(last) == table then [ColumnOf(last, at)] else []
  }

  function TablesIn(lines: seq<string>): seq<string> {
    if lines == [] then []
    else
      var before, last := TablesIn(lines[..|lines| - 1]), lines[|lines| - 1];
      if Usable(last) && TableOf(last) !in before then before + [TableOf(last)] else before
  }

  function UsableLines(lines: seq<string>): nat {
    if lines == [] then 0 else UsableLines(lines[..|lines| - 1]) + if Usable(lines[|lines| - 1]) then 1 else 0
  }

  /** The schema lists exactly the tables of the lines, each with exactly its own columns. */
  ghost predicate Groups(schema: Schema, lines: seq<string>, at: nat) {
    && schema.tables == TablesIn(lines)
    && (forall t :: t in schema.columns <==> t in schema.tables)
    && (forall t :: t in schema.columns ==> schema.columns[t] == ColumnsOf(lines, at, t))
  }

  lemma {:induction false} NoTableNoColumns(lines: seq<string>, at: nat, table: string)
    ensures table !in TablesIn(lines) <==> ColumnsOf(lines, at, table) == []
  {
    if lines != [] {
      NoTableNoColumns(lines[..|lines| - 1], at, table);
    }
  }

  method GroupLines(lines: seq<string>, at: nat) returns (schema: Schema)
    ensures Groups(schema, lines, at)
  {
    var tables: seq<string>, columns: map<string, seq<Column>> := [], map[];
    var i := 0;
    while i < |lines|
      invariant 0 <= i <= |lines|
      invariant Groups(Schema(tables, columns), lines[..i], at)
    {
      var line := lines[i];
      var parts := Fields(line);
      assert lines[..i + 1][..i] == lines[..i];
      NoTableNoColumns(lines[..i], at, parts[0]);
      if |parts| >= 3 {
        var table, nullable := parts[0], if |parts| > at then parts[at] == "YES" else true;
        if table !in columns {
          tables, columns := tables + [table], columns[table := []];
        }
        columns := columns[table := columns[table] + [Column(parts[1], parts[2], nullable)]];
      }
      i := i + 1;
    }
    assert lines[..i] == lines;
    schema := Schema(tables, columns);
  }

  method ParsePgSchema(raw: string) returns (schema: Schema)
    ensures Groups(schema, SplitLines(raw), 4)
  {
    schema := GroupLines(SplitLines(raw), 4);
  }

  /** The first line is the header and is skipped. */
  method ParseMySqlSchema(raw: string) returns (schema: Schema)
    ensures Groups(schema, if SplitLines(raw) == [] then [] else SplitLines(raw)[1..], 3)
  {
    var lines := SplitLines(raw);
    if lines == [] {
      return Schema([], map[]);
    }
    schema := GroupLines(lines[1..], 3);
  }

  // ----- Nothing is lost and nothing is invented -----

  function TotalColumns(lines: seq<string>, at: nat, tables: seq<string>): nat {
    if tables == [] then 0
    else TotalColumns(lines, at, tables[..|tables| - 1]) + |ColumnsOf(lines, at, tables[|tables| - 1])|
  }

  lemma {:induction false} TablesDistinct(lines: seq<string>)
    ensures forall i, j :: 0 <= i < j < |TablesIn(lines)| ==> TablesIn(lines)[i] != TablesIn(lines)[j]
  {
    if lines != [] {
      TablesDistinct(lines[..|lines| - 1]);
    }
  }

  /** One more line adds one column to its own table and none to any other. */
  lemma {:induction false} TotalOneMore(lines: seq<string>, at: nat, tables: seq<string>)
    requires lines != [] && forall i, j :: 0 <= i < j < |tables| ==> tables[i] != tables[j]
    ensures var init, last := lines[..|lines| - 1], lines[|lines| - 1];
            TotalColumns(lines, at, tables)
            == TotalColumns(init, at, tables) + if Usable(last) && TableOf(last) in tables then 1 else 0
  {
    if tables != [] {
      TotalOneMore(lines, at, tables[..|tables| - 1]);
    }
  }

  lemma TotalAppended(lines: seq<string>, at: nat, tables: seq<string>, table: string)
    ensures TotalColumns(lines, at, tables + [table]) == TotalColumns(lines, at, tables) + |ColumnsOf(lines, at, table)|
  {
    assert (tables + [table])[..|tables|] == tables;
  }

  /** A table not seen before has no columns yet, so listing it changes no total. */
  lemma TotalOverNewTable(lines: seq<string>, at: nat)
    requires lines != []
    ensures var init := lines[..|lines| - 1];
            TotalColumns(init, at, TablesIn(lines)) == TotalColumns(init, at, TablesIn(init))
  {
    var init, last := lines[..|lines| - 1], lines[|lines| - 1];
    if Usable(last) && TableOf(last) !in TablesIn(init) {
      NoTableNoColumns(init, at, TableOf(last));
      TotalAppended(init, at, TablesIn(init), TableOf(last));
    }
  }

  lemma LastTableListed(lines: seq<string>)
    requires lines != [] && Usable(lines[|lines| - 1])
    ensures TableOf(lines[|lines| - 1]) in TablesIn(lines)
  {
  }

  /** The columns of all tables together are as many as the lines with at least three fields. */
  lemma {:induction false} ColumnsAreUsableLines(lines: seq<string>, at: nat)
    ensures TotalColumns(lines, at, TablesIn(lines)) == UsableLines(lines)
  {
    if lines != [] {
      ColumnsAreUsableLines(lines[..|lines| - 1], at);
      TablesDistinct(lines);
      TotalOneMore(lines, at, TablesIn(lines));
      TotalOverNewTable(lines, at);
      if Usable(lines[|lines| - 1]) {
        LastTableListed(lines);
      }
    }
  }

  // ----- Printing and parsing -----

  /** One row of the query; `rest` are the fields between the type and the nullable flag. */
  datatype Row = Row(table: string, column: Column, between: seq<string>)

  predicate Clean(field: string) {
    '\t' !in field && forall i :: 0 <= i < |field| ==> !EndsLine(field[i])
  }

  predicate CleanRow(row: Row) {
    Clean(row.table) && Clean(row.column.name) && Clean(row.column.dtype)
    && forall i :: 0 <= i < |row.between| ==> Clean(row.between[i])
  }

  function RowFields(row: Row): (fields: seq<string>)
    ensures |fields| == 4 + |row.between|
  {
    [row.table, row.column.name, row.column.dtype] + row.between + [if row.column.nullable then "YES" else "NO"]
  }

  function JoinTabs(fields: seq<string>): string
    requires fields != []
  {
    if |fields| == 1 then fields[0] else fields[0] + "\t" + JoinTabs(fields[1..])
  }

  function PrintLines(lines: seq<string>): string {
    if lines == [] then "" else lines[0] + "\n" + PrintLines(lines[1..])
  }

  lemma {:induction false} FieldEndIs(field: string, rest: string)
    requires '\t' !in field && (rest != "" ==> rest[0] == '\t')
    ensures FieldEnd(field + rest) == |field|
  {
    if field == "" {
      assert field + rest == rest;
    } else {
      FieldEndIs(field[1..], rest);
      assert (field + rest)[1..] == field[1..] + rest;
    }
  }

  lemma {:induction false} FieldsOfJoined(fields: seq<string>)
    requires fields != [] && forall i :: 0 <= i < |fields| ==> '\t' !in fields[i]
    ensures Fields(JoinTabs(fields)) == fields
  {
    if |fields| == 1 {
      FieldEndIs(fields[0], "");
      assert fields[0] + "" == fields[0];
    } else {
      var rest := "\t" + JoinTabs(fields[1..]);
      var line := fields[0] + rest;
      assert JoinTabs(fields) == line;
      FieldEndIs(fields[0], rest);
      FieldsOfJoined(fields[1..]);
      assert line[..|fields[0]|] == fields[0] && line[|fields[0]| + 1..] == JoinTabs(fields[1..]);
    }
  }

  /**
   What a line says, field by field: it counts from three fields on, the first is the table,
   the next two are the column, and field `at`, if there is one, says whether it is nullable.
   */
  lemma LineMeans(fields: seq<string>, at: nat)
    requires fields != [] && forall i :: 0 <= i < |fields| ==> '\t' !in fields[i]
    ensures Usable(JoinTabs(fields)) <==> |fields| >= 3
    ensures TableOf(JoinTabs(fields)) == fields[0]
    ensures |fields| >= 3 ==>
              ColumnOf(JoinTabs(fields), at) == Column(fields[1], fields[2], |fields| > at ==> fields[at] == "YES")
  {
    FieldsOfJoined(fields);
  }

  predicate OneLine(line: string) {
    forall i :: 0 <= i < |line| ==> !EndsLine(line[i])
  }

  lemma {:induction false} LineEndIs(line: string, rest: string)
    requires OneLine(line)
    ensures LineEnd(line + ("\n" + rest)) == |line|
  {
    var s := line + ("\n" + rest);
    if line == "" {
      assert s[0] == '\n';
    } else {
      LineEndIs(line[1..], rest);
      assert s[1..] == line[1..] + ("\n" + rest);
    }
  }

  lemma SplitsOffOneLine(line: string, rest: string)
    requires OneLine(line)
    ensures SplitLines(line + "\n" + rest) == [line] + SplitLines(rest)
  {
    var s := line + ("\n" + rest);
    assert s == line + "\n" + rest;
    LineEndIs(line, rest);
    assert s[|line|] == '\n' && s[..|line|] == line && s[|line| + 1..] == rest;
  }

  lemma {:induction false} LineEndAt(line: string, rest: string)
    requires OneLine(line) && rest != "" && EndsLine(rest[0])
    ensures LineEnd(line + rest) == |line|
  {
    var s := line + rest;
    if line == "" {
      assert s == rest;
    } else {
      LineEndAt(line[1..], rest);
      assert s[1..] == line[1..] + rest;
    }
  }

  /** Which single characters end a line, as `str.splitlines` has it. */
  lemma LineEndings(c: char)
    ensures EndsLine(c)
            <==> c in {'\n', '\r', 11 as char, 12 as char, 28 as char, 29 as char, 30 as char, 0x85 as char,
                       0x2028 as char, 0x2029 as char}
  {
  }

  lemma {:induction false} WholeLine(line: string)
    requires OneLine(line)
    ensures LineEnd(line) == |line|
  {
    if line != "" {
      WholeLine(line[1..]);
    }
  }

  lemma NextLineAt(line: string, ending: string, rest: string)
    requires OneLine(line)
    requires (ending == "\r\n" || (|ending| == 1 && EndsLine(ending[0])))
    requires ending == "\r" && rest != "" ==> rest[0] != '\n'
    ensures NextLine(line + (ending + rest)) == |line| + |ending|
  {
    var s := line + (ending + rest);
    LineEndAt(line, ending + rest);
    assert s[|line|] == ending[0];
    assert |line| + 1 < |s| ==> s[|line| + 1] == (ending + rest)[1];
  }

  /** Any line ending does, a carriage return and a line feed together are one, and the last line needs none. */
  lemma LinesEndAnyhow(line: string, ending: string, rest: string)
    requires OneLine(line)
    requires (ending == "\r\n" || (|ending| == 1 && EndsLine(ending[0])))
    requires ending == "\r" && rest != "" ==> rest[0] != '\n'
    ensures SplitLines(line + ending + rest) == [line] + SplitLines(rest)
    ensures line != "" ==> SplitLines(line) == [line]
  {
    var s := line + (ending + rest);
    assert s == line + ending + rest;
    LineEndAt(line, ending + rest);
    NextLineAt(line, ending, rest);
    assert s[..|line|] == line && s[|line| + |ending|..] == rest;
    if line != "" {
      WholeLine(line);
      assert line[..|line|] == line && line[|line|..] == "";
    }
  }

  lemma {:induction false} LinesOfPrinted(lines: seq<string>)
    requires forall i :: 0 <= i < |lines| ==> OneLine(lines[i])
    ensures SplitLines(PrintLines(lines)) == lines
  {
    if lines != [] {
      LinesOfPrinted(lines[1..]);
      SplitsOffOneLine(lines[0], PrintLines(lines[1..]));
    }
  }

  // ----- The round trip -----

  function PrintedRow(row: Row): string {
    JoinTabs(RowFields(row))
  }

  function PrintedRows(rows: seq<Row>): seq<string> {
    if rows == [] then [] else PrintedRows(rows[..|rows| - 1]) + [PrintedRow(rows[|rows| - 1])]
  }

  /** What the printed rows say about a table. */
  function RowColumns(rows: seq<Row>, table: string): seq<Column> {
    if rows == [] then []
    else
      var last := rows[|rows| - 1];
      RowColumns(rows[..|rows| - 1], table) + if last.table == table then [last.column] else []
  }

  /** The tables of the rows, in order of first appearance. */
  function RowTables(rows: seq<Row>): seq<string> {
    if rows == [] then []
    else
      var before, table := RowTables(rows[..|rows| - 1]), rows[|rows| - 1].table;
      if table in before then before else before + [table]
  }

  lemma {:induction false} JoinedIsOneLine(fields: seq<string>)
    requires fields != [] && forall i :: 0 <= i < |fields| ==> OneLine(fields[i])
    ensures OneLine(JoinTabs(fields))
  {
    if |fields| > 1 {
      JoinedIsOneLine(fields[1..]);
    }
  }

  /** A printed row reads back as its own table and column. */
  lemma RowReadsBack(row: Row, at: nat)
    requires CleanRow(row) && at == 3 + |row.between|
    ensures var line := PrintedRow(row);
            OneLine(line) && Usable(line) && TableOf(line) == row.table && ColumnOf(line, at) == row.column
  {
    var fields := RowFields(row);
    assert fields[at] == if row.column.nullable then "YES" else "NO";
    forall i | 0 <= i < |fields| ensures '\t' !in fields[i] && OneLine(fields[i]) {
      if 3 <= i < at {
        assert fields[i] == row.between[i - 3];
      }
    }
    FieldsOfJoined(fields);
    JoinedIsOneLine(fields);
  }

  lemma {:induction false} RowsReadBack(rows: seq<Row>, at: nat, table: string)
    requires forall i :: 0 <= i < |rows| ==> CleanRow(rows[i]) && at == 3 + |rows[i].between|
    ensures |PrintedRows(rows)| == |rows| && forall i :: 0 <= i < |rows| ==> OneLine(PrintedRows(rows)[i])
    ensures ColumnsOf(PrintedRows(rows), at, table) == RowColumns(rows, table)
    ensures TablesIn(PrintedRows(rows)) == RowTables(rows)
  {
    if rows != [] {
      var init, last := rows[..|rows| - 1], rows[|rows| - 1];
      RowsReadBack(init, at, table);
      RowReadsBack(last, at);
      assert PrintedRows(rows)[..|init|] == PrintedRows(init);
    }
  }

  /**
   Printing rows whose fields hold no tab and no line break, and parsing the text, gives back
   the tables in order of first appearance and each table's columns in order: five fields a
   row as psql prints them.
   */
  lemma PgRoundTrip(rows: seq<Row>, schema: Schema, table: string)
    requires forall i :: 0 <= i < |rows| ==> CleanRow(rows[i]) && |rows[i].between| == 1
    requires Groups(schema, SplitLines(PrintLines(PrintedRows(rows))), 4)
    ensures schema.tables == RowTables(rows)
    ensures (if table in schema.columns then schema.columns[table] else []) == RowColumns(rows, table)
  {
    RowsReadBack(rows, 4, table);
    LinesOfPrinted(PrintedRows(rows));
    NoTableNoColumns(PrintedRows(rows), 4, table);
  }

  /** And after a header line, four fields a row, as mysql prints them. */
  lemma MySqlRoundTrip(header: string, rows: seq<Row>, schema: Schema, table: string)
    requires OneLine(header) && forall i :: 0 <= i < |rows| ==> CleanRow(rows[i]) && |rows[i].between| == 0
    requires var lines := SplitLines(PrintLines([header] + PrintedRows(rows)));
             Groups(schema, if lines == [] then [] else lines[1..], 3)
    ensures schema.tables == RowTables(rows)
    ensures (if table in schema.columns then schema.columns[table] else []) == RowColumns(rows, table)
  {
    RowsReadBack(rows, 3, table);
    LinesOfPrinted([header] + PrintedRows(rows));
    assert ([header] + PrintedRows(rows))[1..] == PrintedRows(rows);
    NoTableNoColumns(PrintedRows(rows), 3, table);
  }
}
