/**
 * The schema description put into the language-model prompt (backend/api/views.py,
 * `get_mysql_schema`). The database's answers are inputs: the `SHOW TABLES` listing
 * (or the text of the exception that connecting or listing raised), and for each
 * table the `SHOW COLUMNS` rows (or the text of the exception that query raised).
 */
module SchemaText {
  import opened Wrappers

  /** The first two fields of a `SHOW COLUMNS` row: the column's name and type. */
  datatype Column = Column(field: string, colType: string)

  /** A table from `SHOW TABLES` with the outcome of its `SHOW COLUMNS` query. */
  datatype TableListing = TableListing(name: string, columns: Result<seq<Column>, string>)

  const ErrorHeader: string := "# Error retrieving schema: "

  function ColumnLine(c: Column): string {
    "- " + c.field + " (" + c.colType + ")\n"
  }

  function ColumnLines(cs: seq<Column>): string {
    if |cs| == 0 then "" else ColumnLine(cs[0]) + ColumnLines(cs[1..])
  }

  function TableHeader(name: string): string {
    "Table: " + name + "\nColumns:\n"
  }

  function TableBlock(name: string, cs: seq<Column>): string {
    TableHeader(name) + ColumnLines(cs) + "\n"
  }

  function ErrorLine(msg: string): string {
    ErrorHeader + msg
  }

  /** The text for the tables in order; the first failing table ends it with the error line. */
  function TablesText(ts: seq<TableListing>): string {
    if |ts| == 0 then ""
    else
      match ts[0].columns
      case Err(msg) => ErrorLine(msg)
      case Ok(cs) => TableBlock(ts[0].name, cs) + TablesText(ts[1..])
  }

  /** What `get_mysql_schema()` returns. */
  function SchemaOf(listing: Result<seq<TableListing>, string>): string {
    match listing
    case Err(msg) => ErrorLine(msg)
    case Ok(ts) => TablesText(ts)
  }

  predicate AllListed(ts: seq<TableListing>) {
    forall i :: 0 <= i < |ts| ==> ts[i].columns.Ok?
  }

  lemma {:induction false} ColumnLinesSnoc(cs: seq<Column>, c: Column)
    ensures ColumnLines(cs + [c]) == ColumnLines(cs) + ColumnLine(c)
  {
    if |cs| > 0 {
      assert (cs + [c])[1..] == cs[1..] + [c];
      ColumnLinesSnoc(cs[1..], c);
    }
  }

  /** The text of fully listed tables followed by more tables is the two texts joined. */
  lemma {:induction false} TablesTextAppend(a: seq<TableListing>, b: seq<TableListing>)
    requires AllListed(a)
    ensures TablesText(a + b) == TablesText(a) + TablesText(b)
  {
    if |a| > 0 {
      assert (a + b)[0] == a[0];
      assert (a + b)[1..] == a[1..] + b;
      TablesTextAppend(a[1..], b);
    } else {
      assert a + b == b;
    }
  }

  /** When table `k` is the first whose columns could not be listed, the text is the
      blocks of the tables before it followed by the error line, and nothing after. */
  lemma FirstFailure(ts: seq<TableListing>, k: int)
    requires 0 <= k < |ts| && ts[k].columns.Err? && AllListed(ts[..k])
    ensures TablesText(ts) == TablesText(ts[..k]) + ErrorLine(ts[k].columns.error)
  {
    assert ts == ts[..k] + ts[k..];
    TablesTextAppend(ts[..k], ts[k..]);
  }

  /** One table's block, line by line: the header, then one line per column in order,
      then a blank line. */
  lemma BlockLines(name: string, cs: seq<Column>)
    ensures |cs| == 0 ==> TableBlock(name, cs) == "Table: " + name + "\nColumns:\n\n"
    ensures |cs| == 1 ==>
      (TableBlock(name, cs) == "Table: " + name + "\nColumns:\n- " + cs[0].field + " (" + cs[0].colType + ")\n\n")
  {
    if |cs| == 1 {
      assert ColumnLines(cs[1..]) == "";
    }
  }

  /** A block with one more column holds that column's line just before the blank line. */
  lemma BlockLinesSnoc(name: string, cs: seq<Column>, c: Column)
    ensures TableBlock(name, cs + [c]) == TableHeader(name) + ColumnLines(cs) + ColumnLine(c) + "\n"
  {
    ColumnLinesSnoc(cs, c);
  }

  /** Appending a fully listed table appends its block. */
  lemma TablesTextSnoc(ts: seq<TableListing>, t: TableListing)
    requires AllListed(ts) && t.columns.Ok?
    ensures AllListed(ts + [t])
    ensures TablesText(ts + [t]) == TablesText(ts) + TableHeader(t.name) + ColumnLines(t.columns.value) + "\n"
  {
    TablesTextAppend(ts, [t]);
    assert TablesText([t]) == TableBlock(t.name, t.columns.value) + TablesText([]);
  }

  /** The inner `for col in columns` loop of `get_mysql_schema()`. */
  method AppendColumnLines(prefix: string, columns: seq<Column>) returns (schema: string)
    ensures schema == prefix + ColumnLines(columns)
  {
    schema := prefix;
    var j := 0;
    while j < |columns|
      invariant 0 <= j <= |columns|
      invariant schema == prefix + ColumnLines(columns[..j])
    {
      ColumnLinesSnoc(columns[..j], columns[j]);
      assert columns[..j + 1] == columns[..j] + [columns[j]];
      schema := schema + ColumnLine(columns[j]);
      j := j + 1;
    }
    assert columns[..j] == columns;
  }

  /** `get_mysql_schema()`: the string grown by the nested `for table` / `for col` loops,
      with the error line appended where an exception leaves them. */
  method GetMysqlSchema(listing: Result<seq<TableListing>, string>) returns (schema: string)
    ensures schema == SchemaOf(listing)
  {
    schema := "";
    if listing.Err? {
      schema := schema + ErrorLine(listing.error);
      return;
    }
    var tables := listing.value;
    var i := 0;
    while i < |tables|
      invariant 0 <= i <= |tables|
      invariant AllListed(tables[..i]) && schema == TablesText(tables[..i])
    {
      if tables[i].columns.Err? {
        FirstFailure(tables, i);
        schema := schema + ErrorLine(tables[i].columns.error);
        return;
      }
      ghost var before := schema;
      schema := schema + TableHeader(tables[i].name);
      schema := AppendColumnLines(schema, tables[i].columns.value);
      schema := schema + "\n";
      TablesTextSnoc(tables[..i], tables[i]);
      assert tables[..i + 1] == tables[..i] + [tables[i]];
      i := i + 1;
    }
    assert tables[..i] == tables;
  }
}
