/**
 * The CREATE TABLE statement and the list of timestamp columns built from a
 * PROC CONTENTS description (`get_row_sql` and the tail of `get_table_sql`).
 */
module SchemaTranslator {
  import opened Wrappers
  import opened Strings
  import opened TypeMapper

  /**
   * The type a column is declared with: timestamps are loaded as text and
   * converted once the data is in.
   */
  function DeclaredType(t: PgType): (name: string)
    ensures name != "timestamp"
    ensures t == Timestamp ==> name == "text"
    ensures t != Timestamp ==> name == TypeName(t)
  {
    if t == Timestamp then "text" else TypeName(t)
  }

  /** `get_row_sql`: one column clause. */
  function RowSql(c: Column): string
  {
    Lower(c.name) + " " + DeclaredType(CodeRow(c))
  }

  /**
   * A clause is the lower-cased name, a space and the declared type, which
   * is never `timestamp` and is `text` exactly for character and timestamp
   * columns.
   */
  lemma RowSqlShape(c: Column)
    ensures var sql := RowSql(c);
            && |sql| > |c.name| && sql[..|c.name|] == Lower(c.name) && sql[|c.name|] == ' '
            && sql[|c.name| + 1..] != "timestamp"
            && (sql[|c.name| + 1..] == "text" <==> CodeRow(c) in {Text, Timestamp})
  {
    var sql := RowSql(c);
    assert sql[|c.name| + 1..] == DeclaredType(CodeRow(c));
  }

  /** The column clauses, one per described column, in description order. */
  function Clauses(cols: seq<Column>): (r: seq<string>)
    ensures |r| == |cols|
    ensures forall i :: 0 <= i < |cols| ==> r[i] == RowSql(cols[i])
  {
    if cols == [] then [] else [RowSql(cols[0])] + Clauses(cols[1..])
  }

  /** The lower-cased names of the columns typed `timestamp`, in description order. */
  function Datetimes(cols: seq<Column>): seq<string>
  {
    if cols == [] then []
    else (if CodeRow(cols[0]) == Timestamp then [Lower(cols[0].name)] else []) + Datetimes(cols[1..])
  }

  /** Selecting timestamp columns commutes with splitting the description: order is kept. */
  lemma {:induction false} DatetimesAppend(a: seq<Column>, b: seq<Column>)
    ensures Datetimes(a + b) == Datetimes(a) + Datetimes(b)
  {
    if a != [] {
      assert (a + b)[0] == a[0] && (a + b)[1..] == a[1..] + b;
      DatetimesAppend(a[1..], b);
    } else {
      assert a + b == b;
    }
  }

  /** A name is listed exactly when some timestamp column has it as its lower-cased name. */
  lemma {:induction false} DatetimesMembers(cols: seq<Column>, x: string)
    ensures x in Datetimes(cols) <==>
      exists i :: 0 <= i < |cols| && CodeRow(cols[i]) == Timestamp && Lower(cols[i].name) == x
  {
    if cols != [] {
      DatetimesMembers(cols[1..], x);
      if exists i :: 0 <= i < |cols[1..]| && CodeRow(cols[1..][i]) == Timestamp && Lower(cols[1..][i].name) == x {
        var i :| 0 <= i < |cols[1..]| && CodeRow(cols[1..][i]) == Timestamp && Lower(cols[1..][i].name) == x;
        assert CodeRow(cols[i + 1]) == Timestamp && Lower(cols[i + 1].name) == x;
      }
      if exists i :: 0 <= i < |cols| && CodeRow(cols[i]) == Timestamp && Lower(cols[i].name) == x {
        var i :| 0 <= i < |cols| && CodeRow(cols[i]) == Timestamp && Lower(cols[i].name) == x;
        if i > 0 {
          assert CodeRow(cols[1..][i - 1]) == Timestamp && Lower(cols[1..][i - 1].name) == x;
        }
      }
    }
  }

  lemma {:induction false} DatetimesLength(cols: seq<Column>)
    ensures |Datetimes(cols)| <= |cols|
  {
    if cols != [] {
      DatetimesLength(cols[1..]);
    }
  }

  /** Every column listed for conversion was declared as text in the CREATE statement. */
  lemma {:induction false} DatetimesDeclaredText(cols: seq<Column>)
    ensures forall x :: x in Datetimes(cols) ==> x + " text" in Clauses(cols)
  {
    forall x | x in Datetimes(cols) ensures x + " text" in Clauses(cols) {
      DatetimesMembers(cols, x);
      var i :| 0 <= i < |cols| && CodeRow(cols[i]) == Timestamp && Lower(cols[i].name) == x;
      TimestampClause(cols[i]);
      assert Clauses(cols)[i] == RowSql(cols[i]);
    }
  }

  lemma TimestampClause(c: Column)
    requires CodeRow(c) == Timestamp
    ensures RowSql(c) == Lower(c.name) + " text"
  {
    assert DeclaredType(CodeRow(c)) == "text";
  }

  /** `alt_table_name` when given, else the source table's own name. */
  function DestinationName(table: string, alt: Option<string>): string
  {
    if Given(alt) then alt.value else table
  }

  /** What `get_table_sql` returns: the CREATE statement and the columns to convert afterwards. */
  datatype TablePlan = TablePlan(sql: string, datetimes: seq<string>)

  /**
   * Why no plan comes back: a description without a single column, on
   * which pandas raises; or neither a WRDS account nor a local path, so
   * that `get_process` returns nothing and reading the description raises.
   */
  datatype SchemaError = EmptyDescription | NoSource

  function CreateTablePrefix(schema: string, dest: string): string
  {
    "CREATE TABLE " + schema + "." + dest + " ("
  }

  /**
   * `get_table_sql` once the description has been fetched. Every column
   * that will be converted to timestamp afterwards is declared as text.
   */
  function GetTableSql(schema: string, table: string, alt: Option<string>, cols: seq<Column>): (r: Result<TablePlan, SchemaError>)
    ensures r.Failure? <==> cols == []
    ensures r.Success? ==>
      && StartsWith(r.value.sql, CreateTablePrefix(schema, DestinationName(table, alt)))
      && r.value.sql[|r.value.sql| - 1] == ')'
    ensures r.Success? ==> |r.value.datetimes| <= |cols|
    ensures r.Success? ==>
      r.value == TablePlan(CreateTablePrefix(schema, DestinationName(table, alt)) + Join(", ", Clauses(cols)) + ")", Datetimes(cols))
  {
    if cols == [] then Failure(EmptyDescription)
    else
      var prefix := CreateTablePrefix(schema, DestinationName(table, alt));
      var sql := prefix + Join(", ", Clauses(cols)) + ")";
      assert sql[..|prefix|] == prefix;
      DatetimesLength(cols);
      Success(TablePlan(sql, Datetimes(cols)))
  }

  /**
   * The plan's conversion list is the timestamp columns in order, and each
   * of them is created as text.
   */
  lemma PlanTimestampsDeclaredText(schema: string, table: string, alt: Option<string>, cols: seq<Column>)
    requires GetTableSql(schema, table, alt, cols).Success?
    ensures GetTableSql(schema, table, alt, cols).value.datetimes == Datetimes(cols)
    ensures forall x :: x in GetTableSql(schema, table, alt, cols).value.datetimes ==> x + " text" in Clauses(cols)
  {
    DatetimesDeclaredText(cols);
  }

  /**
   * An integer id and a numeric stamp with a datetime format (such as
   * `DATETIME20.`, see `ExampleDatetime20`): the stamp is declared text and
   * listed for conversion.
   */
  lemma ExampleIdAndStamp(id: Column, ts: Column)
    requires id == Column("Id", None, 0, 8, 1)
    requires ts.name == "Ts" && ts.typeCode == 1 && ts.format.Some? && IsDatetimeFormat(ts.format.value)
    ensures GetTableSql("s", "t", None, [id, ts]) == Success(TablePlan("CREATE TABLE s.t (id int8, ts text)", ["ts"]))
  {
    NumericFallback(id);
    assert CodeRow(id) == Int8 && DeclaredType(Int8) == "int8";
    assert CodeRow(ts) == Timestamp;
    assert Lower(id.name) == "id" && Lower(ts.name) == "ts";
    ClausesOfTwo(id, ts, "id", "int8", "ts");
    assert "id" + " " + "int8" == "id int8" && "ts" + " text" == "ts text";
    ExamplePlan([id, ts]);
  }

  /** Two columns, the second a timestamp: two clauses, one conversion. */
  lemma ClausesOfTwo(a: Column, b: Column, aName: string, aType: string, bName: string)
    requires CodeRow(a) != Timestamp && DeclaredType(CodeRow(a)) == aType && Lower(a.name) == aName
    requires CodeRow(b) == Timestamp && Lower(b.name) == bName
    ensures Clauses([a, b]) == [aName + " " + aType, bName + " text"] && Datetimes([a, b]) == [bName]
  {
    assert [a, b][1..] == [b] && [b][1..] == [];
    assert RowSql(b) == bName + " text";
    assert Clauses([b]) == [RowSql(b)] + Clauses([]);
    assert Datetimes([b]) == [bName] + Datetimes([]);
    assert Datetimes([a, b]) == [] + Datetimes([b]);
  }

  lemma ExamplePlan(cols: seq<Column>)
    requires Clauses(cols) == ["id int8", "ts text"] && Datetimes(cols) == ["ts"]
    ensures GetTableSql("s", "t", None, cols) == Success(TablePlan("CREATE TABLE s.t (id int8, ts text)", ["ts"]))
  {
    assert cols != [] by {
      assert |cols| == |Clauses(cols)|;
    }
    assert DestinationName("t", None) == "t";
    ExampleText();
  }

  /** The text of the example statement, assembled from its two clauses. */
  lemma ExampleText()
    ensures CreateTablePrefix("s", "t") + Join(", ", ["id int8", "ts text"]) + ")" == "CREATE TABLE s.t (id int8, ts text)"
  {
    var clauses := ["id int8", "ts text"];
    assert Join(", ", clauses) == "id int8, ts text" by {
      assert clauses[1..] == ["ts text"];
    }
  }
}
