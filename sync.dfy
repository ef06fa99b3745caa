/**
 * The statements the loader issues against PostgreSQL, modelled as a
 * destination object whose table comments, roles and statement log the
 * operations update: `wrds_process_to_pg`, `wrds_to_pg` and the loading
 * half of `wrds_update`.
 */
module Sync {
  import opened Wrappers
  import opened Strings
  import opened TypeMapper
  import opened SchemaTranslator
  import opened Freshness

  /** One statement sent to the database, with the data a COPY streams. */
  datatype Statement =
    | DropTable(schema: string, table: string)
    | CreateTable(sql: string)
    | SetDateStyle
    | Copy(command: string, rows: seq<string>)
    | AlterToTimestamp(schema: string, table: string, column: string)
    | CommentOn(schema: string, table: string, comment: string)
    | CreateRole(role: string)
    | AlterOwner(schema: string, table: string, role: string)
    | GrantSelect(schema: string, table: string, role: string)

  /** The text of the DROP statement that opens a load. */
  function DropSql(schema: string, table: string): (sql: string)
    ensures |sql| == 30 + |schema| + |table|
    ensures StartsWith(sql, "DROP TABLE IF EXISTS ")
    ensures sql[21..|sql| - 8] == schema + "." + table
    ensures sql[|sql| - 8..] == " CASCADE"
  {
    "DROP TABLE IF EXISTS " + schema + "." + table + " CASCADE"
  }

  /**
   * The ALTER that converts one text column to timestamp, with the line
   * breaks and indentation of its template.
   */
  function AlterSql(schema: string, table: string, column: string): string
  {
    "\n            ALTER TABLE \"" + schema + "\".\"" + table + "\"\n            ALTER " + column
    + " TYPE timestamp\n            USING regexp_replace(" + column + ", '(\\d{2}[A-Z]{3}\\d{4}):', '\\1 ' )::timestamp"
  }

  /** The text each statement is sent as, layout included. */
  function Render(st: Statement): string
  {
    match st
    case DropTable(schema, table) => DropSql(schema, table)
    case CreateTable(sql) => sql
    case SetDateStyle => "SET DateStyle TO 'ISO, MDY'"
    case Copy(command, _) => command
    case AlterToTimestamp(schema, table, column) => AlterSql(schema, table, column)
    case CommentOn(schema, table, comment) =>
      "\n        COMMENT ON TABLE \"" + schema + "\".\"" + table + "\" IS '" + comment + "'"
    case CreateRole(role) => "CREATE ROLE " + role
    case AlterOwner(schema, table, role) =>
      "\n            ALTER TABLE \"" + schema + "\".\"" + table + "\" OWNER TO " + role
    case GrantSelect(schema, table, role) =>
      "\n            GRANT SELECT ON \"" + schema + "\".\"" + table + "\"  TO " + role
  }

  /** The first line of the export, the CSV header; an empty export reads as "". */
  function Header(lines: seq<string>): string
  {
    if lines == [] then "" else lines[0]
  }

  /** The lines after the header, streamed to COPY. */
  function Body(lines: seq<string>): (rows: seq<string>)
    ensures lines != [] ==> lines == [Header(lines)] + rows
    ensures lines == [] ==> rows == []
  {
    if lines == [] then [] else lines[1..]
  }

  /** The column names of the COPY: the header right-stripped, lower-cased and split on commas. */
  function CopyColumns(header: string): (cols: seq<string>)
    ensures |cols| >= 1
    ensures forall k :: 0 <= k < |cols| ==> ',' !in cols[k]
  {
    Split(Lower(RStrip(header)), ',')
  }

  /** Joining the column names with commas gives back the stripped, lower-cased header: nothing is lost. */
  lemma CopyColumnsRoundTrip(header: string)
    ensures Join([','], CopyColumns(header)) == Lower(RStrip(header))
  {
    JoinSplit(Lower(RStrip(header)), ',');
  }

  const CopySuffix := ") FROM STDIN CSV ENCODING 'utf-8'"

  /** `COPY schema.table (a, b, ...) FROM STDIN CSV ENCODING 'utf-8'`. */
  function CopyCommand(schema: string, table: string, header: string): string
  {
    "COPY " + schema + "." + table + " (" + Join(", ", CopyColumns(header)) + CopySuffix
  }

  /**
   * The COPY names the target table, lists the header's columns separated
   * by ", ", and reads CSV from standard input.
   */
  lemma CopyCommandShape(schema: string, table: string, header: string)
    ensures var cmd := CopyCommand(schema, table, header);
            var head := "COPY " + schema + "." + table + " (";
            && |cmd| == |head| + |Join(", ", CopyColumns(header))| + |CopySuffix|
            && StartsWith(cmd, head)
            && cmd[|head|..|cmd| - |CopySuffix|] == Join(", ", CopyColumns(header))
            && cmd[|cmd| - |CopySuffix|..] == CopySuffix
  {
    var cmd := CopyCommand(schema, table, header);
    var head := "COPY " + schema + "." + table + " (";
    var cols := Join(", ", CopyColumns(header));
    assert cmd == head + cols + CopySuffix;
    assert cmd[..|head|] == head;
    assert cmd[|head|..|cmd| - |CopySuffix|] == cols;
  }

  /** A header without commas names a single column. */
  lemma SingleColumnHeader(header: string)
    requires ',' !in header
    ensures CopyColumns(header) == [Lower(RStrip(header))]
  {
    var stripped := RStrip(header);
    forall k | 0 <= k < |stripped| ensures Lower(stripped)[k] != ',' {
      assert stripped[k] == header[k];
    }
    SplitNoSep(Lower(stripped), ',');
  }

  /** The header's fields become the column names in order, each lower-cased. */
  lemma HeaderFieldsInOrder(first: string, rest: string)
    requires ',' !in first
    ensures CopyColumns(first + "," + rest) == [Lower(first)] + CopyColumns(rest)
  {
    var tail := Lower(RStrip(rest));
    assert RStrip(first + "," + rest) == first + "," + RStrip(rest) by {
      RStripAfter(first + ",", rest);
      assert first + "," + rest == (first + ",") + rest;
    }
    assert Lower(first + "," + RStrip(rest)) == Lower(first) + [','] + tail by {
      LowerAppend(first + ",", RStrip(rest));
      LowerAppend(first, ",");
      assert Lower(",") == ",";
    }
    assert ',' !in Lower(first) by {
      assert forall i :: 0 <= i < |Lower(first)| ==> Lower(first)[i] != ',';
    }
    SplitFirst(Lower(first), tail, ',');
  }

  /** The statements `wrds_process_to_pg` issues for one export. */
  function ProcessTrace(schema: string, table: string, lines: seq<string>): seq<Statement>
  {
    [SetDateStyle, Copy(CopyCommand(schema, table, Header(lines)), Body(lines))]
  }

  /** One ALTER per timestamp column, in order. */
  function Alters(schema: string, table: string, vars: seq<string>): (r: seq<Statement>)
    ensures |r| == |vars|
    ensures forall i :: 0 <= i < |vars| ==> r[i] == AlterToTimestamp(schema, table, vars[i])
  {
    if vars == [] then [] else [AlterToTimestamp(schema, table, vars[0])] + Alters(schema, table, vars[1..])
  }

  /** The statements `wrds_to_pg` issues for a successful plan. */
  function LoadTrace(schema: string, dest: string, plan: TablePlan, lines: seq<string>): seq<Statement>
  {
    [DropTable(schema, dest), CreateTable(plan.sql)] + ProcessTrace(schema, dest, lines) + Alters(schema, dest, plan.datetimes)
  }

  /**
   * The load replaces the table, streams the data into it and only then
   * converts the timestamp columns, each of which was created as text.
   */
  lemma {:induction false} LoadOrder(schema: string, table: string, alt: Option<string>, cols: seq<Column>, lines: seq<string>)
    requires GetTableSql(schema, table, alt, cols).Success?
    ensures var dest := DestinationName(table, alt);
            var plan := GetTableSql(schema, table, alt, cols).value;
            var trace := LoadTrace(schema, dest, plan, lines);
            && |trace| == 4 + |plan.datetimes|
            && trace[0] == DropTable(schema, dest)
            && trace[1] == CreateTable(plan.sql)
            && StartsWith(plan.sql, CreateTablePrefix(schema, dest))
            && trace[3].Copy? && trace[3].rows == Body(lines)
            && forall i :: 4 <= i < |trace| ==>
                 trace[i] == AlterToTimestamp(schema, dest, plan.datetimes[i - 4])
                 && plan.datetimes[i - 4] + " text" in Clauses(cols)
  {
    var dest := DestinationName(table, alt);
    var plan := GetTableSql(schema, table, alt, cols).value;
    var trace := LoadTrace(schema, dest, plan, lines);
    var alters := Alters(schema, dest, plan.datetimes);
    PlanTimestampsDeclaredText(schema, table, alt, cols);
    assert trace == [DropTable(schema, dest), CreateTable(plan.sql)] + ProcessTrace(schema, dest, lines) + alters;
    forall i | 4 <= i < |trace|
      ensures trace[i] == AlterToTimestamp(schema, dest, plan.datetimes[i - 4])
      ensures plan.datetimes[i - 4] + " text" in Clauses(cols)
    {
      assert trace[i] == alters[i - 4];
      assert plan.datetimes[i - 4] in plan.datetimes;
    }
  }

  /**
   * The statements that follow a load in `wrds_update`, given the roles that
   * exist before them. The comment comes first and the grant last; each role
   * is created exactly when it was missing, and ownership is set before
   * access is granted.
   */
  function PostLoad(schema: string, dest: string, modified: string, roles: set<string>): (p: seq<Statement>)
    ensures |p| == 3 + (if schema in roles then 0 else 1) + (if schema + "_access" in roles then 0 else 1)
    ensures p[0] == CommentOn(schema, dest, modified)
    ensures p[|p| - 1] == GrantSelect(schema, dest, schema + "_access")
    ensures CreateRole(schema) in p <==> schema !in roles
    ensures CreateRole(schema + "_access") in p <==> schema + "_access" !in roles
  {
    var access := schema + "_access";
    var afterOwner := roles + {schema};
    assert |access| != |schema|;
    [CommentOn(schema, dest, modified)]
    + (if schema in roles then [] else [CreateRole(schema)])
    + [AlterOwner(schema, dest, schema)]
    + (if access in afterOwner then [] else [CreateRole(access)])
    + [GrantSelect(schema, dest, access)]
  }

  /** The text of the statements that load a table: the DROP, the planned CREATE, the date style, the COPY, the ALTERs. */
  lemma {:induction false} LoadTraceText(schema: string, dest: string, plan: TablePlan, lines: seq<string>)
    ensures var trace := LoadTrace(schema, dest, plan, lines);
            && Render(trace[0]) == DropSql(schema, dest)
            && Render(trace[1]) == plan.sql
            && Render(trace[2]) == "SET DateStyle TO 'ISO, MDY'"
            && Render(trace[3]) == CopyCommand(schema, dest, Header(lines))
            && forall i :: 4 <= i < |trace| ==>
                 Render(trace[i]) == AlterSql(schema, dest, plan.datetimes[i - 4])
  {
    var trace := LoadTrace(schema, dest, plan, lines);
    var alters := Alters(schema, dest, plan.datetimes);
    assert trace == [DropTable(schema, dest), CreateTable(plan.sql)] + ProcessTrace(schema, dest, lines) + alters;
    forall i | 4 <= i < |trace|
      ensures Render(trace[i]) == AlterSql(schema, dest, plan.datetimes[i - 4])
    {
      assert trace[i] == alters[i - 4];
    }
  }

  /** The destination database as the loader sees it. */
  class Destination {
    /** The tables that exist, keyed by (schema, table), with their comment (`None` when unset). */
    var comments: map<(string, string), Option<string>>
    /** The roles that exist. */
    var roles: set<string>
    /** The statements issued so far, oldest first. */
    var log: seq<Statement>

    constructor (comments0: map<(string, string), Option<string>>, roles0: set<string>)
      ensures comments == comments0 && roles == roles0 && log == []
    {
      comments := comments0;
      roles := roles0;
      log := [];
    }

    /** `get_table_comment`: the stored comment, or "" for a table that does not exist. */
    function TableComment(schema: string, table: string): (c: Option<string>)
      reads this
      ensures (schema, table) !in comments ==> c == Some("")
      ensures (schema, table) in comments ==> c == comments[(schema, table)]
    {
      if (schema, table) in comments then comments[(schema, table)] else Some("")
    }

    /** `wrds_process_to_pg`: sets the date style and streams the export body into the table. */
    method ProcessToPg(table: string, schema: string, lines: seq<string>) returns (ok: bool)
      modifies this
      ensures ok
      ensures log == old(log) + ProcessTrace(schema, table, lines)
      ensures comments == old(comments) && roles == old(roles)
    {
      var cmd := CopyCommand(schema, table, Header(lines));
      log := log + [SetDateStyle, Copy(cmd, Body(lines))];
      ok := true;
    }

    /**
     * `wrds_to_pg`: plans the table, drops and recreates it, loads the
     * export and converts each timestamp column. Without a WRDS account or
     * a local path there is no SAS process to read the description from,
     * and a description without columns has no table to plan: both fail
     * before any statement is issued.
     */
    method WrdsToPg(table: string, schema: string, wrdsId: Option<string>, fpath: Option<string>,
                    alt: Option<string>, cols: seq<Column>, lines: seq<string>)
      returns (r: Result<bool, SchemaError>)
      modifies this
      ensures r.Failure? <==> (!Given(wrdsId) && !Given(fpath)) || cols == []
      ensures r == Failure(NoSource) <==> !Given(wrdsId) && !Given(fpath)
      ensures r.Failure? ==> comments == old(comments) && roles == old(roles) && log == old(log)
      ensures r.Success? ==>
                var dest := DestinationName(table, alt);
                && r.value
                && comments == old(comments)[(schema, dest) := None]
                && roles == old(roles)
                && log == old(log) + LoadTrace(schema, dest, GetTableSql(schema, table, alt, cols).value, lines)
    {
      if !Given(wrdsId) && !Given(fpath) {
        return Failure(NoSource);
      }
      var dest := DestinationName(table, alt);
      var made := GetTableSql(schema, table, alt, cols);
      if made.Failure? {
        return Failure(made.error);
      }
      var loaded := Load(schema, dest, made.value, lines);
      r := Success(loaded);
    }

    /** The statements of `wrds_to_pg` once the plan exists: replace the table, load it, convert its timestamps. */
    method Load(schema: string, dest: string, plan: TablePlan, lines: seq<string>) returns (loaded: bool)
      modifies this
      ensures loaded
      ensures comments == old(comments)[(schema, dest) := None] && roles == old(roles)
      ensures log == old(log) + LoadTrace(schema, dest, plan, lines)
    {
      Recreate(schema, dest, plan.sql);
      loaded := ProcessToPg(dest, schema, lines);
      FixTimestamps(schema, dest, plan.datetimes);
      assert log == old(log) + ([DropTable(schema, dest), CreateTable(plan.sql)] + ProcessTrace(schema, dest, lines)
                                + Alters(schema, dest, plan.datetimes));
    }

    /** `DROP TABLE IF EXISTS ... CASCADE` then `CREATE TABLE`: the table exists afresh, without a comment. */
    method Recreate(schema: string, table: string, sql: string)
      modifies this
      ensures comments == old(comments)[(schema, table) := None] && roles == old(roles)
      ensures log == old(log) + [DropTable(schema, table), CreateTable(sql)]
    {
      log := log + [DropTable(schema, table)];
      comments := comments - {(schema, table)};
      log := log + [CreateTable(sql)];
      comments := comments[(schema, table) := None];
    }

    /** The ALTER loop of `wrds_to_pg`: converts each listed column to timestamp, in order. */
    method FixTimestamps(schema: string, table: string, vars: seq<string>)
      modifies this
      ensures log == old(log) + Alters(schema, table, vars)
      ensures comments == old(comments) && roles == old(roles)
    {
      for i := 0 to |vars|
        invariant log == old(log) + Alters(schema, table, vars[..i])
        invariant comments == old(comments) && roles == old(roles)
      {
        AltersAppend(schema, table, vars[..i], vars[i]);
        assert vars[..i + 1] == vars[..i] + [vars[i]];
        log := log + [AlterToTimestamp(schema, table, vars[i])];
      }
      assert vars[..|vars|] == vars;
    }

    /** The steps of `wrds_update` after a load: comment, owner role and ownership, access role and grant. */
    method FinishLoad(schema: string, dest: string, modified: string)
      modifies this
      ensures comments == old(comments)[(schema, dest) := Some(modified)]
      ensures roles == old(roles) + {schema, schema + "_access"}
      ensures log == old(log) + PostLoad(schema, dest, modified, old(roles))
    {
      log := log + [CommentOn(schema, dest, modified)];
      comments := comments[(schema, dest) := Some(modified)];
      EnsureRole(schema);
      log := log + [AlterOwner(schema, dest, schema)];
      var access := schema + "_access";
      EnsureRole(access);
      log := log + [GrantSelect(schema, dest, access)];
    }

    /** `role_exists` then `create_role`: the role is created only when it is missing. */
    method EnsureRole(role: string)
      modifies this
      ensures roles == old(roles) + {role}
      ensures log == old(log) + (if role in old(roles) then [] else [CreateRole(role)])
      ensures comments == old(comments)
    {
      if role !in roles {
        log := log + [CreateRole(role)];
        roles := roles + {role};
      }
    }

    /**
     * The syncing branch of `wrds_update`: loads the table, stores the
     * signal as its comment, and sets ownership and read access. A load
     * that fails leaves everything as it was.
     */
    method Refresh(table: string, schema: string, wrdsId: Option<string>, fpath: Option<string>,
                   alt: Option<string>, modified: string, cols: seq<Column>, lines: seq<string>)
      returns (r: Result<bool, SchemaError>)
      modifies this
      ensures r.Failure? <==> (!Given(wrdsId) && !Given(fpath)) || cols == []
      ensures r.Failure? ==> comments == old(comments) && roles == old(roles) && log == old(log)
      ensures r.Success? ==>
                var dest := DestinationName(table, alt);
                && r.value
                && comments == old(comments)[(schema, dest) := Some(modified)]
                && roles == old(roles) + {schema, schema + "_access"}
                && log == old(log)
                          + LoadTrace(schema, dest, GetTableSql(schema, table, alt, cols).value, lines)
                          + PostLoad(schema, dest, modified, old(roles))
    {
      var dest := DestinationName(table, alt);
      var loaded := WrdsToPg(table, schema, wrdsId, fpath, alt, cols, lines);
      if loaded.Failure? {
        return Failure(loaded.error);
      }
      ghost var loadedComments := comments;
      FinishLoad(schema, dest, modified);
      assert comments == loadedComments[(schema, dest) := Some(modified)];
      r := Success(true);
    }

    /**
     * `wrds_update` once the connection is settled: reads the two signals
     * (the stored comment only when a WRDS account is given), decides, and
     * refreshes the table only on a sync.
     */
    method WrdsUpdate(table: string, schema: string, wrdsId: Option<string>, fpath: Option<string>, force: bool,
                      alt: Option<string>, remoteModified: string, now: string,
                      cols: seq<Column>, lines: seq<string>)
      returns (r: Result<bool, SchemaError>)
      modifies this
      ensures UpdateDecision(Given(wrdsId), old(TableComment(schema, DestinationName(table, alt))),
                             remoteModified, now, force, Given(fpath)) != Sync
              ==> r == Success(false) && comments == old(comments) && roles == old(roles) && log == old(log)
      ensures UpdateDecision(Given(wrdsId), old(TableComment(schema, DestinationName(table, alt))),
                             remoteModified, now, force, Given(fpath)) == Sync
              ==> (r.Failure? <==> (!Given(wrdsId) && !Given(fpath)) || cols == []) && (r.Success? ==> r.value)
      ensures r == Success(true) ==>
                var dest := DestinationName(table, alt);
                var modified := Signals(Given(wrdsId), Some(""), remoteModified, now).1;
                && comments == old(comments)[(schema, dest) := Some(modified)]
                && roles == old(roles) + {schema, schema + "_access"}
                && log == old(log)
                          + LoadTrace(schema, dest, GetTableSql(schema, table, alt, cols).value, lines)
                          + PostLoad(schema, dest, modified, old(roles))
      ensures r.Failure? ==> comments == old(comments) && roles == old(roles) && log == old(log)
    {
      var dest := DestinationName(table, alt);
      var comment, modified;
      if Given(wrdsId) {
        comment := TableComment(schema, dest);
        modified := remoteModified;
      } else {
        comment := Some(UpdatedOn(now));
        modified := UpdatedOn(now);
      }
      var d := Decide(comment, modified, force, Given(fpath));
      if d != Sync {
        return Success(false);
      }
      r := Refresh(table, schema, wrdsId, fpath, alt, modified, cols, lines);
    }
  }

  lemma {:induction false} AltersAppend(schema: string, table: string, vars: seq<string>, v: string)
    ensures Alters(schema, table, vars + [v]) == Alters(schema, table, vars) + [AlterToTimestamp(schema, table, v)]
  {
    var a := Alters(schema, table, vars + [v]);
    var b := Alters(schema, table, vars) + [AlterToTimestamp(schema, table, v)];
    assert |a| == |b|;
    forall i | 0 <= i < |a| ensures a[i] == b[i] {
      if i < |vars| {
        assert (vars + [v])[i] == vars[i];
      }
    }
  }

  /**
   * A second update with an unchanged signal, no local file and no force
   * stops at the decision: it reports up to date and issues nothing.
   */
  method RerunShortCircuits(db: Destination, table: string, schema: string, wrdsId: string, alt: Option<string>,
                            remoteModified: string, now: string, cols: seq<Column>, lines: seq<string>)
    returns (first: Result<bool, SchemaError>, second: Result<bool, SchemaError>)
    requires wrdsId != ""
    modifies db
    ensures first == Success(true) ==> second == Success(false)
    ensures first == Success(true) ==> cols != [] && db.log == old(db.log) + LoadTrace(schema, DestinationName(table, alt), GetTableSql(schema, table, alt, cols).value, lines)
                                          + PostLoad(schema, DestinationName(table, alt), remoteModified, old(db.roles))
  {
    first := db.WrdsUpdate(table, schema, Some(wrdsId), None, false, alt, remoteModified, now, cols, lines);
    second := db.WrdsUpdate(table, schema, Some(wrdsId), None, false, alt, remoteModified, now, cols, lines);
  }
}
