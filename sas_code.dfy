/**
 * The parameter-derived pieces of the SAS requests sent to the warehouse:
 * the column filters and sample size of the describe request
 * (`get_table_sql`) and the choice between a staged data step and a direct
 * export (`get_wrds_process`). The SAS programs around these pieces are
 * fixed text and are not modelled.
 */
module SasCode {
  import opened Wrappers
  import opened Strings

  /** The SAS object-name limit the staging data set must respect. */
  const MaxSasName := 32

  /** `libname <schema> '<fpath>';` for a local library, nothing for the remote one. */
  function LibnameStmt(schema: string, fpath: Option<string>): (stmt: string)
    ensures stmt == "" <==> !Given(fpath)
    ensures Given(fpath) ==> stmt == "libname " + schema + " '" + fpath.value + "';"
  {
    if Given(fpath) then "libname " + schema + " '" + fpath.value + "';" else ""
  }

  /** `rename_str` of the describe request: `rename=(...) ` or nothing. */
  function RenameOption(rename: string): (opt: string)
    ensures opt == "" <==> rename == ""
    ensures rename != "" ==> |opt| == |rename| + 10 && opt[..8] == "rename=(" && opt[8..|opt| - 2] == rename && opt[|opt| - 2..] == ") "
  {
    if rename != "" then "rename=(" + rename + ") " else ""
  }

  /** `drop_str` of the describe request: `drop=...` or nothing. */
  function DropOption(drop: string): (opt: string)
    ensures opt == "" <==> drop == ""
    ensures drop != "" ==> |opt| == |drop| + 5 && opt[..5] == "drop=" && opt[5..] == drop
  {
    if drop != "" then "drop=" + drop else ""
  }

  /** `keep_str` of the describe request: `keep=...` or nothing. */
  function KeepOption(keep: string): (opt: string)
    ensures opt == "" <==> keep == ""
    ensures keep != "" ==> |opt| == |keep| + 5 && opt[..5] == "keep=" && opt[5..] == keep
  {
    if keep != "" then "keep=" + keep else ""
  }

  /** The slots of the PROC CONTENTS request: the library statement and the data set with its options. */
  datatype DescribeRequest = DescribeRequest(libname: string, data: string)

  /** `get_table_sql`'s request: one sample row of the filtered table. */
  function DescribeRequestFor(schema: string, table: string, fpath: Option<string>, drop: string, keep: string, rename: string): DescribeRequest
  {
    DescribeRequest(LibnameStmt(schema, fpath),
      schema + "." + table + "(" + DropOption(drop) + " " + KeepOption(keep) + " obs=1 " + RenameOption(rename) + ")")
  }

  /** The data set the describe request reads is the source table limited to one observation. */
  lemma DescribeReadsOneRow(schema: string, table: string, fpath: Option<string>, drop: string, keep: string, rename: string)
    ensures var d := DescribeRequestFor(schema, table, fpath, drop, keep, rename).data;
      StartsWith(d, schema + "." + table + "(") && Contains(d, " obs=1 ")
  {
    var d := DescribeRequestFor(schema, table, fpath, drop, keep, rename).data;
    var head := schema + "." + table + "(" + DropOption(drop) + " " + KeepOption(keep);
    assert d == head + " obs=1 " + RenameOption(rename) + ")";
    assert d[..|schema + "." + table + "("|] == schema + "." + table + "(";
    assert OccursAt(d, " obs=1 ", |head|);
  }

  /**
   * The staging data set's name: schema and table glued together and cut
   * to the SAS limit.
   */
  function StagingName(schema: string, table: string): (name: string)
    ensures |name| <= MaxSasName
    ensures StartsWith(schema + table, name)
    ensures |schema + table| <= MaxSasName ==> name == schema + table
    ensures |schema + table| > MaxSasName ==> |name| == MaxSasName
  {
    var full := schema + table;
    full[0..if |full| < MaxSasName then |full| else MaxSasName]
  }

  /** `obs_str`: ` obs=<n>` or nothing; `obs` is the text `str(obs)` gives. */
  function ObsOption(obs: string): string
  {
    if obs != "" then " obs=" + obs else ""
  }

  /** `rename_str` of the export request: ` rename=(...)` or nothing. */
  function ExportRenameOption(rename: string): string
  {
    if rename != "" then " rename=(" + rename + ")" else ""
  }

  /**
   * Whether the export goes through a data step: asked for explicitly, forced
   * by `fix_cr`, or needed to apply a drop, keep or row limit.
   */
  function NeedsDataStep(drop: string, keep: string, fixCr: bool, fixMissing: bool, obs: string): (staged: bool)
    ensures fixCr || fixMissing ==> staged
    ensures !staged <==> drop == "" && keep == "" && obs == "" && !fixCr && !fixMissing
  {
    var fixMissing' := fixMissing || fixCr;
    fixMissing' || drop != "" || obs != "" || keep != ""
  }

  /**
   * `sas_table`: the table with its data set options. Both `drop=` and
   * `keep=` are always written, even with nothing after them.
   */
  function SasTable(table: string, drop: string, keep: string, obs: string, rename: string): (t: string)
    ensures t == table <==> obs == "" && drop == "" && rename == "" && keep == ""
    ensures t != table ==> t == table + "(drop=" + drop + " keep=" + keep + " " + ObsOption(obs) + ExportRenameOption(rename) + ")"
  {
    if obs != "" || drop != "" || rename != "" || keep != "" then
      var t := table + "(drop=" + drop + " keep=" + keep + " " + ObsOption(obs) + ExportRenameOption(rename) + ")";
      assert |t| > |table|;
      t
    else table
  }

  /** How `"%s" % wrds_id` renders the account name, `None` included. */
  function IdText(wrdsId: Option<string>): string
  {
    if wrdsId.Some? then wrdsId.value else "None"
  }

  /**
   * The slots of the export request. A staged export copies
   * `source` into the data set `staging` (blanking special missing values,
   * optionally stripping control characters, and applying the `dsf` and
   * `fund_names` special cases) and exports that; a direct export exports
   * `source` as it is.
   */
  datatype ExportRequest =
    | StagedExport(libname: string, staging: string, source: string, dsfFix: bool, fixCr: bool, fundNamesTarget: Option<string>)
    | DirectExport(libname: string, source: string)

  /** `get_wrds_process` up to handing the program to the channel. */
  function ExportRequestFor(table: string, schema: string, wrdsId: Option<string>, fpath: Option<string>,
                            drop: string, keep: string, fixCr: bool, fixMissing: bool, obs: string, rename: string): (r: ExportRequest)
    ensures r.libname == LibnameStmt(schema, fpath)
    ensures r.StagedExport? <==> NeedsDataStep(drop, keep, fixCr, fixMissing, obs)
    ensures r.StagedExport? ==>
      && r.fixCr == fixCr
      && r.staging == StagingName(schema, table)
      && r.source == schema + "." + SasTable(table, drop, keep, obs, rename)
      && (r.source == schema + "." + table <==> obs == "" && drop == "" && rename == "" && keep == "")
      && r.dsfFix == (table == "dsf")
      && (r.fundNamesTarget.Some? <==> table == "fund_names")
      && (table == "fund_names" ==> r.fundNamesTarget == Some(IdText(wrdsId) + table))
    ensures r.DirectExport? ==> r.source == schema + "." + table + "(" + ExportRenameOption(rename) + ")"
  {
    var libname := LibnameStmt(schema, fpath);
    if NeedsDataStep(drop, keep, fixCr, fixMissing, obs) then
      var sasTable := SasTable(table, drop, keep, obs, rename);
      assert schema + "." + sasTable == schema + "." + table <==> sasTable == table by {
        if schema + "." + sasTable == schema + "." + table {
          assert sasTable == (schema + "." + sasTable)[|schema| + 1..];
        }
      }
      StagedExport(libname, StagingName(schema, table), schema + "." + sasTable, table == "dsf", fixCr,
        if table == "fund_names" then Some(IdText(wrdsId) + table) else None)
    else
      DirectExport(libname, schema + "." + table + "(" + ExportRenameOption(rename) + ")")
  }

  /** `fix_cr` turns `fix_missing` on, so it always goes through the data step. */
  lemma FixCrForcesDataStep(table: string, schema: string, wrdsId: Option<string>, fpath: Option<string>,
                            drop: string, keep: string, fixMissing: bool, obs: string, rename: string)
    ensures var r := ExportRequestFor(table, schema, wrdsId, fpath, drop, keep, true, fixMissing, obs, rename);
      r.StagedExport? && r.fixCr
  {
  }

  /** A rename on its own does not need the data step: it is applied in the export itself. */
  lemma RenameAloneExportsDirectly(table: string, schema: string, wrdsId: Option<string>, fpath: Option<string>, rename: string)
    ensures ExportRequestFor(table, schema, wrdsId, fpath, "", "", false, false, "", rename).DirectExport?
  {
  }
}
