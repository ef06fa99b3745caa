# wrds2postgres, modelled in Dafny

`wrds2postgres` copies SAS data sets from the WRDS warehouse (or from a local
SAS library) into PostgreSQL. For each table it:

1. asks SAS for the table's PROC CONTENTS description;
2. maps every SAS column to a PostgreSQL type;
3. builds a `CREATE TABLE` statement and the list of datetime columns;
4. streams the data as CSV into a `COPY`;
5. converts the datetime columns, which were loaded as text, to `timestamp`.

`wrds_update` wraps this in a freshness test. It compares the table's stored
comment with the "Last Modified" line of the warehouse listing. It loads
only when they differ, then stores the new signal as the comment and grants
access.

This project models that logic and proves properties of it. It has one module
per concern:

- `Wrappers`: `Option` and `Result`, plus `Given`. `Given` is Python truthiness
  of an optional string: `None` and `""` are both false.
- `Strings`: the string builtins the code relies on. These are `lower`,
  `rstrip`, `lstrip`, `strip`, `split` on one character, `join`, and
  case-insensitive substring search (`re.search(word, s, re.I)` with a literal
  word). Letters are folded as ASCII. Whitespace is the part of Python's whitespace below 128: space, tab to carriage return, and the separators 0x1C to 0x1F.
- `TypeMapper`: `code_row`, the first-match-wins column classifier.
- `SchemaTranslator`: `get_row_sql` and the tail of `get_table_sql`. These
  build the `CREATE TABLE` text and the ordered list of timestamp columns.
- `SasCode`: the parameter-derived pieces of the SAS requests:
  - the libname statement;
  - the drop, keep and rename options;
  - the choice between a staged data step and a direct export;
  - the 32-character staging name.
- `ModifiedScanner`: `get_modified_str`. It is an imperative loop over the
  listing lines, proved against a fold over those lines.
- `Freshness`: the decision at the heart of `wrds_update`.
- `Sync`: the destination database as a class. Its fields are the existing
  tables and their comments, the roles, and the log of statements issued. Its
  methods are `wrds_process_to_pg`, `wrds_to_pg` and the loading half of
  `wrds_update`. Each method states its new state as a function of the old one.

Inputs the code obtains through I/O are parameters of the model:
- the column description SAS returns;
- the CSV lines of the export;
- the listing lines;
- the stored comment;
- the current time.

Behaviour worth knowing:

- With a WRDS account, a local path does not force a load. An empty signal is still "flaked" without force (`Freshness.EmptySignalNeverSyncs`).
- The final `text` fallback of `code_row` is unreachable: a numeric column always matches one of the numeric rules (`TypeMapper.CodeRow`).
- No column name is rejected. The only failures are an empty description, on which pandas raises, and neither an account nor a path, on which `get_process` returns nothing and reading from it raises (`Sync.Destination.WrdsToPg`).

## Model

All source paths are in `wrds2postgres/wrds2postgres.py`.

| member | source | states |
|---|---|---|
| Strings.Lower | wrds2postgres/wrds2postgres.py:94 | `str.lower` keeps the length and lowers each ASCII letter in place |
| Strings.Contains | wrds2postgres/wrds2postgres.py:65-69 | substring search succeeds exactly when the pattern occurs at some position |
| Strings.RStrip | wrds2postgres/wrds2postgres.py:301 | `rstrip` keeps a prefix, ends in a non-space, and removes only whitespace |
| Strings.LStrip | wrds2postgres/wrds2postgres.py:293 | `lstrip` keeps a suffix, starts with a non-space, and removes only whitespace |
| Strings.Split | wrds2postgres/wrds2postgres.py:369 | `split(",")` returns at least one piece, and no piece contains the separator |
| Strings.JoinSplit | wrds2postgres/wrds2postgres.py:369 | joining the pieces of a split with the same separator gives back the text |
| Strings.SplitFirst | wrds2postgres/wrds2postgres.py:369 | a split cuts at the first separator and splits the rest the same way |
| TypeMapper.CodeRow | wrds2postgres/wrds2postgres.py:52-81 | each of the six types, characterised by the column fields that produce it (both directions): `text` exactly for character columns, so the final `else` is unreachable; `timestamp`, `time` and `date` in first-match order; `float8`/`int8` by the BEST, decimals and width rules |
| TypeMapper.DatetimeShadowsTimeAndDate | wrds2postgres/wrds2postgres.py:64-70 | every datetime format also satisfies the time and date rules, so only the order makes `timestamp` reachable |
| TypeMapper.Time8IsTimeByName | wrds2postgres/wrds2postgres.py:67 | `TIME8.` is already matched by the case-insensitive "time" search |
| TypeMapper.NumericFallback | wrds2postgres/wrds2postgres.py:72-79 | a numeric column without a date/time format is `float8` for `BEST`, nonzero decimals or zero width, and `int8` otherwise |
| TypeMapper.NoTimeWord | wrds2postgres/wrds2postgres.py:65-67 | a format without the letter i (other than `TOD`) matches neither the datetime nor the time rule |
| TypeMapper.NoDateWord | wrds2postgres/wrds2postgres.py:69 | a format without the letters a and y matches no date word |
| TypeMapper.ExampleDatetime20 | wrds2postgres/wrds2postgres.py:65-66 | a numeric `DATETIME20.` column maps to `timestamp` |
| TypeMapper.ExampleMmddyy10 | wrds2postgres/wrds2postgres.py:67-70 | a numeric `MMDDYY10.` column maps to `date` |
| TypeMapper.MmddyyIsDateOnly | wrds2postgres/wrds2postgres.py:65-70 | `MMDDYY10.` matches the date rule and neither the datetime nor the time rule |
| TypeMapper.Best12IsNotTemporal | wrds2postgres/wrds2postgres.py:65-70 | `BEST12.` matches none of the datetime, time and date rules |
| TypeMapper.ExampleBest12 | wrds2postgres/wrds2postgres.py:72-79 | `BEST12.` is not `BEST`: it maps to `float8` when it has decimals or zero width, else to `int8` |
| SchemaTranslator.RowSqlShape | wrds2postgres/wrds2postgres.py:88-94 | a clause is the lower-cased column name, a space and a type that is never `timestamp`; the type is `text` exactly for character and timestamp columns |
| SchemaTranslator.DeclaredType | wrds2postgres/wrds2postgres.py:90-92 | no column is declared `timestamp`; timestamps are declared `text` and every other type by its own name |
| SchemaTranslator.Clauses | wrds2postgres/wrds2postgres.py:158-160 | one clause per column, in description order, each `lower(name) + " " + declared type` |
| SchemaTranslator.TimestampClause | wrds2postgres/wrds2postgres.py:88-94 | a timestamp column's clause is its lower-cased name followed by ` text` |
| SchemaTranslator.DatetimesMembers | wrds2postgres/wrds2postgres.py:163-164 | a name is in the datetime list exactly when some column mapped to `timestamp` has it as its lower-cased name |
| SchemaTranslator.DatetimesAppend | wrds2postgres/wrds2postgres.py:163-164 | the datetime list keeps description order: selecting from a concatenation concatenates the selections |
| SchemaTranslator.DatetimesLength | wrds2postgres/wrds2postgres.py:163-164 | there are never more datetime entries than columns |
| SchemaTranslator.DatetimesDeclaredText | wrds2postgres/wrds2postgres.py:158-164 | every listed datetime column is declared `text` in the clauses |
| SchemaTranslator.GetTableSql | wrds2postgres/wrds2postgres.py:118-167 | fails exactly for an empty description. Otherwise the statement is `CREATE TABLE schema.dest (` followed by the column clauses joined by `, ` and a closing `)`, where dest is `alt_table_name` if given and `table_name` otherwise. The datetime list is the timestamp selection and is no longer than the description |
| SchemaTranslator.PlanTimestampsDeclaredText | wrds2postgres/wrds2postgres.py:158-167 | the plan's datetime list is the timestamp selection, and each of its columns is created as `text` |
| SchemaTranslator.ClausesOfTwo | wrds2postgres/wrds2postgres.py:158-164 | a non-timestamp column followed by a timestamp column gives two clauses and one datetime entry |
| SchemaTranslator.ExamplePlan | wrds2postgres/wrds2postgres.py:159-167 | clauses `id int8`, `ts text` give `CREATE TABLE s.t (id int8, ts text)` with datetimes `["ts"]` |
| SchemaTranslator.ExampleIdAndStamp | wrds2postgres/wrds2postgres.py:158-167 | an integer `Id` and a datetime-formatted `Ts` plan to `CREATE TABLE s.t (id int8, ts text)` with datetimes `["ts"]` |
| SasCode.LibnameStmt | wrds2postgres/wrds2postgres.py:113-116 | the libname statement is empty exactly when no local path is given, and otherwise names the schema and the path |
| SasCode.RenameOption | wrds2postgres/wrds2postgres.py:139-142 | empty exactly for an empty rename; otherwise `rename=(` + rename + `) ` |
| SasCode.DropOption | wrds2postgres/wrds2postgres.py:144-147 | empty exactly for an empty drop; otherwise `drop=` + drop |
| SasCode.KeepOption | wrds2postgres/wrds2postgres.py:149-152 | empty exactly for an empty keep; otherwise `keep=` + keep |
| SasCode.DescribeReadsOneRow | wrds2postgres/wrds2postgres.py:126 | the described data set is the source table, limited to `obs=1` |
| SasCode.StagingName | wrds2postgres/wrds2postgres.py:227-230 | at most 32 characters; a prefix of schema + table; all of it when that fits, and exactly 32 characters otherwise |
| SasCode.SasTable | wrds2postgres/wrds2postgres.py:213-216 | the bare table exactly when obs, drop, rename and keep are all empty. Otherwise it is `table(drop=` + drop + ` keep=` + keep + a space + the `obs=` option + the rename option + `)` |
| SasCode.NeedsDataStep | wrds2postgres/wrds2postgres.py:174-189 | the export is direct exactly when drop, keep and obs are empty and neither fix_cr nor fix_missing is set; fix_cr and fix_missing always stage it |
| SasCode.ExportRequestFor | wrds2postgres/wrds2postgres.py:172-271 | staged exactly when fix_missing, fix_cr, drop, obs or keep asks for it. A staged export carries the fix_cr flag and the staging name. It reads `schema.` + `SasTable` of the options, which is the bare table exactly when no option is set. It applies the `dsf` fix exactly for `dsf`. It applies the `fund_names` clean-up exactly for `fund_names`, writing to the WRDS id followed by the table name. A direct export reads `schema.table(rename)` |
| SasCode.FixCrForcesDataStep | wrds2postgres/wrds2postgres.py:174-175 | `fix_cr` always takes the data-step branch |
| SasCode.RenameAloneExportsDirectly | wrds2postgres/wrds2postgres.py:189-194 | a rename on its own does not take the data-step branch |
| ModifiedScanner.SpaceRun | wrds2postgres/wrds2postgres.py:300 | the `\s+` after the label: the longest whitespace run at the start |
| ModifiedScanner.DoubleSpaceFrom | wrds2postgres/wrds2postgres.py:300 | the lazy `(.*?)\s{2,}`: the first pair of whitespace characters at or after a position, or none |
| ModifiedScanner.TrimFollowingShape | wrds2postgres/wrds2postgres.py:293-294 | the line after a header is never lengthened and never ends in whitespace |
| ModifiedScanner.Step | wrds2postgres/wrds2postgres.py:291-302 | `next_row` is raised exactly by a header line, tested on the trimmed line when `next_row` was set; a non-header line with `next_row` unset changes nothing |
| ModifiedScanner.ModifiedValue | wrds2postgres/wrds2postgres.py:300-301 | the rewritten header never ends in whitespace |
| ModifiedScanner.ValueRoundTrip | wrds2postgres/wrds2postgres.py:300 | a value after the label and padding, followed by two or more whitespace characters, is read back exactly as `Last modified: value` |
| ModifiedScanner.GetModifiedStr | wrds2postgres/wrds2postgres.py:285-304 | the loop returns the text of the fold of `Step` over the listing lines |
| ModifiedScanner.NoHeaderNoSignal | wrds2postgres/wrds2postgres.py:288-304 | without a line starting with "Last Modified" the signal is `""` |
| ModifiedScanner.LastHeaderWins | wrds2postgres/wrds2postgres.py:288-304 | when no later line opens a record, the signal is the last header's value plus only the line right after it, trimmed, unless it is the "Protection" line; nothing before the header matters |
| ModifiedScanner.LastLineStep | wrds2postgres/wrds2postgres.py:291-302 | lines after the header's continuation leave the signal alone |
| ModifiedScanner.AfterHeader | wrds2postgres/wrds2postgres.py:299-302 | a header line sets the signal to its own value and raises `next_row` |
| ModifiedScanner.HeaderResets | wrds2postgres/wrds2postgres.py:299-302 | a header forgets the text gathered before it |
| ModifiedScanner.ContinuationStep | wrds2postgres/wrds2postgres.py:292-297 | the line after a header is trimmed and appended with a space unless it contains "Protection"; `next_row` drops |
| ModifiedScanner.QuietStep | wrds2postgres/wrds2postgres.py:291-302 | any other line leaves the state unchanged |
| ModifiedScanner.TrimmedHeader | wrds2postgres/wrds2postgres.py:293-299 | a header reached only by trimming was a header after its leading whitespace |
| ModifiedScanner.HeaderSurvivesTrim | wrds2postgres/wrds2postgres.py:293-299 | a header directly after another header is still a header once trimmed |
| Freshness.Signals | wrds2postgres/wrds2postgres.py:433-441 | with an account, the stored comment and the warehouse signal; without one, a single non-empty stamp used as both |
| Freshness.UpdateDecision | wrds2postgres/wrds2postgres.py:433-449 | with an account, the decision on the stored comment and the warehouse signal; without one, never flaked, and sync exactly when forced or given a local path |
| Freshness.Decide | wrds2postgres/wrds2postgres.py:443-449 | force always syncs; up to date exactly when not forced, no local path, and comment equals signal; flaked exactly when not forced, the signal is empty and the up-to-date test failed; sync otherwise |
| Freshness.RerunIsUpToDate | wrds2postgres/wrds2postgres.py:443-445 | a stored comment equal to the signal skips as up to date |
| Freshness.ChangedSignalSyncs | wrds2postgres/wrds2postgres.py:443-449 | a non-empty signal that differs from the comment syncs |
| Freshness.MissingTableAndEmptySignal | wrds2postgres/wrds2postgres.py:443-446 | a missing table (comment `""`) with an empty signal is reported up to date, because equality is tested first |
| Freshness.LocalFileAlwaysSyncs | wrds2postgres/wrds2postgres.py:439-449 | without an account, a local path always syncs |
| Freshness.NoSourceIsUpToDate | wrds2postgres/wrds2postgres.py:439-445 | with neither an account nor a path, and no force, nothing is loaded |
| Freshness.EmptySignalNeverSyncs | wrds2postgres/wrds2postgres.py:433-449 | with an account, an empty signal never syncs without force, even with a local path |
| Sync.DropSql | wrds2postgres/wrds2postgres.py:343 | the DROP text is `DROP TABLE IF EXISTS `, then `schema.table`, then ` CASCADE` |
| Sync.LoadTraceText | wrds2postgres/wrds2postgres.py:343-379 | the statements of a load are sent as the DROP text, the planned CREATE, `SET DateStyle TO 'ISO, MDY'`, the COPY command of the header, and one ALTER text per datetime column |
| Sync.Body | wrds2postgres/wrds2postgres.py:369-379 | the header line followed by the streamed rows is the whole export |
| Sync.CopyColumns | wrds2postgres/wrds2postgres.py:369 | at least one column name, none containing a comma |
| Sync.CopyColumnsRoundTrip | wrds2postgres/wrds2postgres.py:369 | joining the names with commas gives back the right-stripped, lower-cased header |
| Sync.HeaderFieldsInOrder | wrds2postgres/wrds2postgres.py:369 | the header's fields become the column names in order, each lower-cased |
| Sync.SingleColumnHeader | wrds2postgres/wrds2postgres.py:369 | a header without commas names one column |
| Sync.CopyCommandShape | wrds2postgres/wrds2postgres.py:372-373 | the COPY names `schema.table`, lists the columns joined by `, `, and ends with `) FROM STDIN CSV ENCODING 'utf-8'` |
| Sync.Alters | wrds2postgres/wrds2postgres.py:356-362 | one ALTER per datetime column, in list order |
| Sync.AltersAppend | wrds2postgres/wrds2postgres.py:356-362 | one more column adds its ALTER at the end |
| Sync.LoadOrder | wrds2postgres/wrds2postgres.py:343-362 | a load issues DROP, then CREATE, then the date style and the COPY of the data rows, then one ALTER per datetime column in order; each altered column was created as `text` |
| Sync.PostLoad | wrds2postgres/wrds2postgres.py:460-474 | the comment comes first and the grant to `schema_access` last; each role is created exactly when it was missing |
| Sync.Destination.TableComment | wrds2postgres/wrds2postgres.py:306-313 | a missing table reads as `""`; an existing one gives its comment, possibly none |
| Sync.Destination.ProcessToPg | wrds2postgres/wrds2postgres.py:366-385 | appends the date style and the COPY of the body; tables and roles are unchanged |
| Sync.Destination.Recreate | wrds2postgres/wrds2postgres.py:343-344 | the table exists afresh without a comment; DROP and CREATE are logged |
| Sync.Destination.FixTimestamps | wrds2postgres/wrds2postgres.py:356-362 | logs exactly `Alters` of the list; nothing else changes |
| Sync.Destination.Load | wrds2postgres/wrds2postgres.py:343-362 | logs exactly `LoadTrace`; the table is left without a comment |
| Sync.Destination.WrdsToPg | wrds2postgres/wrds2postgres.py:331-364 | fails, issuing nothing, exactly when there is neither a WRDS account nor a local path, or the description is empty; otherwise logs `LoadTrace` of the plan and returns true |
| Sync.Destination.FinishLoad | wrds2postgres/wrds2postgres.py:460-474 | stores the signal as the comment, ensures both roles exist, and logs `PostLoad` |
| Sync.Destination.EnsureRole | wrds2postgres/wrds2postgres.py:496-503 | `role_exists` then `create_role`: the role exists afterwards, and CREATE ROLE is logged exactly when it was missing |
| Sync.Destination.Refresh | wrds2postgres/wrds2postgres.py:457-476 | load then post-load steps; with no source or an empty description it fails with nothing changed |
| Sync.Destination.WrdsUpdate | wrds2postgres/wrds2postgres.py:424-476 | returns false and changes nothing unless the decision is sync. A sync fails, changing nothing, exactly when there is no source or no column. Otherwise it returns true with the signal stored as the comment, both roles present, and the log extended by `LoadTrace` then `PostLoad` |
| Sync.RerunShortCircuits | wrds2postgres/wrds2postgres.py:443-460 | after a successful update with an account, no path and no force, a second update with the same signal returns false |

## Left out

- Transport: `get_process`, `sas_to_pandas`, `wrds_to_pandas`, and the SSH and subprocess pipes. The model takes the data SAS would return as parameters: the column description, the export lines, and the listing lines.
- The SAS program templates. Only the pieces derived from parameters are modelled.
- The describe request built by `SasCode.DescribeRequestFor` is not connected to the columns SAS would return for it, since SAS itself is not modelled.
- Database effects are modelled as a statement log plus the table comments and roles that later steps read. Rows, column types, transactions and failures are not modelled: every statement is taken to succeed. The `SELECT` queries behind `get_table_comment` and `role_exists` are not logged.
- `ALTER ... OWNER` and `GRANT` are recorded but do not change the modelled state.
- `make_engine`, `run_file_sql`, `list_schemas`, `list_tables` and `list_accessible_tables`: connection set-up and thin wrappers over the WRDS client.
- The connection check in `wrds_update`: `quit()` when no engine, host or database is given.
- Printing and logging.
- The clock. `strftime(gmtime())` is the parameter `now`.
- The PostgreSQL `regexp_replace` inside the ALTER, and the date-style semantics. These statements are opaque.
- SQL quoting. The code does not escape names or comments, and the model makes no claim about injection safety.
- CSV parsing. Header fields are split on every comma, as the code does, so quoted commas and records spanning lines are not treated specially.
- Unicode. `lower` and `re.I` fold ASCII letters only, and `\s` and `isspace` are modelled below 128 only: whitespace such as U+0085 and U+00A0 is not treated as space.
- `ModifiedScanner.LastHeaderWins` covers listings where no line after the last header starts with "Last Modified" once its leading whitespace is removed. `LastLineStep` and `QuietStep` cover the line-by-line cases it builds on.
