/**
 * Whether `wrds_update` refreshes a table: the stored table comment is
 * compared with the warehouse's "Last Modified" signal.
 */
module Freshness {
  import opened Wrappers

  /** The three outcomes: load, skip because nothing changed, skip because the signal could not be read. */
  datatype Decision = Sync | UpToDate | Flaked

  /**
   * The branch at the heart of `wrds_update`. `comment` is the stored
   * comment (`None` for a table without one, `Some("")` for a missing
   * table); equality is tested before emptiness.
   */
  function Decide(comment: Option<string>, modified: string, force: bool, fpathGiven: bool): (d: Decision)
    ensures force ==> d == Sync
    ensures d == UpToDate <==> !force && !fpathGiven && comment == Some(modified)
    ensures d == Flaked <==> !force && modified == "" && (fpathGiven || comment != Some(modified))
    ensures d == Sync <==> force || (modified != "" && (fpathGiven || comment != Some(modified)))
  {
    if comment == Some(modified) && !force && !fpathGiven then UpToDate
    else if modified == "" && !force then Flaked
    else Sync
  }

  /** The marker written for a load from a local file: `Updated on <now>`. */
  function UpdatedOn(now: string): string
  {
    "Updated on " + now
  }

  /**
   * The pair compared: from the database and the warehouse when a WRDS
   * account is given, otherwise one stamp used as both.
   */
  function Signals(wrdsIdGiven: bool, storedComment: Option<string>, remoteModified: string, now: string): (r: (Option<string>, string))
    ensures wrdsIdGiven ==> r.0 == storedComment && r.1 == remoteModified
    ensures !wrdsIdGiven ==> r.0 == Some(r.1) && r.1 != ""
  {
    if wrdsIdGiven then (storedComment, remoteModified) else (Some(UpdatedOn(now)), UpdatedOn(now))
  }

  /** The decision `wrds_update` takes, from everything it reads. */
  function UpdateDecision(wrdsIdGiven: bool, storedComment: Option<string>, remoteModified: string, now: string,
                          force: bool, fpathGiven: bool): (d: Decision)
    ensures wrdsIdGiven ==> d == Decide(storedComment, remoteModified, force, fpathGiven)
    ensures !wrdsIdGiven ==> d != Flaked && (d == Sync <==> force || fpathGiven)
  {
    var (comment, modified) := Signals(wrdsIdGiven, storedComment, remoteModified, now);
    Decide(comment, modified, force, fpathGiven)
  }

  /** After a load the signal is the stored comment, so an unchanged signal skips the next run. */
  lemma RerunIsUpToDate(modified: string)
    ensures Decide(Some(modified), modified, false, false) == UpToDate
  {
  }

  /** A changed signal loads again. */
  lemma ChangedSignalSyncs(comment: Option<string>, modified: string, fpathGiven: bool)
    requires modified != "" && comment != Some(modified)
    ensures Decide(comment, modified, false, fpathGiven) == Sync
  {
  }

  /**
   * Equality is tested first: a missing table (comment `""`) with an
   * unreadable signal is reported up to date, not as a failed read. Both are
   * skips.
   */
  lemma MissingTableAndEmptySignal()
    ensures Decide(Some(""), "", false, false) == UpToDate
  {
  }

  /** A local-file load without a WRDS account always loads. */
  lemma LocalFileAlwaysSyncs(storedComment: Option<string>, remoteModified: string, now: string, force: bool)
    ensures UpdateDecision(false, storedComment, remoteModified, now, force, true) == Sync
  {
  }

  /** With neither an account nor a file and no force, the stamp equals itself: nothing is loaded. */
  lemma NoSourceIsUpToDate(storedComment: Option<string>, remoteModified: string, now: string)
    ensures UpdateDecision(false, storedComment, remoteModified, now, false, false) == UpToDate
  {
  }

  /** With an account, an unreadable signal is never loaded without force, even for a local file. */
  lemma EmptySignalNeverSyncs(storedComment: Option<string>, now: string, fpathGiven: bool)
    ensures UpdateDecision(true, storedComment, "", now, false, fpathGiven) != Sync
  {
  }
}
