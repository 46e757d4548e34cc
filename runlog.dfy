/**
 * The CSV run log that the scripts append to after each account. The file is
 * either absent or a sequence of rows (a row is the list of fields the CSV
 * writer is given); it is empty exactly when it has no rows.
 *
 * Two header rules occur: `save_logs_to_csv` (test-video.py, playwr.py) writes
 * the header when the file position at open is 0, i.e. the file is empty;
 * `log_to_csv` (loadernog.py) writes it when the file did not exist before.
 */
module RunLog {

  type Row = seq<string>

  const Header: Row := ["Username", "Shortcode", "File Path", "Timestamp"]

  datatype LogFile = Absent | Present(rows: seq<Row>)

  function Rows(f: LogFile): seq<Row> {
    if f.Absent? then [] else f.rows
  }

  /** The header-if-empty rule, opening in append mode. */
  function SavedIfEmpty(f: LogFile, logs: seq<Row>): LogFile {
    Present(Rows(f) + (if Rows(f) == [] then [Header] else []) + logs)
  }

  /** The header-if-absent rule, opening in append mode. */
  function LoggedIfAbsent(f: LogFile, logs: seq<Row>): LogFile {
    Present(Rows(f) + (if f.Absent? then [Header] else []) + logs)
  }

  /** Which of the two rules a script's log writer follows. */
  datatype HeaderRule = HeaderIfEmpty | HeaderIfAbsent

  function Append(rule: HeaderRule, f: LogFile, logs: seq<Row>): LogFile {
    match rule
    case HeaderIfEmpty => SavedIfEmpty(f, logs)
    case HeaderIfAbsent => LoggedIfAbsent(f, logs)
  }

  /** `save_logs_to_csv(logs, file_path)`: opens for append, writes the header if empty, then each row. */
  method SaveLogsToCsv(f: LogFile, logs: seq<Row>) returns (g: LogFile)
    ensures g == SavedIfEmpty(f, logs)
  {
    var rows := Rows(f);
    if |rows| == 0 {
      rows := rows + [Header];
    }
    for i := 0 to |logs|
      invariant rows == Rows(f) + (if Rows(f) == [] then [Header] else []) + logs[..i]
    {
      rows := rows + [logs[i]];
    }
    assert logs[..|logs|] == logs;
    g := Present(rows);
  }

  /** `log_to_csv(log_file_path, logs)`: remembers whether the file existed, opens for append, writes. */
  method LogToCsv(f: LogFile, logs: seq<Row>) returns (g: LogFile)
    ensures g == LoggedIfAbsent(f, logs)
  {
    var fileExists := f.Present?;
    var rows := Rows(f);
    if !fileExists {
      rows := rows + [Header];
    }
    for i := 0 to |logs|
      invariant rows == Rows(f) + (if f.Absent? then [Header] else []) + logs[..i]
    {
      rows := rows + [logs[i]];
    }
    assert logs[..|logs|] == logs;
    g := Present(rows);
  }

  /** The rows of all batches, in order. */
  function Flatten(batches: seq<seq<Row>>): seq<Row> {
    if batches == [] then [] else Flatten(batches[..|batches| - 1]) + batches[|batches| - 1]
  }

  /** The file after `save_logs_to_csv` is called once for each batch, in order. */
  function SaveAll(f: LogFile, batches: seq<seq<Row>>): LogFile {
    if batches == [] then f else SavedIfEmpty(SaveAll(f, batches[..|batches| - 1]), batches[|batches| - 1])
  }

  /** The file after `log_to_csv` is called once for each batch, in order. */
  function LogAll(f: LogFile, batches: seq<seq<Row>>): LogFile {
    if batches == [] then f else LoggedIfAbsent(LogAll(f, batches[..|batches| - 1]), batches[|batches| - 1])
  }

  /** The file after the writer of `rule` is called once for each batch, in order. */
  function AppendAll(rule: HeaderRule, f: LogFile, batches: seq<seq<Row>>): LogFile {
    match rule
    case HeaderIfEmpty => SaveAll(f, batches)
    case HeaderIfAbsent => LogAll(f, batches)
  }

  /** Appending to a non-empty log adds exactly the given rows after the old ones: never a second header. */
  lemma SaveToNonEmpty(f: LogFile, logs: seq<Row>)
    requires Rows(f) != []
    ensures Rows(SavedIfEmpty(f, logs)) == Rows(f) + logs
    ensures Rows(LoggedIfAbsent(f, logs)) == Rows(f) + logs
  {
  }

  /**
   * Any number of saves to a non-empty log appends the batches' rows in order
   * and leaves what was there untouched.
   */
  lemma {:induction false} SaveAllNonEmpty(f: LogFile, batches: seq<seq<Row>>)
    requires Rows(f) != []
    ensures Rows(SaveAll(f, batches)) == Rows(f) + Flatten(batches)
  {
    if batches != [] {
      SaveAllNonEmpty(f, batches[..|batches| - 1]);
    }
  }

  /**
   * With the header-if-empty rule, one or more saves to a missing or empty log
   * leave exactly one header, first, followed by all rows in order.
   */
  lemma {:induction false} SaveAllFromEmpty(f: LogFile, batches: seq<seq<Row>>)
    requires Rows(f) == [] && |batches| >= 1
    ensures Rows(SaveAll(f, batches)) == [Header] + Flatten(batches)
  {
    var init, last := batches[..|batches| - 1], batches[|batches| - 1];
    assert Flatten(batches) == Flatten(init) + last;
    if init == [] {
      assert SaveAll(f, init) == f;
    } else {
      SaveAllFromEmpty(f, init);
      var before := SaveAll(f, init);
      assert Rows(before) == [Header] + Flatten(init);
      assert Rows(SaveAll(f, batches)) == Rows(before) + last;
    }
  }

  /** With the header-if-absent rule, an existing log never gets a header: rows are appended as they are. */
  lemma {:induction false} LogAllExisting(f: LogFile, batches: seq<seq<Row>>)
    requires f.Present?
    ensures LogAll(f, batches) == Present(Rows(f) + Flatten(batches))
  {
    if batches != [] {
      LogAllExisting(f, batches[..|batches| - 1]);
    }
  }

  /** With the header-if-absent rule, one or more logs to a missing file give one header followed by all rows. */
  lemma {:induction false} LogAllFromAbsent(batches: seq<seq<Row>>)
    requires |batches| >= 1
    ensures Rows(LogAll(Absent, batches)) == [Header] + Flatten(batches)
  {
    var init, last := batches[..|batches| - 1], batches[|batches| - 1];
    assert Flatten(batches) == Flatten(init) + last;
    if init == [] {
      assert LogAll(Absent, init) == Absent;
    } else {
      LogAllFromAbsent(init);
      var before := LogAll(Absent, init);
      assert before.Present?;
      assert Rows(LogAll(Absent, batches)) == Rows(before) + last;
    }
  }

  /**
   * The two rules differ exactly on a file that exists and is empty: the
   * header-if-empty rule writes a header there, the header-if-absent rule does not.
   */
  lemma HeaderRulesDiffer(f: LogFile, logs: seq<Row>)
    ensures SavedIfEmpty(f, logs) == LoggedIfAbsent(f, logs) <==> f != Present([])
    ensures f == Present([]) ==>
              Rows(SavedIfEmpty(f, logs)) == [Header] + logs && Rows(LoggedIfAbsent(f, logs)) == logs
  {
    if f == Present([]) {
      assert |Rows(SavedIfEmpty(f, logs))| != |Rows(LoggedIfAbsent(f, logs))|;
    }
  }

  lemma AppendAllStep(rule: HeaderRule, f: LogFile, batches: seq<seq<Row>>, logs: seq<Row>)
    ensures AppendAll(rule, f, batches + [logs]) == Append(rule, AppendAll(rule, f, batches), logs)
  {
    assert (batches + [logs])[..|batches|] == batches;
  }
}
