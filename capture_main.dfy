/**
 * The monitoring front end (main.py): poll for a Book1 window, capture it
 * with the auto-saver, and turn the captured sheet into three reports — per
 * Account Name, per Brand and per "Brand : Category" — written next to each
 * other under names derived from the captured file's name.
 */
module CaptureMain {
  import opened Wrappers
  import opened Seqs
  import opened Strings
  import opened Host
  import opened Reports
  import opened Autosaver

  const SaveFolder: Path := "C:\\Users\\sasuk\\Documents\\CapturedExports"
  const ProcessedFolder: Path := "C:\\Users\\sasuk\\Documents\\ProcessedExports"

  // ---------------------------------------------------------------- reports

  /** `calc_profit_percentage_accname`: grouped by Account Name for version 0, nothing otherwise. */
  function CalcProfitPercentageAccname(df: seq<JoinedRow>, vernum: int): (r: Option<Report>)
    ensures r.Some? <==> vernum == 0
    ensures r.Some? ==> r.value == ProfitReport(df, AccountNameKey)
  {
    if vernum == 0 then Some(ProfitReport(df, AccountNameKey)) else None
  }

  /** `calc_profit_percentage_brand`: grouped by Brand for version 0, by "Brand : Category" for 1, nothing otherwise. */
  function CalcProfitPercentageBrand(df: seq<JoinedRow>, vernum: int): (r: Option<Report>)
    ensures r.Some? <==> vernum == 0 || vernum == 1
    ensures vernum == 0 ==> r == Some(ProfitReport(df, BrandKey))
    ensures vernum == 1 ==> r == Some(ProfitReport(df, BrandCategoryKey))
  {
    if vernum == 0 then Some(ProfitReport(df, BrandKey))
    else if vernum == 1 then Some(ProfitReport(df, BrandCategoryKey))
    else None
  }

  /** The three reports of one captured sheet, in the order they are written. */
  function MainReports(t: Tables): (r: seq<Report>)
    ensures |r| == 3
  {
    var df := LeftJoin(t.captured, t.brandMap);
    [CalcProfitPercentageAccname(df, 0).value, CalcProfitPercentageBrand(df, 0).value,
     CalcProfitPercentageBrand(WithCategory(df), 1).value]
  }

  /**
   * The reports are grouped by Account Name, by Brand, and by the label of
   * exactly the joined rows that have a CATEGORY.
   */
  lemma MainReportsGrouping(t: Tables, k: string)
    ensures var df, r := LeftJoin(t.captured, t.brandMap), MainReports(t);
      && r[0] == ProfitReport(df, AccountNameKey)
      && r[1] == ProfitReport(df, BrandKey)
      && r[2] == ProfitReport(WithCategory(df), BrandCategoryKey)
      && (k in ReportKeys(Rows(r[2])) <==> exists row :: row in df && row.category.Some? && BrandCategoryLabel(row) == k)
  {
    var df := LeftJoin(t.captured, t.brandMap);
    CategoryReportKeys(df, k);
  }

  // ---------------------------------------------------------------- transform

  /** The output names: a report prefix followed by the captured file's base name. */
  function ProcessedPaths(filepath: Path): (r: seq<Path>)
    ensures |r| == 3
  {
    var b := Basename(filepath);
    [JoinPath(ProcessedFolder, "processed_ver-id_" + b),
     JoinPath(ProcessedFolder, "processed_ver-br_" + b),
     JoinPath(ProcessedFolder, "processed_ver-brcat_" + b)]
  }

  /** The three output paths differ from each other, whatever the input. */
  lemma ProcessedPathsDistinct(filepath: Path)
    ensures var r := ProcessedPaths(filepath);
      r[0] != r[1] && r[0] != r[2] && r[1] != r[2]
  {
    var b := Basename(filepath);
    var id, br, brcat := "processed_ver-id_" + b, "processed_ver-br_" + b, "processed_ver-brcat_" + b;
    assert id != br && id != brcat by {
      assert id[14] == 'i' && br[14] == 'b' && brcat[14] == 'b';
    }
    assert br != brcat by {
      assert br[16] == '_' && brcat[16] == 'c';
    }
    if JoinPath(ProcessedFolder, id) == JoinPath(ProcessedFolder, br) {
      JoinPathInjective(ProcessedFolder, id, br);
    }
    if JoinPath(ProcessedFolder, id) == JoinPath(ProcessedFolder, brcat) {
      JoinPathInjective(ProcessedFolder, id, brcat);
    }
    if JoinPath(ProcessedFolder, br) == JoinPath(ProcessedFolder, brcat) {
      JoinPathInjective(ProcessedFolder, br, brcat);
    }
  }

  /** A file step of the transform: writing one report, or opening one. */
  datatype FileStep = WriteReport(path: Path, report: Report) | OpenFile(path: Path)

  /** What the transform finds: both tables when they load, and how many file steps succeed before one raises. */
  datatype TransformHost = TransformHost(tables: Option<Tables>, ioSteps: nat)

  datatype TransformOutcome = TransformOutcome(ok: bool, steps: seq<FileStep>)

  /** The three writes, then the three opens, in that order. */
  function FileSteps(paths: seq<Path>, reports: seq<Report>): (r: seq<FileStep>)
    requires |paths| == 3 && |reports| == 3
    ensures |r| == 6
  {
    WriteThenOpen(paths, reports, (p, rep) => WriteReport(p, rep), p => OpenFile(p))
  }

  /**
   * `transform_excel_file`: true only after all three reports were written and
   * opened; any exception (a table that does not load, a write or open that
   * raises) gives false after the steps that did succeed.
   */
  function TransformExcelFile(filepath: Path, host: TransformHost): (r: TransformOutcome)
    ensures r.ok <==> host.tables.Some? && host.ioSteps >= 6
    ensures r.ok ==> r.steps == FileSteps(ProcessedPaths(filepath), MainReports(host.tables.value))
    ensures !r.ok ==> |r.steps| < 6
    ensures host.tables.Some? ==> r.steps <= FileSteps(ProcessedPaths(filepath), MainReports(host.tables.value))
    ensures host.tables.None? ==> r.steps == []
  {
    match host.tables
    case None => TransformOutcome(false, [])
    case Some(t) =>
      var steps := FileSteps(ProcessedPaths(filepath), MainReports(t));
      if host.ioSteps < 6 then TransformOutcome(false, steps[..host.ioSteps])
      else TransformOutcome(true, steps)
  }

  // ---------------------------------------------------------------- one-shot capture

  /** What the host answers to one capture by the auto-saver. */
  datatype CaptureHost = CaptureHost(
    windows: seq<Window>, fg: Foreground, ts: string, fs: FileSystem, removeFails: bool, run: DdeRun)

  /**
   * The capture reports a path: a target was found and brought forward, the
   * save ran and shut down cleanly, and a non-empty file is then at the
   * capture path (possibly a leftover that could not be removed).
   */
  predicate CaptureSucceeds(c: CaptureHost) {
    var p := CapturePath(SaveFolder, None, c.ts);
    CaptureProceeds(c.windows, true, c.fg)
    && c.run.DdeSaved? && c.run.shutdownOk
    && IsNonEmptyFile(AfterDde(ClearExisting(c.fs, p, c.removeFails), p, c.run), p)
  }

  /** `capture_once`: the saved path only when both the capture and the transform succeed. */
  method CaptureOnce(c: CaptureHost, t: TransformHost) returns (r: Option<Path>)
    ensures r.Some? <==> CaptureSucceeds(c) && TransformExcelFile(CapturePath(SaveFolder, None, c.ts), t).ok
    ensures r.Some? ==> r.value == CapturePath(SaveFolder, None, c.ts)
  {
    var savedFile, _ := CaptureBook1(c.windows, SaveFolder, None, true, c.fg, c.ts, c.fs, c.removeFails, c.run);
    if savedFile.None? {
      return None;
    }
    var success := TransformExcelFile(savedFile.value, t).ok;
    if success {
      return savedFile;
    }
    return None;
  }

  // ---------------------------------------------------------------- the monitoring loop

  /**
   * One poll of the loop: the availability check raised, found no Book1, or
   * found one, with what the capture returned and whether its transform
   * succeeded.
   */
  datatype Poll = PollRaised | NoBook1 | Book1Found(saved: Option<Path>, transformOk: bool)

  /** What a poll reports. */
  datatype Note = LoopError | Waiting | CaptureFailed | Processed(path: Path, ok: bool)

  /** The value of `last_check_failed` after the given polls: set by a miss, cleared by a detection, kept by an error. */
  function LastCheckFailed(polls: seq<Poll>): bool {
    if |polls| == 0 then false
    else match polls[|polls| - 1]
      case PollRaised => LastCheckFailed(polls[..|polls| - 1])
      case NoBook1 => true
      case Book1Found(_, _) => false
  }

  /** What one poll reports, given the flag before it. */
  function PollNotes(lastFailed: bool, p: Poll): seq<Note> {
    match p
    case PollRaised => [LoopError]
    case NoBook1 => if lastFailed then [] else [Waiting]
    case Book1Found(saved, transformOk) =>
      if saved.Some? then [Processed(saved.value, transformOk)] else [CaptureFailed]
  }

  function MonitorNotes(polls: seq<Poll>): seq<Note> {
    if |polls| == 0 then []
    else MonitorNotes(polls[..|polls| - 1]) + PollNotes(LastCheckFailed(polls[..|polls| - 1]), polls[|polls| - 1])
  }

  /** `auto_capture_and_transform` over a finite run of polls (the run ends where Ctrl+C stops it). */
  method AutoCaptureAndTransform(polls: seq<Poll>) returns (notes: seq<Note>, lastCheckFailed: bool)
    ensures notes == MonitorNotes(polls)
    ensures lastCheckFailed == LastCheckFailed(polls)
  {
    notes, lastCheckFailed := [], false;
    for i := 0 to |polls|
      invariant notes == MonitorNotes(polls[..i])
      invariant lastCheckFailed == LastCheckFailed(polls[..i])
    {
      assert polls[..i + 1][..i] == polls[..i];
      match polls[i] {
        case PollRaised =>
          notes := notes + [LoopError];
        case Book1Found(saved, transformOk) =>
          if saved.Some? {
            notes := notes + [Processed(saved.value, transformOk)];
          } else {
            notes := notes + [CaptureFailed];
          }
          lastCheckFailed := false;
        case NoBook1 =>
          if !lastCheckFailed {
            notes := notes + [Waiting];
          }
          lastCheckFailed := true;
      }
    }
    assert polls[..|polls|] == polls;
  }

  /**
   * The flag is clear exactly when every earlier miss was followed by a
   * detection: so "waiting" is reported on the first miss at startup or after
   * a detection, and never twice without a detection in between.
   */
  lemma {:induction false} LastCheckFailedMeans(polls: seq<Poll>)
    ensures !LastCheckFailed(polls) <==>
      forall k :: 0 <= k < |polls| && polls[k].NoBook1? ==> exists d :: k < d < |polls| && polls[d].Book1Found?
  {
    if |polls| > 0 {
      var q := polls[..|polls| - 1];
      var n := |polls| - 1;
      LastCheckFailedMeans(q);
      assert forall k :: 0 <= k < n ==> q[k] == polls[k];
      match polls[n] {
        case PollRaised =>
          forall k | 0 <= k < n && polls[k].NoBook1? && (exists d :: k < d < |polls| && polls[d].Book1Found?)
            ensures exists d :: k < d < n && q[d].Book1Found?
          {
            var d :| k < d < |polls| && polls[d].Book1Found?;
            assert d < n;
          }
        case NoBook1 =>
        case Book1Found(_, _) =>
          forall k | 0 <= k < |polls| && polls[k].NoBook1?
            ensures exists d :: k < d < |polls| && polls[d].Book1Found?
          {
            assert polls[n].Book1Found?;
          }
      }
    }
  }

  /** Poll `i` reports "waiting" exactly when it misses and the flag was clear. */
  lemma WaitingReported(polls: seq<Poll>, i: nat)
    requires i < |polls|
    ensures Waiting in PollNotes(LastCheckFailed(polls[..i]), polls[i]) <==> polls[i].NoBook1? && !LastCheckFailed(polls[..i])
  {
  }
}
