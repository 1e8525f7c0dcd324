/**
 * The process-isolation pipeline (accountingToolv2.py): find an unsaved
 * "Book" window, record the files open in every other Excel instance,
 * terminate those instances, save and transform the target workbook, and
 * reopen the recorded files. Every effect on the host is either an input
 * (what the OS, COM or the file system answered) or an entry of the
 * returned event trace.
 */
module ToolV2 {
  import opened Wrappers
  import opened Seqs
  import opened Strings
  import opened Host
  import opened Reports

  const SaveFolder: Path := "C:\\Users\\sasuk\\Documents\\CapturedExports"
  const ProcessedFolder: Path := "C:\\Users\\sasuk\\Documents\\ProcessedExports"
  const ExcelImage := "EXCEL.EXE"
  const MaxCensusPasses: nat := 3

  /** The effects of one watch cycle on the host, in the order they are requested. */
  datatype Event =
    | CensusScan(attempt: nat)
    | Terminate(pid: Pid)
    | SaveAs(path: Path)
    | CloseWorkbook(name: string)
    | RunTransform(path: Path)
    | WriteReport(path: Path, report: Report)
    | OpenFile(path: Path)
    | Kill(pid: Pid)
    | RemoveFile(path: Path)

  // ---------------------------------------------------------------- discovery

  /** A visible Excel main window whose lowercased title starts with "book". */
  predicate IsUnsavedWindow(w: Window) {
    w.className == ExcelWindowClass && w.visible && StartsWith(Lower(w.title), "book")
  }

  /** The unsaved workbook windows, in enumeration order. */
  method FindUnsavedExcelWindows(windows: seq<Window>) returns (found: seq<Window>)
    ensures found == Filter(windows, IsUnsavedWindow)
    ensures forall w :: w in found <==> w in windows && IsUnsavedWindow(w)
  {
    found := [];
    for i := 0 to |windows|
      invariant found == Filter(windows[..i], IsUnsavedWindow)
    {
      assert windows[..i + 1][..i] == windows[..i];
      var w := windows[i];
      if w.className == ExcelWindowClass && w.visible {
        if StartsWith(Lower(w.title), "book") {
          found := found + [w];
        }
      }
    }
    assert windows[..|windows|] == windows;
    forall w ensures w in found <==> w in windows && IsUnsavedWindow(w) {
      FilterMember(windows, IsUnsavedWindow, w);
    }
  }

  // ---------------------------------------------------------------- processes

  /** The pids of the processes whose image name is exactly "EXCEL.EXE", in listing order. */
  function ExcelPids(procs: seq<Process>): (r: seq<Pid>)
    ensures |r| <= |procs|
    ensures forall p :: p in r <==> exists i :: 0 <= i < |procs| && procs[i].name == ExcelImage && procs[i].pid == p
  {
    if |procs| == 0 then []
    else
      var q := procs[..|procs| - 1];
      var last := procs[|procs| - 1];
      var r := ExcelPids(q) + if last.name == ExcelImage then [last.pid] else [];
      assert forall i :: 0 <= i < |q| ==> q[i] == procs[i];
      r
  }

  method GetAllExcelProcesses(procs: seq<Process>) returns (pids: seq<Pid>)
    ensures pids == ExcelPids(procs)
  {
    pids := [];
    for i := 0 to |procs|
      invariant pids == ExcelPids(procs[..i])
    {
      assert procs[..i + 1][..i] == procs[..i];
      if procs[i].name == ExcelImage {
        pids := pids + [procs[i].pid];
      }
    }
    assert procs[..|procs|] == procs;
  }

  /** `s` without the occurrences of `x`, in order. */
  function Without(s: seq<Pid>, x: Pid): (r: seq<Pid>)
    ensures |r| <= |s|
    ensures forall p :: p in r <==> p in s && p != x
  {
    if |s| == 0 then []
    else
      var q := s[..|s| - 1];
      var r := Without(q, x) + if s[|s| - 1] != x then [s[|s| - 1]] else [];
      assert s == q + [s[|s| - 1]];
      r
  }

  /** The sibling Excel instances: every EXCEL.EXE pid except the target. */
  function OtherPids(target: Pid, procs: seq<Process>): seq<Pid> {
    Without(ExcelPids(procs), target)
  }

  // ---------------------------------------------------------------- census

  /** What one census pass saw: the active application's workbooks and the file system, or a failure to connect. */
  datatype CensusPass = PassFailed | PassScanned(books: seq<BookRead>, fs: FileSystem)

  function PassPaths(passes: seq<CensusPass>, i: nat): seq<Path> {
    if i < |passes| then
      match passes[i]
      case PassFailed => []
      case PassScanned(books, fs) => SavedPaths(books, fs)
    else []
  }

  /** The number of census passes: none without siblings, otherwise one per sibling up to three. */
  function CensusAttempts(siblings: nat): (n: nat)
    ensures n <= MaxCensusPasses && n <= siblings
    ensures n == 0 <==> siblings == 0
  {
    if siblings < MaxCensusPasses then siblings else MaxCensusPasses
  }

  /** The files to reopen after `n` passes; a pass beyond the supplied ones failed. */
  function Census(passes: seq<CensusPass>, n: nat): seq<Path> {
    if n == 0 then [] else AppendNew(Census(passes, n - 1), PassPaths(passes, n - 1))
  }

  /** Everything the first `n` passes saw, repeats included. */
  function AllScanned(passes: seq<CensusPass>, n: nat): seq<Path> {
    if n == 0 then [] else AllScanned(passes, n - 1) + PassPaths(passes, n - 1)
  }

  function CensusEvents(n: nat): (r: seq<Event>)
    ensures |r| == n && forall i :: 0 <= i < n ==> r[i] == CensusScan(i)
  {
    if n == 0 then [] else CensusEvents(n - 1) + [CensusScan(n - 1)]
  }

  method CaptureOpenFilesBeforeClosing(target: Pid, procs: seq<Process>, passes: seq<CensusPass>)
    returns (files: seq<Path>, attempts: nat, trace: seq<Event>)
    ensures attempts == CensusAttempts(|OtherPids(target, procs)|)
    ensures files == Census(passes, attempts)
    ensures trace == CensusEvents(attempts)
  {
    var all := GetAllExcelProcesses(procs);
    var others := Without(all, target);
    files, trace := [], [];
    if |others| == 0 {
      return files, 0, trace;
    }
    attempts := if |others| < MaxCensusPasses then |others| else MaxCensusPasses;
    for attempt := 0 to attempts
      invariant files == Census(passes, attempt)
      invariant trace == CensusEvents(attempt)
    {
      trace := trace + [CensusScan(attempt)];
      if attempt < |passes| && passes[attempt].PassScanned? {
        var current := ScanPass(passes[attempt].books, passes[attempt].fs);
        files := AddNewFiles(files, current);
      }
    }
  }

  /** One census pass over the workbooks of the active application. */
  method ScanPass(books: seq<BookRead>, fs: FileSystem) returns (current: seq<Path>)
    ensures current == SavedPaths(books, fs)
  {
    current := [];
    for k := 0 to |books|
      invariant current == SavedPaths(books[..k], fs)
    {
      assert books[..k + 1][..k] == books[..k];
      assert SavedPaths(books[..k + 1], fs) == SavedPaths(books[..k], fs) + SavedPath(books[k], fs);
      match books[k] {
        case Unreadable =>
        case Readable(wb) =>
          if Strip(wb.path) != "" {
            var fullPath := JoinPath(wb.path, wb.name);
            if fullPath in fs {
              current := current + [fullPath];
            }
          }
      }
    }
    assert books[..|books|] == books;
  }

  /** Appends the paths of one pass that are not listed yet. */
  method AddNewFiles(files: seq<Path>, current: seq<Path>) returns (r: seq<Path>)
    ensures r == AppendNew(files, current)
  {
    r := files;
    for k := 0 to |current|
      invariant r == AppendNew(files, current[..k])
    {
      assert current[..k + 1][..k] == current[..k];
      if current[k] !in r {
        r := r + [current[k]];
      }
    }
    assert current[..|current|] == current;
  }

  /** The census never lists a file twice. */
  lemma {:induction false} CensusNoDup(passes: seq<CensusPass>, n: nat)
    ensures NoDup(Census(passes, n))
  {
    if n > 0 {
      CensusNoDup(passes, n - 1);
      AppendNewNoDup(Census(passes, n - 1), PassPaths(passes, n - 1));
    }
  }

  /** A file is listed exactly when some pass saw it. */
  lemma {:induction false} CensusMember(passes: seq<CensusPass>, n: nat, x: Path)
    ensures x in Census(passes, n) <==> exists i :: 0 <= i < n && x in PassPaths(passes, i)
  {
    if n > 0 {
      CensusMember(passes, n - 1, x);
      AppendNewMember(Census(passes, n - 1), PassPaths(passes, n - 1), x);
      if x in Census(passes, n) {
        if x in Census(passes, n - 1) {
          var i :| 0 <= i < n - 1 && x in PassPaths(passes, i);
          assert 0 <= i < n && x in PassPaths(passes, i);
        } else {
          assert x in PassPaths(passes, n - 1);
        }
      }
      if exists i :: 0 <= i < n && x in PassPaths(passes, i) {
        var i :| 0 <= i < n && x in PassPaths(passes, i);
        if i < n - 1 {
          assert x in Census(passes, n - 1);
        }
      }
    }
  }

  /** A later pass only appends: the files found first keep their positions. */
  lemma CensusKeepsOrder(passes: seq<CensusPass>, n: nat)
    ensures Census(passes, n) <= Census(passes, n + 1)
  {
    AppendNewPrefix(Census(passes, n), PassPaths(passes, n));
  }

  /** The census is the first-seen deduplication of everything the passes saw. */
  lemma {:induction false} CensusIsDedup(passes: seq<CensusPass>, n: nat)
    ensures Census(passes, n) == AppendNew([], AllScanned(passes, n))
  {
    if n > 0 {
      CensusIsDedup(passes, n - 1);
      AppendNewConcat([], AllScanned(passes, n - 1), PassPaths(passes, n - 1));
    }
  }

  // ---------------------------------------------------------------- isolation

  /** The siblings whose terminate call did not raise, in order. */
  function ClosedPids(others: seq<Pid>, terminateFails: set<Pid>): (r: seq<Pid>)
    ensures |r| <= |others|
    ensures forall p :: p in r <==> p in others && p !in terminateFails
  {
    if |others| == 0 then []
    else
      var q := others[..|others| - 1];
      var last := others[|others| - 1];
      var r := ClosedPids(q, terminateFails) + if last !in terminateFails then [last] else [];
      assert others == q + [last];
      r
  }

  function TerminateEvents(pids: seq<Pid>): (r: seq<Event>)
    ensures |r| == |pids| && forall i :: 0 <= i < |r| ==> r[i] == Terminate(pids[i])
  {
    if |pids| == 0 then [] else TerminateEvents(pids[..|pids| - 1]) + [Terminate(pids[|pids| - 1])]
  }

  /** The events of one isolation: the census passes, then a terminate request per sibling. */
  function IsolationTrace(target: Pid, procsAtCensus: seq<Process>, procsAtClose: seq<Process>): seq<Event> {
    CensusEvents(CensusAttempts(|OtherPids(target, procsAtCensus)|)) + TerminateEvents(OtherPids(target, procsAtClose))
  }

  /**
   * The census runs first and reads the process list itself; the list is read
   * again before terminating, so the two snapshots are separate inputs.
   */
  method CloseOtherExcelProcesses(
    target: Pid, procsAtCensus: seq<Process>, passes: seq<CensusPass>,
    procsAtClose: seq<Process>, terminateFails: set<Pid>)
    returns (closed: seq<Pid>, files: seq<Path>, trace: seq<Event>)
    ensures files == Census(passes, CensusAttempts(|OtherPids(target, procsAtCensus)|))
    ensures closed == ClosedPids(OtherPids(target, procsAtClose), terminateFails)
    ensures trace == IsolationTrace(target, procsAtCensus, procsAtClose)
  {
    var attempts, terminates;
    files, attempts, trace := CaptureOpenFilesBeforeClosing(target, procsAtCensus, passes);
    var all := GetAllExcelProcesses(procsAtClose);
    var others := Without(all, target);
    closed, terminates := TerminateEach(others, terminateFails);
    trace := trace + terminates;
  }

  /** Requests termination of each sibling in turn; a request that raises is skipped. */
  method TerminateEach(others: seq<Pid>, terminateFails: set<Pid>) returns (closed: seq<Pid>, trace: seq<Event>)
    ensures closed == ClosedPids(others, terminateFails)
    ensures trace == TerminateEvents(others)
  {
    closed, trace := [], [];
    for i := 0 to |others|
      invariant closed == ClosedPids(others[..i], terminateFails)
      invariant trace == TerminateEvents(others[..i])
    {
      assert others[..i + 1][..i] == others[..i];
      trace := trace + [Terminate(others[i])];
      if others[i] !in terminateFails {
        closed := closed + [others[i]];
      }
    }
    assert others[..|others|] == others;
  }

  /** Isolation never terminates the target, and no terminate request precedes a census pass. */
  lemma IsolationSparesTarget(target: Pid, procsAtCensus: seq<Process>, procsAtClose: seq<Process>, terminateFails: set<Pid>)
    ensures Terminate(target) !in IsolationTrace(target, procsAtCensus, procsAtClose)
    ensures target !in ClosedPids(OtherPids(target, procsAtClose), terminateFails)
    ensures var t := IsolationTrace(target, procsAtCensus, procsAtClose);
      forall i, j :: 0 <= i < j < |t| && t[i].Terminate? ==> t[j].Terminate?
  {
    var c := CensusEvents(CensusAttempts(|OtherPids(target, procsAtCensus)|));
    var others := OtherPids(target, procsAtClose);
    var t := IsolationTrace(target, procsAtCensus, procsAtClose);
    forall i | 0 <= i < |t| ensures t[i] != Terminate(target) && (t[i].Terminate? <==> i >= |c|) {
      if i >= |c| {
        assert t[i] == Terminate(others[i - |c|]);
        assert others[i - |c|] in others;
      }
    }
  }

  /** Isolation only runs census passes and terminate requests. */
  lemma IsolationEventKinds(target: Pid, procsAtCensus: seq<Process>, procsAtClose: seq<Process>)
    ensures forall e :: e in IsolationTrace(target, procsAtCensus, procsAtClose) ==> e.CensusScan? || e.Terminate?
  {
    var c := CensusEvents(CensusAttempts(|OtherPids(target, procsAtCensus)|));
    var t := IsolationTrace(target, procsAtCensus, procsAtClose);
    forall i | 0 <= i < |t| ensures t[i].CensusScan? || t[i].Terminate? {
      if i >= |c| {
        assert t[i] == TerminateEvents(OtherPids(target, procsAtClose))[i - |c|];
      }
    }
  }

  // ---------------------------------------------------------------- restoration

  /** The paths reported failed: gone from disk, or their open call raised. */
  function RestoreFailures(files: seq<Path>, fs: FileSystem, openFails: set<Path>): (r: seq<Path>)
    ensures forall p :: p in r <==> p in files && (p !in fs || p in openFails)
  {
    if |files| == 0 then []
    else
      var q := files[..|files| - 1];
      var p := files[|files| - 1];
      var r := RestoreFailures(q, fs, openFails) + if p !in fs || p in openFails then [p] else [];
      assert files == q + [p];
      r
  }

  /** The number of paths opened: existing on disk and opened without raising. */
  function RestoreOpened(files: seq<Path>, fs: FileSystem, openFails: set<Path>): nat {
    if |files| == 0 then 0
    else
      var p := files[|files| - 1];
      RestoreOpened(files[..|files| - 1], fs, openFails) + if p in fs && p !in openFails then 1 else 0
  }

  /** An open request for each path that still exists, in order. */
  function OpenEvents(files: seq<Path>, fs: FileSystem): (r: seq<Event>)
    ensures forall e :: e in r <==> e.OpenFile? && e.path in files && e.path in fs
  {
    if |files| == 0 then []
    else
      var q := files[..|files| - 1];
      var p := files[|files| - 1];
      var r := OpenEvents(q, fs) + if p in fs then [OpenFile(p)] else [];
      assert files == q + [p];
      r
  }

  method RestoreExcelFiles(files: seq<Path>, fs: FileSystem, openFails: set<Path>)
    returns (openedCount: nat, failed: seq<Path>, trace: seq<Event>)
    ensures openedCount == RestoreOpened(files, fs, openFails)
    ensures failed == RestoreFailures(files, fs, openFails)
    ensures trace == OpenEvents(files, fs)
  {
    openedCount, failed, trace := 0, [], [];
    if |files| == 0 {
      return;
    }
    for i := 0 to |files|
      invariant openedCount == RestoreOpened(files[..i], fs, openFails)
      invariant failed == RestoreFailures(files[..i], fs, openFails)
      invariant trace == OpenEvents(files[..i], fs)
    {
      assert files[..i + 1][..i] == files[..i];
      var path := files[i];
      if path !in fs {
        failed := failed + [path];
        continue;
      }
      trace := trace + [OpenFile(path)];
      if path in openFails {
        failed := failed + [path];
      } else {
        openedCount := openedCount + 1;
      }
    }
    assert files[..|files|] == files;
  }

  /** Every path is accounted for exactly once: opened or reported failed. */
  lemma {:induction false} RestoreAccountsForEveryFile(files: seq<Path>, fs: FileSystem, openFails: set<Path>)
    ensures RestoreOpened(files, fs, openFails) + |RestoreFailures(files, fs, openFails)| == |files|
  {
    if |files| > 0 {
      RestoreAccountsForEveryFile(files[..|files| - 1], fs, openFails);
    }
  }

  // ---------------------------------------------------------------- target selection

  /** The unsaved workbook the cycle is after: the same name, a "book" name, and no path yet. */
  predicate IsTargetWorkbook(wb: Workbook, name: string) {
    wb.name == name && StartsWith(Lower(wb.name), "book") && wb.path == ""
  }

  /** A workbook whose properties can be read and that is the target. */
  predicate IsTargetRead(b: BookRead, name: string) {
    b.Readable? && IsTargetWorkbook(b.book, name)
  }

  /** The first readable workbook that is the target; workbooks whose properties raise are skipped. */
  function FirstTarget(books: seq<BookRead>, name: string): (r: Option<Workbook>)
    ensures r.Some? ==> IsTargetWorkbook(r.value, name)
    ensures r.Some? ==> exists i :: 0 <= i < |books| && books[i] == Readable(r.value)
                                 && forall j :: 0 <= j < i ==> !IsTargetRead(books[j], name)
    ensures r.None? <==> forall i :: 0 <= i < |books| ==> !IsTargetRead(books[i], name)
  {
    match FirstIndex(books, (b: BookRead) => IsTargetRead(b, name))
    case None => None
    case Some(i) => Some(books[i].book)
  }

  method FindTargetWorkbook(books: seq<BookRead>, name: string) returns (target: Option<Workbook>)
    ensures target == FirstTarget(books, name)
  {
    target := None;
    var i := 0;
    while i < |books|
      invariant 0 <= i <= |books|
      invariant forall j :: 0 <= j < i ==> !IsTargetRead(books[j], name)
    {
      match books[i] {
        case Unreadable =>
        case Readable(wb) =>
          if wb.name == name && StartsWith(Lower(wb.name), "book") && wb.path == "" {
            target := Some(wb);
            FirstIndexIs(books, (b: BookRead) => IsTargetRead(b, name), i);
            break;
          }
      }
      i := i + 1;
    }
  }

  // ---------------------------------------------------------------- transform

  /** What the transform finds: both tables when they load, and how many file steps succeed before one raises. */
  datatype TransformInput = TransformInput(tables: Option<Tables>, ioSteps: nat)

  datatype TransformResult = TransformResult(ok: bool, paths: seq<Path>, effects: seq<Event>)

  function ReportPathsV2(ts: string): seq<Path> {
    [JoinPath(ProcessedFolder, "processed_" + ts + "_id.xlsx"),
     JoinPath(ProcessedFolder, "processed_" + ts + "_brand.xlsx"),
     JoinPath(ProcessedFolder, "processed_" + ts + "_brcat.xlsx")]
  }

  /** The three reports of the pipeline: per Item ID, per Brand, per "Brand : Category". */
  function ReportsV2(t: Tables): (r: seq<Report>)
    ensures |r| == 3
  {
    var df := LeftJoin(t.captured, t.brandMap);
    [ProfitReport(df, ItemIdKey), ProfitReport(df, BrandKey), ProfitReport(WithCategory(df), BrandCategoryKey)]
  }

  /** The file steps of a transform: the three writes, then opening each report. */
  function ReportSteps(paths: seq<Path>, reports: seq<Report>): (r: seq<Event>)
    requires |paths| == 3 && |reports| == 3
    ensures |r| == 6
  {
    WriteThenOpen(paths, reports, (p, rep) => WriteReport(p, rep), p => OpenFile(p))
  }

  /**
   * The transform succeeds only when both tables load and all six file steps
   * succeed; then it has written the three reports of the loaded tables and
   * returns their paths. Any failure returns no path, after the steps that
   * did succeed; a table that does not load stops it before any file step.
   */
  function TransformV2(input: TransformInput, ts: string): (r: TransformResult)
    ensures r.ok <==> input.tables.Some? && input.ioSteps >= 6
    ensures r.ok ==> r.paths == ReportPathsV2(ts)
    ensures r.ok ==> r.effects == ReportSteps(ReportPathsV2(ts), ReportsV2(input.tables.value))
    ensures !r.ok ==> r.paths == [] && |r.effects| < 6
    ensures input.tables.None? ==> r.effects == []
    ensures input.tables.Some? && !r.ok ==> r.effects == ReportSteps(ReportPathsV2(ts), ReportsV2(input.tables.value))[..input.ioSteps]
    ensures forall e :: e in r.effects ==> e.WriteReport? || e.OpenFile?
  {
    if input.tables.None? then TransformResult(false, [], [])
    else
      var steps := ReportSteps(ReportPathsV2(ts), ReportsV2(input.tables.value));
      if input.ioSteps < 6 then TransformResult(false, [], steps[..input.ioSteps])
      else TransformResult(true, ReportPathsV2(ts), steps)
  }

  /** The brand-category report is built only from the joined rows that have a CATEGORY. */
  lemma BrandCategoryReportKeys(t: Tables, k: string)
    ensures var df := LeftJoin(t.captured, t.brandMap);
      k in ReportKeys(Rows(ReportsV2(t)[2])) <==> exists row :: row in df && row.category.Some? && BrandCategoryLabel(row) == k
  {
    var df := LeftJoin(t.captured, t.brandMap);
    assert Rows(ReportsV2(t)[2]) == GroupSum(WithCategory(df), BrandCategoryKey);
    CategoryReportKeys(df, k);
  }

  // ---------------------------------------------------------------- save and process

  /** What the host answers while the target is saved and transformed. */
  datatype SaveStage = SaveStage(saveAsOk: bool, fsAfterSave: FileSystem, transform: TransformInput, reportTs: string)

  function SavePathV2(ts: string): Path {
    JoinPath(SaveFolder, "Captured_" + ts + ".xlsx")
  }

  /** The saved copy exists and is not empty, and the transform over it succeeds. */
  predicate SaveSucceeds(ts: string, stage: SaveStage) {
    stage.saveAsOk && IsNonEmptyFile(stage.fsAfterSave, SavePathV2(ts)) && TransformV2(stage.transform, stage.reportTs).ok
  }

  /** The events of saving and processing the target, as far as they get. */
  function SaveEvents(name: string, pid: Pid, ts: string, stage: SaveStage): seq<Event> {
    var p := SavePathV2(ts);
    if !stage.saveAsOk then [SaveAs(p)]
    else if !IsNonEmptyFile(stage.fsAfterSave, p) then [SaveAs(p), CloseWorkbook(name)]
    else
      var t := TransformV2(stage.transform, stage.reportTs);
      [SaveAs(p), CloseWorkbook(name), RunTransform(p)] + t.effects + (if t.ok then [Kill(pid), RemoveFile(p)] else [])
  }

  /**
   * The save comes first; the transform runs only over a saved, non-empty copy;
   * the instance is killed and the copy removed only after the transform
   * succeeded; no sibling is terminated and no census runs here.
   */
  lemma SaveEventsOrder(name: string, pid: Pid, ts: string, stage: SaveStage)
    ensures var trace := SaveEvents(name, pid, ts, stage);
      trace != [] && trace[0] == SaveAs(SavePathV2(ts))
      && (RunTransform(SavePathV2(ts)) in trace <==> stage.saveAsOk && IsNonEmptyFile(stage.fsAfterSave, SavePathV2(ts)))
      && (Kill(pid) in trace <==> SaveSucceeds(ts, stage))
      && (RemoveFile(SavePathV2(ts)) in trace <==> SaveSucceeds(ts, stage))
      && forall e :: e in trace ==> !e.Terminate? && !e.CensusScan?
  {
    var p := SavePathV2(ts);
    if stage.saveAsOk && IsNonEmptyFile(stage.fsAfterSave, p) {
      var t := TransformV2(stage.transform, stage.reportTs);
      var trace := SaveEvents(name, pid, ts, stage);
      var tail := if t.ok then [Kill(pid), RemoveFile(p)] else [];
      assert trace == [SaveAs(p), CloseWorkbook(name), RunTransform(p)] + t.effects + tail;
      forall e | e in trace ensures (e in tail <==> e.Kill? || e.RemoveFile?) && !e.Terminate? && !e.CensusScan? {
        if e !in tail {
          assert e in [SaveAs(p), CloseWorkbook(name), RunTransform(p)] || e in t.effects;
        }
      }
    }
  }

  method SaveAndProcessWorkbook(wb: Workbook, pid: Pid, ts: string, stage: SaveStage)
    returns (success: bool, reports: seq<Path>, added: Option<(string, Pid)>, trace: seq<Event>)
    ensures success == SaveSucceeds(ts, stage)
    ensures success ==> reports == ReportPathsV2(stage.reportTs)
    ensures success ==> added == (if wb.name != "" then Some((wb.name, pid)) else None)
    ensures !success ==> reports == [] && added == None
    ensures trace == SaveEvents(wb.name, pid, ts, stage)
  {
    var savePath := JoinPath(SaveFolder, "Captured_" + ts + ".xlsx");
    success, reports, added := false, [], None;
    trace := [SaveAs(savePath)];
    if !stage.saveAsOk {
      return;
    }
    trace := trace + [CloseWorkbook(wb.name)];
    if !(savePath in stage.fsAfterSave && stage.fsAfterSave[savePath] > 0) {
      return;
    }
    var tail;
    success, reports, added, tail := TransformAndFinish(wb, pid, savePath, stage);
    trace := trace + tail;
  }

  /** The part after a good save: the transform, then the kill and the removal of the copy when it succeeded. */
  method TransformAndFinish(wb: Workbook, pid: Pid, savePath: Path, stage: SaveStage)
    returns (success: bool, reports: seq<Path>, added: Option<(string, Pid)>, trace: seq<Event>)
    ensures var t := TransformV2(stage.transform, stage.reportTs);
      && success == t.ok
      && (success ==> reports == ReportPathsV2(stage.reportTs))
      && (success ==> added == (if wb.name != "" then Some((wb.name, pid)) else None))
      && (!success ==> reports == [] && added == None)
      && trace == [RunTransform(savePath)] + t.effects + (if t.ok then [Kill(pid), RemoveFile(savePath)] else [])
  {
    reports, added := [], None;
    var t := TransformV2(stage.transform, stage.reportTs);
    trace := [RunTransform(savePath)] + t.effects;
    if !t.ok {
      return false, reports, added, trace;
    }
    trace := trace + [Kill(pid)];
    if wb.name != "" {
      added := Some((wb.name, pid));
    }
    trace := trace + [RemoveFile(savePath)];
    return true, t.paths, added, trace;
  }

  predicate ProcessSucceeds(name: string, com: Option<seq<BookRead>>, ts: string, stage: SaveStage) {
    com.Some? && FirstTarget(com.value, name).Some? && SaveSucceeds(ts, stage)
  }

  /** Attaches to the remaining instance (`com` is `None` when that raises) and processes its target workbook. */
  method ProcessTargetWorkbook(pid: Pid, name: string, com: Option<seq<BookRead>>, ts: string, stage: SaveStage)
    returns (success: bool, reports: seq<Path>, added: Option<(string, Pid)>, trace: seq<Event>)
    ensures success == ProcessSucceeds(name, com, ts, stage)
    ensures !success ==> reports == [] && added == None
    ensures success ==> reports == ReportPathsV2(stage.reportTs)
    ensures success && name != "" ==> added == Some((name, pid))
    ensures trace == (if com.Some? && FirstTarget(com.value, name).Some? then SaveEvents(name, pid, ts, stage) else [])
    ensures forall e :: e in trace ==> !e.Terminate? && !e.CensusScan?
  {
    if com.None? {
      return false, [], None, [];
    }
    var target := FindTargetWorkbook(com.value, name);
    if target.None? {
      return false, [], None, [];
    }
    success, reports, added, trace := SaveAndProcessWorkbook(target.value, pid, ts, stage);
    SaveEventsOrder(target.value.name, pid, ts, stage);
    if !success {
      reports, added := [], None;
    }
  }

  // ---------------------------------------------------------------- the watch cycle

  /** The workbook name of a title: the text before the first " - ", or the whole title. */
  function WorkbookName(title: string): string {
    Before(title, " - ")
  }

  /** The key the watcher checks and records. */
  function WindowKey(w: Window): (string, Pid) {
    (WorkbookName(w.title), w.pid)
  }

  /** The name derived from an unsaved window's title starts with "book" too, so it is never empty. */
  lemma WorkbookNameStartsWithBook(title: string)
    requires StartsWith(Lower(title), "book")
    ensures StartsWith(Lower(WorkbookName(title)), "book")
  {
    var r := WorkbookName(title);
    assert |r| >= 4 by {
      if Contains(title, " - ") {
        assert title[|r|] == ' ';
        forall k | 0 <= k < 4 ensures title[k] != ' ' {
          assert Lower(title)[k] == "book"[k];
        }
      }
    }
    forall k | 0 <= k < 4 ensures Lower(r)[k] == Lower(title)[k] {
      assert r[k] == title[k];
    }
  }

  lemma WorkbookNameNonEmpty(title: string)
    requires StartsWith(Lower(title), "book")
    ensures WorkbookName(title) != ""
  {
    WorkbookNameStartsWithBook(title);
  }

  predicate IsNewWindow(w: Window, processed: set<(string, Pid)>) {
    WindowKey(w) !in processed
  }

  /** The first candidate window whose key is not processed yet. */
  function FirstNewKey(cands: seq<Window>, processed: set<(string, Pid)>): (r: Option<(string, Pid)>)
    ensures r.Some? ==> r.value !in processed
    ensures r.Some? ==> exists i :: 0 <= i < |cands| && WindowKey(cands[i]) == r.value
    ensures r.None? <==> forall i :: 0 <= i < |cands| ==> WindowKey(cands[i]) in processed
  {
    match FirstIndex(cands, (w: Window) => IsNewWindow(w, processed))
    case None => None
    case Some(i) => Some(WindowKey(cands[i]))
  }

  /** The position of the first candidate whose key is not processed yet, or `|cands|`. */
  method FindNewWindow(cands: seq<Window>, processed: set<(string, Pid)>) returns (i: nat)
    ensures i <= |cands|
    ensures i < |cands| ==> FirstNewKey(cands, processed) == Some(WindowKey(cands[i]))
    ensures i == |cands| ==> FirstNewKey(cands, processed) == None
  {
    i := 0;
    while i < |cands| && (WorkbookName(cands[i].title), cands[i].pid) in processed
      invariant 0 <= i <= |cands|
      invariant forall j :: 0 <= j < i ==> !IsNewWindow(cands[j], processed)
    {
      i := i + 1;
    }
    if i < |cands| {
      FirstIndexIs(cands, (w: Window) => IsNewWindow(w, processed), i);
    }
  }

  /** Everything the host answers during one watch cycle. */
  datatype CycleHost = CycleHost(
    procsAtCensus: seq<Process>, censusPasses: seq<CensusPass>,
    procsAtClose: seq<Process>, terminateFails: set<Pid>,
    com: Option<seq<BookRead>>, saveTs: string, stage: SaveStage,
    fsAtRestore: FileSystem, openFails: set<Path>)

  /** The files recorded before the siblings of `pid` are terminated. */
  function CycleFiles(pid: Pid, host: CycleHost): seq<Path> {
    Census(host.censusPasses, CensusAttempts(|OtherPids(pid, host.procsAtCensus)|))
  }

  /**
   * A cycle's events: the isolation events (census passes, then terminate
   * requests), then the events of processing the target when it is found,
   * then the restore's open requests for every recorded file that still exists.
   */
  function CycleEvents(pid: Pid, name: string, host: CycleHost): seq<Event> {
    IsolationTrace(pid, host.procsAtCensus, host.procsAtClose)
    + (if host.com.Some? && FirstTarget(host.com.value, name).Some? then SaveEvents(name, pid, host.saveTs, host.stage) else [])
    + OpenEvents(CycleFiles(pid, host), host.fsAtRestore)
  }

  /**
   * Over a whole cycle: isolation comes first and only isolation censuses or
   * terminates; the target is never terminated; the transform runs exactly
   * when the target was found and saved to a non-empty copy; the target
   * instance is killed exactly when the cycle succeeds; nothing follows the
   * restore's open requests.
   */
  lemma CycleEventsOrder(pid: Pid, name: string, host: CycleHost)
    ensures var t, n := CycleEvents(pid, name, host), |IsolationTrace(pid, host.procsAtCensus, host.procsAtClose)|;
      && Terminate(pid) !in t
      && (forall i :: 0 <= i < |t| ==> (i < n <==> t[i].CensusScan? || t[i].Terminate?))
      && (RunTransform(SavePathV2(host.saveTs)) in t <==>
            host.com.Some? && FirstTarget(host.com.value, name).Some?
            && host.stage.saveAsOk && IsNonEmptyFile(host.stage.fsAfterSave, SavePathV2(host.saveTs)))
      && (Kill(pid) in t <==> ProcessSucceeds(name, host.com, host.saveTs, host.stage))
      && t[|t| - |OpenEvents(CycleFiles(pid, host), host.fsAtRestore)|..] == OpenEvents(CycleFiles(pid, host), host.fsAtRestore)
  {
    var iso := IsolationTrace(pid, host.procsAtCensus, host.procsAtClose);
    var found := host.com.Some? && FirstTarget(host.com.value, name).Some?;
    var mid := if found then SaveEvents(name, pid, host.saveTs, host.stage) else [];
    var restore := OpenEvents(CycleFiles(pid, host), host.fsAtRestore);
    IsolationSparesTarget(pid, host.procsAtCensus, host.procsAtClose, {});
    IsolationEventKinds(pid, host.procsAtCensus, host.procsAtClose);
    if found {
      SaveEventsOrder(name, pid, host.saveTs, host.stage);
    }
    PhasesKeepApart(iso, mid, restore);
  }

  /** How the three phases of a cycle sit in its trace, given what each phase may emit. */
  lemma PhasesKeepApart(iso: seq<Event>, mid: seq<Event>, restore: seq<Event>)
    requires forall e :: e in iso ==> e.CensusScan? || e.Terminate?
    requires forall e :: e in mid ==> !e.CensusScan? && !e.Terminate?
    requires forall e :: e in restore ==> e.OpenFile?
    ensures var t := iso + mid + restore;
      && (forall i :: 0 <= i < |t| ==> (i < |iso| <==> t[i].CensusScan? || t[i].Terminate?))
      && (forall e :: e in t && (e.RunTransform? || e.Kill?) ==> e in mid)
      && t[|t| - |restore|..] == restore
  {
    var t := iso + mid + restore;
    forall i | 0 <= i < |t| ensures (i < |iso| <==> t[i].CensusScan? || t[i].Terminate?) {
      if i >= |iso| + |mid| {
        assert t[i] == restore[i - |iso| - |mid|] && restore[i - |iso| - |mid|] in restore;
      } else if i >= |iso| {
        assert t[i] == mid[i - |iso|] && mid[i - |iso|] in mid;
      } else {
        assert t[i] == iso[i] && iso[i] in iso;
      }
    }
    assert t[|t| - |restore|..] == restore;
  }

  /** The cycle for one new window: isolation, processing, and a restore that runs whatever processing did. */
  method RunCycle(pid: Pid, name: string, host: CycleHost)
    returns (success: bool, added: Option<(string, Pid)>, trace: seq<Event>)
    ensures success == ProcessSucceeds(name, host.com, host.saveTs, host.stage)
    ensures success && name != "" ==> added == Some((name, pid))
    ensures !success ==> added == None
    ensures trace == CycleEvents(pid, name, host)
  {
    var closed, files, isoTrace := CloseOtherExcelProcesses(pid, host.procsAtCensus, host.censusPasses,
                                                                 host.procsAtClose, host.terminateFails);
    var reports, processTrace;
    success, reports, added, processTrace := ProcessTargetWorkbook(pid, name, host.com, host.saveTs, host.stage);
    var openedCount, failed, restoreTrace := RestoreExcelFiles(files, host.fsAtRestore, host.openFails);
    trace := isoTrace + processTrace + restoreTrace;
  }

  /** The watcher and its record of processed `(workbook name, pid)` keys. */
  class Watcher {
    var processed: set<(string, Pid)>

    constructor ()
      ensures processed == {}
    {
      processed := {};
    }

    /**
     * One iteration of the watch loop: handles the first unsaved window whose
     * key is new, running isolation, then processing, then a restore that runs
     * whatever processing did. At most one workbook is handled per poll.
     */
    method Poll(windows: seq<Window>, host: CycleHost)
      returns (handled: Option<(string, Pid)>, success: bool, trace: seq<Event>)
      modifies this
      ensures handled == FirstNewKey(Filter(windows, IsUnsavedWindow), old(processed))
      ensures handled.None? ==> !success && trace == [] && processed == old(processed)
      ensures handled.Some? ==> success == ProcessSucceeds(handled.value.0, host.com, host.saveTs, host.stage)
      ensures handled.Some? ==> processed == old(processed) + (if success then {handled.value} else {})
      ensures handled.Some? ==> trace == CycleEvents(handled.value.1, handled.value.0, host)
    {
      var found := FindUnsavedExcelWindows(windows);
      handled, success, trace := None, false, [];
      var i := FindNewWindow(found, processed);
      if i < |found| {
        var w := found[i];
        var name := WorkbookName(w.title);
        handled := Some((name, w.pid));
        assert w in found;
        WorkbookNameNonEmpty(w.title);
        var added;
        success, added, trace := RunCycle(w.pid, name, host);
        if added.Some? {
          processed := processed + {added.value};
        }
      }
    }

    /**
     * The `while True` loop over a finite run of rounds, one poll each: the
     * keys handled, the successes and the final set are those of Watched. No
     * key handled successfully is handled in a later round, and the set ends
     * up grown by exactly the keys handled successfully.
     */
    method Watch(rounds: seq<Round>)
      returns (handled: seq<Option<(string, Pid)>>, successes: seq<bool>)
      modifies this
      ensures |handled| == |rounds|
      ensures WatchRun(handled, successes, processed) == Watched(rounds, old(processed))
      ensures WatchKeeps(old(processed), processed, handled, successes)
    {
      handled, successes := [], [];
      var k := 0;
      while k < |rounds|
        invariant 0 <= k <= |rounds| && |handled| == k
        invariant WatchRun(handled, successes, processed) == Watched(rounds[..k], old(processed))
      {
        assert rounds[..k + 1][..k] == rounds[..k];
        assert Watched(rounds[..k + 1], old(processed)) == PollRound(WatchRun(handled, successes, processed), rounds[k]);
        var h, ok, _ := Poll(rounds[k].windows, rounds[k].host);
        handled, successes := handled + [h], successes + [ok];
        k := k + 1;
      }
      assert rounds[..k] == rounds;
      WatchedKeeps(rounds, old(processed));
    }
  }

  /** One round of the watch loop: the windows listed and what the host answers to the cycle. */
  datatype Round = Round(windows: seq<Window>, host: CycleHost)

  /** The keys handled in a poll that succeeded. */
  function Won(handled: seq<Option<(string, Pid)>>, successes: seq<bool>): set<(string, Pid)>
    requires |handled| == |successes|
  {
    set i | 0 <= i < |handled| && successes[i] && handled[i].Some? :: handled[i].value
  }

  lemma WonSnoc(handled: seq<Option<(string, Pid)>>, successes: seq<bool>, h: Option<(string, Pid)>, ok: bool)
    requires |handled| == |successes|
    ensures Won(handled + [h], successes + [ok]) == Won(handled, successes) + (if ok && h.Some? then {h.value} else {})
  {
    var hs, ss := handled + [h], successes + [ok];
    assert forall i :: 0 <= i < |handled| ==> hs[i] == handled[i] && ss[i] == successes[i];
    assert hs[|handled|] == h && ss[|handled|] == ok;
  }

  /** The handled keys, the successes and the set after a run of polls. */
  datatype WatchRun = WatchRun(handled: seq<Option<(string, Pid)>>, successes: seq<bool>, processed: set<(string, Pid)>)

  /**
   * The reference run of the watch loop from the set `processed`: each round
   * handles the first unsaved window whose key is new to the set left by the
   * rounds before it, succeeds exactly when processing that workbook
   * succeeds, and adds the key on success.
   */
  function Watched(rounds: seq<Round>, processed: set<(string, Pid)>): (r: WatchRun)
    ensures |r.handled| == |rounds| && |r.successes| == |rounds|
    decreases |rounds|
  {
    if |rounds| == 0 then WatchRun([], [], processed)
    else
      PollRound(Watched(rounds[..|rounds| - 1], processed), rounds[|rounds| - 1])
  }

  /** One more round of the reference run. */
  function PollRound(prev: WatchRun, round: Round): (r: WatchRun)
    ensures |r.handled| == |prev.handled| + 1 && |r.successes| == |prev.successes| + 1
  {
    var h := FirstNewKey(Filter(round.windows, IsUnsavedWindow), prev.processed);
    var ok := h.Some? && ProcessSucceeds(h.value.0, round.host.com, round.host.saveTs, round.host.stage);
    WatchRun(prev.handled + [h], prev.successes + [ok], prev.processed + (if ok then {h.value} else {}))
  }

  /** The reference run keeps the watch invariant: handled keys are new, and a success is never handled again. */
  lemma {:induction false} WatchedKeeps(rounds: seq<Round>, processed: set<(string, Pid)>)
    ensures var r := Watched(rounds, processed);
      WatchKeeps(processed, r.processed, r.handled, r.successes)
    decreases |rounds|
  {
    if |rounds| == 0 {
      assert Won([], []) == {};
    } else {
      var q := rounds[..|rounds| - 1];
      var prev := Watched(q, processed);
      var round := rounds[|rounds| - 1];
      var h := FirstNewKey(Filter(round.windows, IsUnsavedWindow), prev.processed);
      var ok := h.Some? && ProcessSucceeds(h.value.0, round.host.com, round.host.saveTs, round.host.stage);
      WatchedKeeps(q, processed);
      WatchStep(processed, prev.processed, prev.processed + (if ok then {h.value} else {}), prev.handled, prev.successes, h, ok);
    }
  }

  /**
   * What a run of polls keeps, from the set `base` it started with to the set
   * `now`: every handled key was new, every success handled one, no key handled
   * successfully is handled again, and the set grew by exactly those keys.
   */
  predicate WatchKeeps(base: set<(string, Pid)>, now: set<(string, Pid)>,
                       handled: seq<Option<(string, Pid)>>, successes: seq<bool>) {
    && |handled| == |successes|
    && (forall i :: 0 <= i < |handled| && handled[i].Some? ==> handled[i].value !in base)
    && (forall i :: 0 <= i < |handled| && successes[i] ==> handled[i].Some?)
    && (forall i, j :: 0 <= i < j < |handled| && successes[i] ==> handled[j] != handled[i])
    && now == base + Won(handled, successes)
  }

  /** One more poll, which handled `h` (new with respect to `before`) and added it on success, keeps WatchKeeps. */
  lemma WatchStep(base: set<(string, Pid)>, before: set<(string, Pid)>, after: set<(string, Pid)>,
                  handled: seq<Option<(string, Pid)>>, successes: seq<bool>, h: Option<(string, Pid)>, ok: bool)
    requires WatchKeeps(base, before, handled, successes)
    requires h.Some? ==> h.value !in before
    requires ok ==> h.Some?
    requires after == before + (if ok then {h.value} else {})
    ensures WatchKeeps(base, after, handled + [h], successes + [ok])
  {
    WonSnoc(handled, successes, h, ok);
    var hs, ss := handled + [h], successes + [ok];
    var k := |handled|;
    assert forall i :: 0 <= i < k ==> hs[i] == handled[i] && ss[i] == successes[i];
    forall i | 0 <= i < k && ss[i]
      ensures hs[k] != hs[i]
    {
      assert handled[i].value in Won(handled, successes);
    }
  }

  /**
   * Two successive polls: a key the first poll handled successfully, which
   * adds it to the set, is not handled by the second, whatever windows it sees.
   */
  lemma HandledKeyIsNotRepeated(first: seq<Window>, second: seq<Window>, processed: set<(string, Pid)>)
    requires FirstNewKey(Filter(first, IsUnsavedWindow), processed).Some?
    ensures var key := FirstNewKey(Filter(first, IsUnsavedWindow), processed).value;
      FirstNewKey(Filter(second, IsUnsavedWindow), processed + {key}) != Some(key)
  {
  }
}
