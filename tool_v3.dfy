/**
 * The hwnd-keyed watcher (accountingToolv3.py): every pass over the top-level
 * windows saves each unsaved "Book…" workbook shown in an Excel main window,
 * closes it, turns the saved copy into three profit reports and removes the
 * copy; the window handle is then recorded so that it is never captured again.
 */
module ToolV3 {
  import opened Wrappers
  import opened Seqs
  import opened Strings
  import opened Host
  import opened Reports

  const CaptureDir: Path := "C:\\Users\\sasuk\\Documents\\CapturedExports"
  const ProcessedDir: Path := "C:\\Users\\sasuk\\Documents\\ProcessedExports"

  // ---------------------------------------------------------------- transform

  /** `PROCESSED_DIR/{key}_{ts}.xlsx`. */
  function ReportPath(key: string, ts: string): Path {
    JoinPath(ProcessedDir, key + "_" + ts + ".xlsx")
  }

  /** The report keys, in the order the reports are written. */
  const ReportKeysV3: seq<string> := ["by_account", "by_brand", "by_brcat"]

  /** The three reports of one captured sheet, each with the path it is written to. */
  function ReportFiles(t: Tables, ts: string): seq<(Path, Report)> {
    var df := LeftJoin(t.captured, t.brandMap);
    [(ReportPath(ReportKeysV3[0], ts), ProfitReport(df, AccountNameKey)),
     (ReportPath(ReportKeysV3[1], ts), ProfitReport(df, BrandKey)),
     (ReportPath(ReportKeysV3[2], ts), ProfitReport(WithCategory(df), BrandCategoryKey))]
  }

  /** The three report paths share the one time stamp and differ from each other. */
  lemma ReportPathsDistinct(ts: string)
    ensures ReportPath(ReportKeysV3[0], ts) != ReportPath(ReportKeysV3[1], ts)
    ensures ReportPath(ReportKeysV3[0], ts) != ReportPath(ReportKeysV3[2], ts)
    ensures ReportPath(ReportKeysV3[1], ts) != ReportPath(ReportKeysV3[2], ts)
  {
    var acc, br, brcat := ReportKeysV3[0] + "_" + ts + ".xlsx", ReportKeysV3[1] + "_" + ts + ".xlsx",
                          ReportKeysV3[2] + "_" + ts + ".xlsx";
    assert acc != br && acc != brcat by {
      assert acc[3] == 'a' && br[3] == 'b' && brcat[3] == 'b';
    }
    assert br != brcat by {
      assert br[5] == 'a' && brcat[5] == 'c';
    }
    if JoinPath(ProcessedDir, acc) == JoinPath(ProcessedDir, br) {
      JoinPathInjective(ProcessedDir, acc, br);
    }
    if JoinPath(ProcessedDir, acc) == JoinPath(ProcessedDir, brcat) {
      JoinPathInjective(ProcessedDir, acc, brcat);
    }
    if JoinPath(ProcessedDir, br) == JoinPath(ProcessedDir, brcat) {
      JoinPathInjective(ProcessedDir, br, brcat);
    }
  }

  /**
   * The reports are grouped by Account Name, by Brand and by the label of
   * exactly the joined rows that have a CATEGORY, and are written under the
   * keys "by_account", "by_brand" and "by_brcat" with the one time stamp.
   */
  lemma ReportFilesShape(t: Tables, ts: string, k: string)
    ensures var df, files := LeftJoin(t.captured, t.brandMap), ReportFiles(t, ts);
      && |files| == 3
      && files[0].0 == ReportPath("by_account", ts)
      && files[1].0 == ReportPath("by_brand", ts)
      && files[2].0 == ReportPath("by_brcat", ts)
      && files[0].1 == ProfitReport(df, AccountNameKey)
      && files[1].1 == ProfitReport(df, BrandKey)
      && files[2].1 == ProfitReport(WithCategory(df), BrandCategoryKey)
      && (k in ReportKeys(Rows(files[2].1)) <==> exists row :: row in df && row.category.Some? && BrandCategoryLabel(row) == k)
  {
    CategoryReportKeys(LeftJoin(t.captured, t.brandMap), k);
  }

  /** A report written by the transform. */
  datatype Write = WriteReport(path: Path, report: Report)

  /** The transform's clock reading, both tables when they load, and how many report writes succeed before one raises. */
  datatype TransformHostV3 = TransformHostV3(tables: Option<Tables>, ts: string, writesOk: nat)

  datatype TransformRun = TransformRun(ok: bool, writes: seq<Write>)

  /** The transform loads both tables and every report write succeeds. */
  predicate TransformSucceeds(h: TransformHostV3) {
    h.tables.Some? && h.writesOk >= 3
  }

  function WriteOf(f: (Path, Report)): Write {
    WriteReport(f.0, f.1)
  }

  /** The writes the transform performs: none when a table does not load, else the reports in order up to the first that raises. */
  function TransformWrites(h: TransformHostV3): TransformRun {
    match h.tables
    case None => TransformRun(false, [])
    case Some(t) =>
      var all := Map(ReportFiles(t, h.ts), WriteOf);
      if h.writesOk < 3 then TransformRun(false, all[..h.writesOk]) else TransformRun(true, all)
  }

  /**
   * `transform`: load both tables, build the three reports and write each
   * under the one time stamp; an exception anywhere propagates to the caller
   * after the writes that succeeded.
   */
  method Transform(h: TransformHostV3) returns (r: TransformRun)
    ensures r == TransformWrites(h)
    ensures r.ok <==> TransformSucceeds(h)
  {
    if h.tables.None? {
      return TransformRun(false, []);
    }
    var files := ReportFiles(h.tables.value, h.ts);
    ghost var all := Map(files, WriteOf);
    var written := [];
    for i := 0 to |files|
      invariant i <= h.writesOk
      invariant written == all[..i]
    {
      if i >= h.writesOk {
        return TransformRun(false, written);
      }
      written := written + [WriteReport(files[i].0, files[i].1)];
    }
    assert all[..|files|] == all;
    return TransformRun(true, written);
  }

  // ---------------------------------------------------------------- one window

  /** The active workbook as `app.ActiveWorkbook` reports it: reading it raises, there is none, or its Path. */
  datatype ActiveBook = ActiveRaised | NoWorkbook | ActiveBook(path: string)

  /** What `app_from_hwnd` gives: no Excel object model, or the application with its active workbook. */
  datatype AppAnswer = NoApp | App(active: ActiveBook)

  /** What the host answers while one window is visited. */
  datatype WindowHost = WindowHost(
    app: AppAnswer, ts: string, saveAsOk: bool, closeOk: bool, transform: TransformHostV3, removeOk: bool)

  /** One window of the enumeration, with the host's answers for it. */
  datatype Enumerated = Enumerated(w: Window, host: WindowHost)

  /** What a capture does to the world, in the order it happens. */
  datatype Action = SaveAs(path: Path) | CloseBook | Transformed(path: Path) | RemoveFile(path: Path)

  /** An action done on behalf of the window `hwnd`. */
  datatype Step = Step(hwnd: Hwnd, action: Action)

  datatype VisitResult = VisitResult(steps: seq<Step>, added: bool, raised: bool)

  function CapturePathV3(ts: string): Path {
    JoinPath(CaptureDir, "Captured_" + ts + ".xlsx")
  }

  /** An Excel main window whose lowercased title starts with "book". */
  predicate IsWatchedWindow(w: Window) {
    w.className == ExcelWindowClass && StartsWith(Lower(w.title), "book")
  }

  /** The window exposes Excel's object model and its active workbook has never been saved. */
  predicate HasBlankActive(h: WindowHost) {
    h.app.App? && h.app.active.ActiveBook? && h.app.active.path == ""
  }

  /** Every step of the `try` block succeeds: save, close, transform, removal of the saved copy. */
  predicate CaptureCompletes(h: WindowHost) {
    h.saveAsOk && h.closeOk && TransformSucceeds(h.transform) && h.removeOk
  }

  /** A window the watcher captures in full when it meets it unprocessed. */
  predicate FullSuccess(e: Enumerated) {
    IsWatchedWindow(e.w) && HasBlankActive(e.host) && CaptureCompletes(e.host)
  }

  /** How many of the four steps of the `try` block succeed before one raises. */
  function CaptureProgress(h: WindowHost): (n: nat)
    ensures n <= 4 && (n == 4 <==> CaptureCompletes(h))
  {
    if !h.saveAsOk then 0
    else if !h.closeOk then 1
    else if !TransformSucceeds(h.transform) then 2
    else if !h.removeOk then 3
    else 4
  }

  /** The `try` block for one window: the steps that took place, and whether the handle is recorded. */
  function CaptureSteps(hwnd: Hwnd, h: WindowHost): VisitResult {
    var p := CapturePathV3(h.ts);
    var all := [Step(hwnd, SaveAs(p)), Step(hwnd, CloseBook), Step(hwnd, Transformed(p)), Step(hwnd, RemoveFile(p))];
    var n := CaptureProgress(h);
    VisitResult(all[..n], n == 4, false)
  }

  /** What the enumeration callback does with one window, given the handles already processed. */
  function Visit(processed: set<Hwnd>, e: Enumerated): VisitResult {
    var skip := VisitResult([], false, false);
    if e.w.className != ExcelWindowClass || e.w.hwnd in processed || !StartsWith(Lower(e.w.title), "book") then skip
    else match e.host.app
      case NoApp => skip
      case App(active) =>
        match active
        case ActiveRaised => VisitResult([], false, true)
        case NoWorkbook => skip
        case ActiveBook(path) => if path == "" then CaptureSteps(e.w.hwnd, e.host) else skip
  }

  /** The set of processed handles after a visit. */
  function After(processed: set<Hwnd>, e: Enumerated, v: VisitResult): set<Hwnd> {
    if v.added then processed + {e.w.hwnd} else processed
  }

  /** The capture saves first and removes the copy last; an incomplete one never removes it. */
  predicate WellOrdered(steps: seq<Step>, hwnd: Hwnd, h: WindowHost) {
    (forall k :: 0 <= k < |steps| ==> steps[k].hwnd == hwnd)
    && (steps != [] ==> steps[0].action == SaveAs(CapturePathV3(h.ts)))
    && (forall k :: 0 <= k < |steps| - 1 ==> !steps[k].action.RemoveFile?)
  }

  /**
   * The `try` block saves first, transforms only a closed copy and removes
   * the copy last; it reports the handle as done exactly when save, close,
   * transform and removal all succeed, and an incomplete capture never
   * removes the copy.
   */
  lemma CaptureStepsOutcome(hwnd: Hwnd, h: WindowHost)
    ensures var v, p := CaptureSteps(hwnd, h), CapturePathV3(h.ts);
      && WellOrdered(v.steps, hwnd, h)
      && !v.raised
      && (v.added <==> CaptureCompletes(h))
      && (v.added ==> v.steps[|v.steps| - 1].action == RemoveFile(p))
      && (!v.added ==> forall k :: 0 <= k < |v.steps| ==> !v.steps[k].action.RemoveFile?)
      && (Step(hwnd, Transformed(p)) in v.steps <==> h.saveAsOk && h.closeOk && TransformSucceeds(h.transform))
  {
    var v, p := CaptureSteps(hwnd, h), CapturePathV3(h.ts);
    if CaptureProgress(h) < 3 {
      assert forall k :: 0 <= k < |v.steps| ==> v.steps[k].action.SaveAs? || v.steps[k].action.CloseBook?;
    } else {
      assert v.steps[2] == Step(hwnd, Transformed(p));
    }
  }

  /**
   * A visit acts only on an unprocessed watched window whose active workbook
   * is blank, and records the handle exactly when that window's capture
   * completes; reading the active workbook is the one failure that raises out
   * of the callback.
   */
  lemma VisitOutcome(processed: set<Hwnd>, e: Enumerated)
    ensures var v := Visit(processed, e);
      && WellOrdered(v.steps, e.w.hwnd, e.host)
      && (v.steps != [] ==> IsWatchedWindow(e.w) && e.w.hwnd !in processed && HasBlankActive(e.host))
      && (v.added <==> e.w.hwnd !in processed && FullSuccess(e))
      && (v.added ==> v.steps[|v.steps| - 1].action == RemoveFile(CapturePathV3(e.host.ts)))
      && (!v.added ==> forall k :: 0 <= k < |v.steps| ==> !v.steps[k].action.RemoveFile?)
      && (v.raised <==> IsWatchedWindow(e.w) && e.w.hwnd !in processed && e.host.app == App(ActiveRaised))
      && (v.raised ==> v.steps == [] && !v.added)
  {
    CaptureStepsOutcome(e.w.hwnd, e.host);
  }

  // ---------------------------------------------------------------- passes

  datatype PassResult = PassResult(processed: set<Hwnd>, steps: seq<Step>, raised: bool)

  /** `steps` followed by the result `r`. */
  function Prepend(steps: seq<Step>, r: PassResult): PassResult {
    PassResult(r.processed, steps + r.steps, r.raised)
  }

  /**
   * One `EnumWindows` pass over the windows in enumeration order, threading the
   * processed set; an exception raised by the callback ends the pass.
   */
  function Pass(processed: set<Hwnd>, es: seq<Enumerated>): PassResult
    decreases |es|
  {
    if |es| == 0 then PassResult(processed, [], false)
    else
      var v := Visit(processed, es[0]);
      if v.raised then PassResult(processed, v.steps, true)
      else Prepend(v.steps, Pass(After(processed, es[0], v), es[1..]))
  }

  lemma PassUnfold(processed: set<Hwnd>, es: seq<Enumerated>, i: nat)
    requires i < |es|
    ensures var v := Visit(processed, es[i]);
      Pass(processed, es[i..])
      == if v.raised then PassResult(processed, v.steps, true) else Prepend(v.steps, Pass(After(processed, es[i], v), es[i + 1..]))
  {
    assert es[i..][0] == es[i] && es[i..][1..] == es[i + 1..];
  }

  lemma PrependTwice(a: seq<Step>, b: seq<Step>, r: PassResult)
    ensures Prepend(a, Prepend(b, r)) == Prepend(a + b, r)
  {
    assert a + (b + r.steps) == (a + b) + r.steps;
  }

  /** The processed set only grows. */
  lemma {:induction false} PassMonotone(processed: set<Hwnd>, es: seq<Enumerated>)
    ensures processed <= Pass(processed, es).processed
    decreases |es|
  {
    if |es| > 0 {
      var v := Visit(processed, es[0]);
      if !v.raised {
        PassMonotone(After(processed, es[0], v), es[1..]);
      }
    }
  }

  /** Every handle a pass records belongs to a window of the pass that was captured in full. */
  lemma {:induction false} PassAddsOnlyFullSuccess(processed: set<Hwnd>, es: seq<Enumerated>, h: Hwnd)
    requires h in Pass(processed, es).processed && h !in processed
    ensures exists i :: 0 <= i < |es| && es[i].w.hwnd == h && FullSuccess(es[i])
    decreases |es|
  {
    var v := Visit(processed, es[0]);
    VisitOutcome(processed, es[0]);
    var p' := After(processed, es[0], v);
    if h in p' {
      assert es[0].w.hwnd == h && FullSuccess(es[0]);
    } else {
      PassAddsOnlyFullSuccess(p', es[1..], h);
      var i :| 0 <= i < |es[1..]| && es[1..][i].w.hwnd == h && FullSuccess(es[1..][i]);
      assert es[i + 1] == es[1..][i];
    }
  }

  lemma VisitRecords(processed: set<Hwnd>, e: Enumerated)
    requires FullSuccess(e)
    ensures e.w.hwnd in After(processed, e, Visit(processed, e))
  {
    VisitOutcome(processed, e);
  }

  /** A pass that does not raise records every window it met that was captured in full (or already was). */
  lemma {:induction false} PassRecordsFullSuccess(processed: set<Hwnd>, es: seq<Enumerated>, i: nat)
    requires i < |es| && FullSuccess(es[i]) && !Pass(processed, es).raised
    ensures es[i].w.hwnd in Pass(processed, es).processed
    decreases |es|
  {
    var v := Visit(processed, es[0]);
    var p' := After(processed, es[0], v);
    assert !v.raised && Pass(processed, es) == Prepend(v.steps, Pass(p', es[1..]));
    if i == 0 {
      VisitRecords(processed, es[0]);
      PassMonotone(p', es[1..]);
    } else {
      assert es[1..][i - 1] == es[i];
      PassRecordsFullSuccess(p', es[1..], i - 1);
    }
  }

  /** A pass acts only for watched windows with a blank active workbook whose handle was not processed when it began. */
  lemma {:induction false} PassSkipsProcessed(processed: set<Hwnd>, es: seq<Enumerated>, k: nat)
    requires k < |Pass(processed, es).steps|
    ensures var s := Pass(processed, es).steps[k];
      && s.hwnd !in processed
      && exists i :: 0 <= i < |es| && es[i].w.hwnd == s.hwnd && IsWatchedWindow(es[i].w) && HasBlankActive(es[i].host)
    decreases |es|
  {
    var v := Visit(processed, es[0]);
    VisitOutcome(processed, es[0]);
    var p' := After(processed, es[0], v);
    if k >= |v.steps| {
      var rest := Pass(p', es[1..]);
      assert Pass(processed, es).steps[k] == rest.steps[k - |v.steps|];
      PassSkipsProcessed(p', es[1..], k - |v.steps|);
      var i :| 0 <= i < |es[1..]| && es[1..][i].w.hwnd == rest.steps[k - |v.steps|].hwnd
        && IsWatchedWindow(es[1..][i].w) && HasBlankActive(es[1..][i].host);
      assert es[i + 1] == es[1..][i];
    }
  }

  /** After the copy of a window was removed, no later step acts for that window again. */
  predicate NoStepAfterCapture(steps: seq<Step>) {
    forall k, k' :: 0 <= k < k' < |steps| && steps[k].action.RemoveFile? ==> steps[k'].hwnd != steps[k].hwnd
  }

  lemma NoStepAfterCaptureConcat(a: seq<Step>, b: seq<Step>, recorded: set<Hwnd>)
    requires NoStepAfterCapture(a) && NoStepAfterCapture(b)
    requires forall k :: 0 <= k < |a| && a[k].action.RemoveFile? ==> a[k].hwnd in recorded
    requires forall k :: 0 <= k < |b| ==> b[k].hwnd !in recorded
    ensures NoStepAfterCapture(a + b)
  {
    var c := a + b;
    forall k, k' | 0 <= k < k' < |c| && c[k].action.RemoveFile? ensures c[k'].hwnd != c[k].hwnd {
      if k' >= |a| {
        if k >= |a| {
          assert c[k] == b[k - |a|] && c[k'] == b[k' - |a|];
        } else {
          assert c[k] == a[k] && c[k'] == b[k' - |a|];
        }
      }
    }
  }

  /** Within a pass, a window whose copy was removed is left alone for the rest of the pass. */
  lemma {:induction false} PassCapturesOnce(processed: set<Hwnd>, es: seq<Enumerated>)
    ensures NoStepAfterCapture(Pass(processed, es).steps)
    ensures var r := Pass(processed, es);
      forall k :: 0 <= k < |r.steps| && r.steps[k].action.RemoveFile? ==> r.steps[k].hwnd in r.processed
    decreases |es|
  {
    if |es| > 0 {
      var v := Visit(processed, es[0]);
      VisitOutcome(processed, es[0]);
      if !v.raised {
        var p' := After(processed, es[0], v);
        var rest := Pass(p', es[1..]);
        PassCapturesOnce(p', es[1..]);
        PassMonotone(p', es[1..]);
        forall k | 0 <= k < |rest.steps| ensures rest.steps[k].hwnd !in p' {
          PassSkipsProcessed(p', es[1..], k);
        }
        NoStepAfterCaptureConcat(v.steps, rest.steps, p');
        var all := v.steps + rest.steps;
        forall k | 0 <= k < |all| && all[k].action.RemoveFile? ensures all[k].hwnd in rest.processed {
          if k >= |v.steps| {
            assert all[k] == rest.steps[k - |v.steps|];
          }
        }
      }
    }
  }

  // ---------------------------------------------------------------- the watcher

  /** The watch loop's record of the handles already captured. */
  class WatcherV3 {
    var processedHwnds: set<Hwnd>

    constructor ()
      ensures processedHwnds == {}
    {
      processedHwnds := {};
    }

    /**
     * The `try` block: save under a fresh name, close, transform, remove the
     * copy; any exception stops it. Also returns the reports the transform wrote.
     */
    static method CaptureWindow(hwnd: Hwnd, h: WindowHost) returns (v: VisitResult, written: seq<Write>)
      ensures v == CaptureSteps(hwnd, h)
      ensures written == if h.saveAsOk && h.closeOk then TransformWrites(h.transform).writes else []
    {
      var save := CapturePathV3(h.ts);
      var progress := 0;
      written := [];
      if h.saveAsOk {
        progress := 1;
        if h.closeOk {
          progress := 2;
          var t := Transform(h.transform);
          written := t.writes;
          if t.ok {
            progress := 3;
            if h.removeOk {
              progress := 4;
            }
          }
        }
      }
      var steps := [Step(hwnd, SaveAs(save)), Step(hwnd, CloseBook), Step(hwnd, Transformed(save)), Step(hwnd, RemoveFile(save))];
      v := VisitResult(steps[..progress], progress == 4, false);
    }

    /** The enumeration callback `_enum` for one window; records the handle once its capture completed. */
    method Enum(e: Enumerated) returns (steps: seq<Step>, raised: bool)
      modifies this
      ensures var v := Visit(old(processedHwnds), e);
        steps == v.steps && raised == v.raised && processedHwnds == After(old(processedHwnds), e, v)
    {
      steps, raised := [], false;
      if e.w.className != ExcelWindowClass {
        return;
      }
      if e.w.hwnd in processedHwnds {
        return;
      }
      if StartsWith(Lower(e.w.title), "book") {
        if e.host.app.NoApp? {
          return;
        }
        match e.host.app.active {
          case ActiveRaised =>
            raised := true;
          case NoWorkbook =>
          case ActiveBook(path) =>
            if path == "" {
              var v, _ := CaptureWindow(e.w.hwnd, e.host);
              steps := v.steps;
              if v.added {
                processedHwnds := processedHwnds + {e.w.hwnd};
              }
            }
        }
      }
    }

    /** One `EnumWindows` pass: visit every window in order until the callback raises. */
    method EnumPass(es: seq<Enumerated>) returns (steps: seq<Step>, raised: bool)
      modifies this
      ensures Pass(old(processedHwnds), es) == PassResult(processedHwnds, steps, raised)
    {
      steps, raised := [], false;
      var i := 0;
      while i < |es|
        invariant 0 <= i <= |es|
        invariant Pass(old(processedHwnds), es) == Prepend(steps, Pass(processedHwnds, es[i..]))
      {
        PassUnfold(processedHwnds, es, i);
        var s, r := Enum(es[i]);
        if r {
          return steps + s, true;
        }
        PrependTwice(steps, s, Pass(processedHwnds, es[i + 1..]));
        steps := steps + s;
        i := i + 1;
      }
      assert steps + [] == steps;
    }
  }

  /** The watch loop over a run of passes: an exception out of a pass ends the program. */
  function Watched(processed: set<Hwnd>, passes: seq<seq<Enumerated>>): PassResult
    decreases |passes|
  {
    if |passes| == 0 then PassResult(processed, [], false)
    else
      var r := Pass(processed, passes[0]);
      if r.raised then r else Prepend(r.steps, Watched(r.processed, passes[1..]))
  }

  /**
   * Across any run of passes: no step acts for a handle processed before the
   * run, and once a window's copy was removed nothing acts for that window again.
   */
  lemma {:induction false} WatchedCapturesOnce(processed: set<Hwnd>, passes: seq<seq<Enumerated>>)
    ensures var r := Watched(processed, passes);
      && processed <= r.processed
      && NoStepAfterCapture(r.steps)
      && (forall k :: 0 <= k < |r.steps| ==> r.steps[k].hwnd !in processed)
      && (forall k :: 0 <= k < |r.steps| && r.steps[k].action.RemoveFile? ==> r.steps[k].hwnd in r.processed)
    decreases |passes|
  {
    if |passes| > 0 {
      var p := Pass(processed, passes[0]);
      PassMonotone(processed, passes[0]);
      PassCapturesOnce(processed, passes[0]);
      forall k | 0 <= k < |p.steps| ensures p.steps[k].hwnd !in processed {
        PassSkipsProcessed(processed, passes[0], k);
      }
      if !p.raised {
        var rest := Watched(p.processed, passes[1..]);
        WatchedCapturesOnce(p.processed, passes[1..]);
        NoStepAfterCaptureConcat(p.steps, rest.steps, p.processed);
        var all := p.steps + rest.steps;
        forall k | 0 <= k < |all| ensures all[k].hwnd !in processed
          && (all[k].action.RemoveFile? ==> all[k].hwnd in rest.processed)
        {
          if k >= |p.steps| {
            assert all[k] == rest.steps[k - |p.steps|];
          }
        }
      }
    }
  }

  lemma WatchedUnfold(processed: set<Hwnd>, passes: seq<seq<Enumerated>>, n: nat)
    requires n < |passes|
    ensures var r := Pass(processed, passes[n]);
      Watched(processed, passes[n..]) == if r.raised then r else Prepend(r.steps, Watched(r.processed, passes[n + 1..]))
  {
    assert passes[n..][0] == passes[n] && passes[n..][1..] == passes[n + 1..];
  }

  /** The watch loop: one pass after another, stopping for good when a pass raises. */
  method Watch(w: WatcherV3, passes: seq<seq<Enumerated>>) returns (steps: seq<Step>, raised: bool)
    modifies w
    ensures Watched(old(w.processedHwnds), passes) == PassResult(w.processedHwnds, steps, raised)
  {
    steps, raised := [], false;
    var n := 0;
    while n < |passes|
      invariant 0 <= n <= |passes|
      invariant Watched(old(w.processedHwnds), passes) == Prepend(steps, Watched(w.processedHwnds, passes[n..]))
    {
      WatchedUnfold(w.processedHwnds, passes, n);
      var s, r := w.EnumPass(passes[n]);
      if r {
        return steps + s, true;
      }
      PrependTwice(steps, s, Watched(w.processedHwnds, passes[n + 1..]));
      steps := steps + s;
      n := n + 1;
    }
    assert steps + [] == steps;
  }
}
