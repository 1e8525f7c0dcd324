/**
 * The Book1 auto-saver (autosaver.py): find the visible Excel window of an
 * unsaved "Book1", bring it to the foreground, have Excel save it over DDE,
 * and report the saved path only when a non-empty file is there afterwards.
 * Window enumeration, the process table, the foreground answer, the DDE
 * conversation and the file system are inputs.
 */
module Autosaver {
  import opened Wrappers
  import opened Seqs
  import opened Strings
  import opened Host

  // ---------------------------------------------------------------- discovery

  predicate IsExcelMain(w: Window) {
    w.className == ExcelWindowClass
  }

  /** The XLMAIN windows, in enumeration order. */
  function ListedWindows(windows: seq<Window>): seq<Window> {
    Filter(windows, IsExcelMain)
  }

  /** `list_excel_windows`: every XLMAIN window with its pid, hwnd, title and visibility. */
  method ListExcelWindows(windows: seq<Window>) returns (listed: seq<Window>)
    ensures listed == ListedWindows(windows)
  {
    listed := [];
    for i := 0 to |windows|
      invariant listed == Filter(windows[..i], IsExcelMain)
    {
      assert windows[..i + 1][..i] == windows[..i];
      if windows[i].className == ExcelWindowClass {
        listed := listed + [windows[i]];
      }
    }
    assert windows[..|windows|] == windows;
  }

  /** A visible window whose lowercased title mentions "book1" but not "captured_". */
  predicate IsBook1Window(w: Window) {
    w.visible && Contains(Lower(w.title), "book1") && !Contains(Lower(w.title), "captured_")
  }

  /** The first listed window that qualifies as the Book1 target. */
  function Book1Window(windows: seq<Window>): Option<Window> {
    var listed := ListedWindows(windows);
    match FirstIndex(listed, IsBook1Window)
    case None => None
    case Some(i) => Some(listed[i])
  }

  /** The target is the first qualifying XLMAIN window, and there is none exactly when no XLMAIN window qualifies. */
  lemma Book1WindowIsFirst(windows: seq<Window>)
    ensures var listed, r := ListedWindows(windows), Book1Window(windows);
      && (r.None? <==> forall w :: w in windows && IsExcelMain(w) ==> !IsBook1Window(w))
      && (r.Some? ==> exists i :: 0 <= i < |listed| && listed[i] == r.value && IsBook1Window(r.value)
                                  && forall j :: 0 <= j < i ==> !IsBook1Window(listed[j]))
  {
    FirstIndexOfFilter(windows, IsExcelMain, IsBook1Window);
  }

  /** `find_book1_window_filtered`: `None` stands for `(None, None, None)`. */
  method FindBook1WindowFiltered(windows: seq<Window>) returns (found: Option<Window>)
    ensures found == Book1Window(windows)
  {
    var listed := ListExcelWindows(windows);
    var i := 0;
    while i < |listed|
      invariant 0 <= i <= |listed|
      invariant forall j :: 0 <= j < i ==> !IsBook1Window(listed[j])
    {
      var w := listed[i];
      if w.visible && Contains(Lower(w.title), "book1") {
        if !Contains(Lower(w.title), "captured_") {
          FirstIndexIs(listed, IsBook1Window, i);
          return Some(w);
        }
      }
      i := i + 1;
    }
    return None;
  }

  /** `is_book1_available`: the finder's pid is not `None`. */
  function IsBook1Available(windows: seq<Window>): (r: bool)
    ensures r <==> exists w :: w in windows && IsExcelMain(w) && IsBook1Window(w)
  {
    Book1WindowIsFirst(windows);
    Book1Window(windows).Some?
  }

  // ---------------------------------------------------------------- available workbooks

  /** The workbook name of a title: every " - Excel" removed, then stripped. */
  function BareName(title: string): string {
    Strip(RemoveAll(title, " - Excel"))
  }

  /** The name of an unsaved workbook: it starts with "book", not with "captured_" (both lowercased). */
  predicate IsUnsavedName(name: string) {
    StartsWith(Lower(name), "book") && !StartsWith(Lower(name), "captured_")
  }

  /**
   * Window `w` contributes the name `x`: it is visible, its process is known
   * (`names` lacks the pids whose lookup raises) and is excel.exe in any case,
   * its title carries " - Excel", and `x` is its bare name, an unsaved one.
   */
  predicate IsAvailableFrom(w: Window, names: map<Pid, string>, x: string) {
    && w.visible && w.pid in names && Lower(names[w.pid]) == "excel.exe"
    && Contains(w.title, " - Excel") && x == BareName(w.title) && IsUnsavedName(x)
  }

  function AvailableName(w: Window, names: map<Pid, string>): (r: seq<string>)
    ensures forall x :: x in r <==> IsAvailableFrom(w, names, x)
  {
    if w.visible && w.pid in names && Lower(names[w.pid]) == "excel.exe"
       && Contains(w.title, " - Excel") && IsUnsavedName(BareName(w.title))
    then [BareName(w.title)]
    else []
  }

  function AvailableNames(listed: seq<Window>, names: map<Pid, string>): seq<string> {
    FlatMap(listed, (w: Window) => AvailableName(w, names))
  }

  method GetAvailableWorkbooks(windows: seq<Window>, names: map<Pid, string>) returns (workbooks: seq<string>)
    ensures workbooks == AvailableNames(ListedWindows(windows), names)
  {
    var listed := ListExcelWindows(windows);
    workbooks := [];
    for i := 0 to |listed|
      invariant workbooks == AvailableNames(listed[..i], names)
    {
      assert listed[..i + 1][..i] == listed[..i];
      var w := listed[i];
      if w.visible && w.pid in names {
        var exe := names[w.pid];
        if Lower(exe) == "excel.exe" && Contains(w.title, " - Excel") {
          var name := Strip(RemoveAll(w.title, " - Excel"));
          if StartsWith(Lower(name), "book") && !StartsWith(Lower(name), "captured_") {
            workbooks := workbooks + [name];
          }
        }
      }
    }
    assert listed[..|listed|] == listed;
  }

  /** A name is listed exactly when some XLMAIN window contributes it; so every listed name is an unsaved one. */
  lemma AvailableNamesMember(windows: seq<Window>, names: map<Pid, string>, x: string)
    ensures var listed := ListedWindows(windows);
      x in AvailableNames(listed, names) <==> exists i :: 0 <= i < |listed| && IsAvailableFrom(listed[i], names, x)
  {
    var listed := ListedWindows(windows);
    var f := (w: Window) => AvailableName(w, names);
    FlatMapSound(listed, f, x);
    if exists i :: 0 <= i < |listed| && IsAvailableFrom(listed[i], names, x) {
      var i :| 0 <= i < |listed| && IsAvailableFrom(listed[i], names, x);
      FlatMapComplete(listed, f, x, i);
    }
  }

  // ---------------------------------------------------------------- foreground

  /** What the foreground sequence answered: it raised, or this window is in the foreground afterwards. */
  datatype Foreground = ForegroundRaised | ForegroundIs(hwnd: Hwnd)

  /** `bring_to_foreground`: true exactly when the target is the foreground window afterwards. */
  function BringToForeground(target: Hwnd, fg: Foreground): (r: bool)
    ensures r <==> fg.ForegroundIs? && fg.hwnd == target
    ensures fg.ForegroundRaised? ==> !r
  {
    match fg
    case ForegroundRaised => false
    case ForegroundIs(current) => current == target
  }

  // ---------------------------------------------------------------- saving over DDE

  /** What `SAVE.AS` left at the target path. */
  datatype SaveWrite = NothingWritten | Wrote(size: nat)

  /**
   * The DDE session: creating the server or conversation, connecting or
   * executing raised; or the command ran, with its effect on the file and
   * whether `server.Shutdown()` succeeded.
   */
  datatype DdeRun = DdeFailed | DdeSaved(write: SaveWrite, shutdownOk: bool)

  function DefaultFilename(ts: string): string {
    "Captured_" + ts + ".xlsx"
  }

  /** The save target: the given filename, or "Captured_<ts>.xlsx", in the save folder. */
  function CapturePath(folder: Path, filename: Option<string>, ts: string): Path {
    JoinPath(folder, if filename.Some? then filename.value else DefaultFilename(ts))
  }

  /** An existing file at the target is removed first; a failed removal is ignored. */
  function ClearExisting(fs: FileSystem, p: Path, removeFails: bool): (r: FileSystem)
    ensures !removeFails ==> p !in r
    ensures forall x :: x != p ==> (x in r <==> x in fs) && (x in r ==> r[x] == fs[x])
  {
    if p in fs && !removeFails then fs - {p} else fs
  }

  function AfterDde(fs: FileSystem, p: Path, run: DdeRun): (r: FileSystem)
    ensures forall x :: x != p ==> (x in r <==> x in fs) && (x in r ==> r[x] == fs[x])
  {
    if run.DdeSaved? && run.write.Wrote? then fs[p := run.write.size] else fs
  }

  /** The DDE part of `save_book1_dde`: the path is returned only for a non-empty file and a clean shutdown. */
  method DdeSave(fs: FileSystem, p: Path, run: DdeRun) returns (saved: Option<Path>, fsOut: FileSystem)
    ensures fsOut == AfterDde(fs, p, run)
    ensures saved.Some? <==> run.DdeSaved? && run.shutdownOk && IsNonEmptyFile(fsOut, p)
    ensures saved.Some? ==> saved.value == p
  {
    fsOut := fs;
    if run.DdeFailed? {
      return None, fsOut;
    }
    if run.write.Wrote? {
      fsOut := fsOut[p := run.write.size];
    }
    if p in fsOut && fsOut[p] > 0 {
      if !run.shutdownOk {
        return None, fsOut;
      }
      return Some(p), fsOut;
    }
    return None, fsOut;
  }

  /** `save_book1_dde` as written: a stale file that could not be removed still counts as saved. */
  method SaveBook1Dde(folder: Path, filename: Option<string>, ts: string, fs: FileSystem, removeFails: bool, run: DdeRun)
    returns (saved: Option<Path>, fsOut: FileSystem)
    ensures var p := CapturePath(folder, filename, ts);
      && fsOut == AfterDde(ClearExisting(fs, p, removeFails), p, run)
      && (saved.Some? <==> run.DdeSaved? && run.shutdownOk && IsNonEmptyFile(fsOut, p))
      && (saved.Some? ==> saved.value == p)
  {
    var fullPath := CapturePath(folder, filename, ts);
    var cleared := fs;
    if fullPath in cleared && !removeFails {
      cleared := cleared - {fullPath};
    }
    saved, fsOut := DdeSave(cleared, fullPath, run);
  }

  /** When the old file cannot be removed and the save writes nothing, the old file's path is reported as the capture. */
  lemma StaleFileReported(folder: Path, filename: Option<string>, ts: string, fs: FileSystem)
    requires IsNonEmptyFile(fs, CapturePath(folder, filename, ts))
    ensures var p, run := CapturePath(folder, filename, ts), DdeSaved(NothingWritten, true);
      IsNonEmptyFile(AfterDde(ClearExisting(fs, p, true), p, run), p)
  {
  }

  /** This save wrote a non-empty file at the target, which held no leftover file, and shut down cleanly. */
  predicate FreshSaveSucceeds(fs: FileSystem, p: Path, removeFails: bool, run: DdeRun) {
    !(p in fs && removeFails) && run.DdeSaved? && run.shutdownOk && run.write.Wrote? && run.write.size > 0
  }

  /**
   * `save_book1_dde` with the leftover file taken into account: when it cannot
   * be removed, nothing is saved, so a reported path is always the file this
   * save wrote.
   */
  method SaveBook1DdeFresh(folder: Path, filename: Option<string>, ts: string, fs: FileSystem, removeFails: bool, run: DdeRun)
    returns (saved: Option<Path>, fsOut: FileSystem)
    ensures var p := CapturePath(folder, filename, ts);
      && (saved.Some? <==> FreshSaveSucceeds(fs, p, removeFails, run))
      && (saved.Some? ==> saved.value == p && p in fsOut && fsOut[p] == run.write.size)
      && (p in fs && removeFails ==> fsOut == fs)
      && (!(p in fs && removeFails) ==> fsOut == AfterDde(ClearExisting(fs, p, removeFails), p, run))
  {
    var fullPath := CapturePath(folder, filename, ts);
    if fullPath in fs && removeFails {
      return None, fs;
    }
    var cleared := fs;
    if fullPath in cleared {
      cleared := cleared - {fullPath};
    }
    saved, fsOut := DdeSave(cleared, fullPath, run);
  }

  // ---------------------------------------------------------------- capture

  /**
   * `capture_book1` goes on to save: a target was found whose pid is truthy
   * (not 0), and the foreground step worked or `verbose` is off.
   */
  predicate CaptureProceeds(windows: seq<Window>, verbose: bool, fg: Foreground) {
    var t := Book1Window(windows);
    t.Some? && t.value.pid != 0 && (!verbose || BringToForeground(t.value.hwnd, fg))
  }

  /**
   * `capture_book1`: nothing without a target or, when verbose, without the
   * foreground; otherwise the result of `save_book1_dde` as written, so a
   * leftover file that could not be removed can be reported as the capture.
   */
  method CaptureBook1(windows: seq<Window>, folder: Path, filename: Option<string>, verbose: bool, fg: Foreground,
                      ts: string, fs: FileSystem, removeFails: bool, run: DdeRun)
    returns (saved: Option<Path>, fsOut: FileSystem)
    ensures !CaptureProceeds(windows, verbose, fg) ==> saved == None && fsOut == fs
    ensures CaptureProceeds(windows, verbose, fg) ==>
      var p := CapturePath(folder, filename, ts);
      && fsOut == AfterDde(ClearExisting(fs, p, removeFails), p, run)
      && (saved.Some? <==> run.DdeSaved? && run.shutdownOk && IsNonEmptyFile(fsOut, p))
      && (saved.Some? ==> saved.value == p)
  {
    var target := FindBook1WindowFiltered(windows);
    if target.None? || target.value.pid == 0 {
      return None, fs;
    }
    var success := BringToForeground(target.value.hwnd, fg);
    if !success && verbose {
      return None, fs;
    }
    saved, fsOut := SaveBook1Dde(folder, filename, ts, fs, removeFails, run);
  }

  /** `capture_book1` over the corrected save: a reported path is always a file this save wrote. */
  method CaptureBook1Fresh(windows: seq<Window>, folder: Path, filename: Option<string>, verbose: bool, fg: Foreground,
                           ts: string, fs: FileSystem, removeFails: bool, run: DdeRun)
    returns (saved: Option<Path>, fsOut: FileSystem)
    ensures !CaptureProceeds(windows, verbose, fg) ==> saved == None && fsOut == fs
    ensures CaptureProceeds(windows, verbose, fg) ==>
      var p := CapturePath(folder, filename, ts);
      && (saved.Some? <==> FreshSaveSucceeds(fs, p, removeFails, run))
      && (saved.Some? ==> saved.value == p && p in fsOut && fsOut[p] == run.write.size)
  {
    var target := FindBook1WindowFiltered(windows);
    if target.None? || target.value.pid == 0 {
      return None, fs;
    }
    var success := BringToForeground(target.value.hwnd, fg);
    if !success && verbose {
      return None, fs;
    }
    saved, fsOut := SaveBook1DdeFresh(folder, filename, ts, fs, removeFails, run);
  }

  /** A Book1 window reported under pid 0 counts as available, yet `capture_book1` treats the falsy pid as no target. */
  lemma AvailableButNotCaptured(windows: seq<Window>, verbose: bool, fg: Foreground)
    ensures Book1Window(windows).Some? && Book1Window(windows).value.pid == 0 ==>
      IsBook1Available(windows) && !CaptureProceeds(windows, verbose, fg)
  {
  }
}
