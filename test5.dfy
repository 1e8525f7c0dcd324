/**
 * The minimise-then-DDE saver (tests/test5.py): pick an unsaved "Book"
 * window by its extracted workbook name, minimise every other Excel window
 * so the target answers DDE, prepare a fresh "Captured_<name>_<ts>.xlsx"
 * path (clearing captures older than an hour), try four save commands in
 * order, fall back to a Ctrl+S keystroke, and always restore what was
 * minimised.
 */
module Test5 {
  import opened Wrappers
  import opened Seqs
  import opened Strings
  import opened Host
  import opened Autosaver

  const SaveFolder: Path := "C:\\Users\\sasuk\\Documents\\CapturedExports"
  const UnknownWorkbook := "UnknownWorkbook"

  /** A window's saved `GetWindowPlacement` value, opaque to the script. */
  type Placement = int

  /** The requests made to the window manager and to Excel, in order; the keystroke fallback is the one `SendCtrlS` event. */
  datatype Event =
    | Minimize(hwnd: Hwnd)
    | SendCommand(cmd: string)
    | SendCtrlS(hwnd: Hwnd)
    | SetPlacement(hwnd: Hwnd, placement: Placement)
    | ShowRestore(hwnd: Hwnd)

  // ---------------------------------------------------------------- names

  /** `extract_workbook_name`: every " - Excel" removed and stripped, or "UnknownWorkbook". */
  function ExtractWorkbookName(title: string): string {
    if Contains(title, " - Excel") then BareName(title) else UnknownWorkbook
  }

  /** An extracted name is shorter than its title by at least the removed " - Excel". */
  lemma ExtractWorkbookNameShorter(title: string)
    requires Contains(title, " - Excel")
    ensures |ExtractWorkbookName(title)| + |" - Excel"| <= |title|
  {
    RemoveAllShortens(title, " - Excel");
  }

  /** A visible window whose extracted name is an unsaved one. */
  predicate IsUnsavedTitleWindow(w: Window) {
    w.visible && IsUnsavedName(ExtractWorkbookName(w.title))
  }

  function UnsavedWindow(windows: seq<Window>): Option<Window> {
    var listed := ListedWindows(windows);
    match FirstIndex(listed, IsUnsavedTitleWindow)
    case None => None
    case Some(i) => Some(listed[i])
  }

  /** "UnknownWorkbook" is not the name of an unsaved workbook, so a title without " - Excel" never qualifies. */
  lemma UnknownNeverSelected(w: Window)
    requires !Contains(w.title, " - Excel")
    ensures !IsUnsavedTitleWindow(w)
  {
    assert Lower(UnknownWorkbook)[0] == 'u';
  }

  /** The chosen window is the first qualifying XLMAIN window, and there is none exactly when no XLMAIN window qualifies. */
  lemma UnsavedWindowIsFirst(windows: seq<Window>)
    ensures var listed, r := ListedWindows(windows), UnsavedWindow(windows);
      && (r.None? <==> forall w :: w in windows && IsExcelMain(w) ==> !IsUnsavedTitleWindow(w))
      && (r.Some? ==> exists i :: 0 <= i < |listed| && listed[i] == r.value && IsUnsavedTitleWindow(r.value)
                                  && forall j :: 0 <= j < i ==> !IsUnsavedTitleWindow(listed[j]))
  {
    FirstIndexOfFilter(windows, IsExcelMain, IsUnsavedTitleWindow);
  }

  /** The chosen window's title carries " - Excel". */
  lemma UnsavedWindowHasExcelSuffix(windows: seq<Window>)
    ensures UnsavedWindow(windows).Some? ==> Contains(UnsavedWindow(windows).value.title, " - Excel")
  {
    if UnsavedWindow(windows).Some? {
      var w := UnsavedWindow(windows).value;
      if !Contains(w.title, " - Excel") {
        UnknownNeverSelected(w);
      }
    }
  }

  /** `find_book1_window`: `None` stands for `(None, None, None)`. */
  method FindBook1Window(windows: seq<Window>) returns (found: Option<Window>)
    ensures found == UnsavedWindow(windows)
  {
    var listed := ListExcelWindows(windows);
    var i := 0;
    while i < |listed|
      invariant 0 <= i <= |listed|
      invariant forall j :: 0 <= j < i ==> !IsUnsavedTitleWindow(listed[j])
    {
      var w := listed[i];
      if IsUnsavedTitleWindow(w) {
        FirstIndexIs(listed, IsUnsavedTitleWindow, i);
        return Some(w);
      }
      i := i + 1;
    }
    return None;
  }

  // ---------------------------------------------------------------- minimise and restore

  /** A window recorded for restoration: its hwnd, title and placement before minimising. */
  datatype MinimizedWindow = MinimizedWindow(hwnd: Hwnd, title: string, placement: Placement)

  /**
   * What the host answers while minimising: process names (`names` lacks the
   * pids whose lookup raises), saved placements (`placements` lacks the hwnds
   * whose `GetWindowPlacement` raises), and the hwnds whose `ShowWindow`
   * returned a truthy value.
   */
  datatype MinimizeHost = MinimizeHost(names: map<Pid, string>, placements: map<Hwnd, Placement>, minimizeOk: set<Hwnd>)

  /** A visible window, other than the target, of a process named excel.exe in any case. */
  predicate IsOtherExcel(w: Window, target: Hwnd, names: map<Pid, string>) {
    w.visible && w.hwnd != target && w.pid in names && Lower(names[w.pid]) == "excel.exe"
  }

  /** The minimise request for `w`: made once its placement has been read. */
  function MinimizeStep(w: Window, target: Hwnd, host: MinimizeHost): seq<Event> {
    if IsOtherExcel(w, target, host.names) && w.hwnd in host.placements then [Minimize(w.hwnd)] else []
  }

  /** The record for `w`: kept only when the minimise call answered truthy. */
  function MinimizedEntry(w: Window, target: Hwnd, host: MinimizeHost): seq<MinimizedWindow> {
    if IsOtherExcel(w, target, host.names) && w.hwnd in host.placements && w.hwnd in host.minimizeOk
    then [MinimizedWindow(w.hwnd, w.title, host.placements[w.hwnd])]
    else []
  }

  function MinimizeEvents(listed: seq<Window>, target: Hwnd, host: MinimizeHost): seq<Event> {
    FlatMap(listed, (w: Window) => MinimizeStep(w, target, host))
  }

  function MinimizedWindows(listed: seq<Window>, target: Hwnd, host: MinimizeHost): seq<MinimizedWindow> {
    FlatMap(listed, (w: Window) => MinimizedEntry(w, target, host))
  }

  method MinimizeOtherExcelWindows(target: Hwnd, windows: seq<Window>, host: MinimizeHost)
    returns (minimized: seq<MinimizedWindow>, trace: seq<Event>)
    ensures minimized == MinimizedWindows(ListedWindows(windows), target, host)
    ensures trace == MinimizeEvents(ListedWindows(windows), target, host)
  {
    var listed := ListExcelWindows(windows);
    minimized, trace := [], [];
    for i := 0 to |listed|
      invariant minimized == MinimizedWindows(listed[..i], target, host)
      invariant trace == MinimizeEvents(listed[..i], target, host)
    {
      assert listed[..i + 1][..i] == listed[..i];
      var w := listed[i];
      if w.visible && w.hwnd != target && w.pid in host.names {
        var exe := host.names[w.pid];
        if Lower(exe) == "excel.exe" && w.hwnd in host.placements {
          var originalState := host.placements[w.hwnd];
          trace := trace + [Minimize(w.hwnd)];
          if w.hwnd in host.minimizeOk {
            minimized := minimized + [MinimizedWindow(w.hwnd, w.title, originalState)];
          }
        }
      }
    }
    assert listed[..|listed|] == listed;
  }

  /** Only visible Excel windows other than the target are minimised or recorded. */
  lemma MinimizeSparesTarget(windows: seq<Window>, target: Hwnd, host: MinimizeHost, e: Event, m: MinimizedWindow)
    ensures var listed := ListedWindows(windows);
      && (e in MinimizeEvents(listed, target, host) ==>
            exists i :: 0 <= i < |listed| && e == Minimize(listed[i].hwnd) && IsOtherExcel(listed[i], target, host.names))
      && (m in MinimizedWindows(listed, target, host) ==>
            exists i :: 0 <= i < |listed| && m.hwnd == listed[i].hwnd && IsOtherExcel(listed[i], target, host.names)
                         && listed[i].hwnd in host.minimizeOk)
  {
    var listed := ListedWindows(windows);
    FlatMapSound(listed, (w: Window) => MinimizeStep(w, target, host), e);
    FlatMapSound(listed, (w: Window) => MinimizedEntry(w, target, host), m);
  }

  /** Restoring one window: its saved placement, and `ShowWindow(SW_RESTORE)` when that raises. */
  function RestoreSteps(m: MinimizedWindow, placementFails: set<Hwnd>): seq<Event> {
    [SetPlacement(m.hwnd, m.placement)] + if m.hwnd in placementFails then [ShowRestore(m.hwnd)] else []
  }

  function RestoreEvents(minimized: seq<MinimizedWindow>, placementFails: set<Hwnd>): seq<Event> {
    FlatMap(minimized, (m: MinimizedWindow) => RestoreSteps(m, placementFails))
  }

  /** `restore_minimized_windows`: nothing for an empty list; otherwise every window, without aborting. */
  method RestoreMinimizedWindows(minimized: seq<MinimizedWindow>, placementFails: set<Hwnd>) returns (trace: seq<Event>)
    ensures trace == RestoreEvents(minimized, placementFails)
    ensures minimized == [] ==> trace == []
  {
    trace := [];
    if |minimized| == 0 {
      return;
    }
    for i := 0 to |minimized|
      invariant trace == RestoreEvents(minimized[..i], placementFails)
    {
      assert minimized[..i + 1][..i] == minimized[..i];
      var m := minimized[i];
      trace := trace + [SetPlacement(m.hwnd, m.placement)];
      if m.hwnd in placementFails {
        trace := trace + [ShowRestore(m.hwnd)];
      }
    }
    assert minimized[..|minimized|] == minimized;
  }

  /** Every recorded window gets its placement back, and the fallback runs exactly for the ones where that raised. */
  lemma RestoreCoversAll(minimized: seq<MinimizedWindow>, placementFails: set<Hwnd>, i: int, h: Hwnd)
    requires 0 <= i < |minimized|
    ensures SetPlacement(minimized[i].hwnd, minimized[i].placement) in RestoreEvents(minimized, placementFails)
    ensures ShowRestore(h) in RestoreEvents(minimized, placementFails) <==>
      h in placementFails && exists k :: 0 <= k < |minimized| && minimized[k].hwnd == h
  {
    var f := (m: MinimizedWindow) => RestoreSteps(m, placementFails);
    FlatMapComplete(minimized, f, SetPlacement(minimized[i].hwnd, minimized[i].placement), i);
    FlatMapSound(minimized, f, ShowRestore(h));
    if h in placementFails && exists k :: 0 <= k < |minimized| && minimized[k].hwnd == h {
      var k :| 0 <= k < |minimized| && minimized[k].hwnd == h;
      FlatMapComplete(minimized, f, ShowRestore(h), k);
    }
  }

  // ---------------------------------------------------------------- save location

  /** A directory entry of the save folder; `mtime` is `None` when `getmtime` raises. */
  datatype DirEntry = DirEntry(name: string, mtime: Option<int>)

  /**
   * What the host answers while preparing: whether removing an existing file
   * raises, the fallback timestamp, whether the write test passes, the
   * folder listing (`None` when `listdir` raises), the clock, and the old
   * captures whose removal raises.
   */
  datatype PrepHost = PrepHost(
    fs: FileSystem, removeFails: bool, altTs: string, writeOk: bool,
    listing: Option<seq<DirEntry>>, now: int, cleanupFails: set<string>)

  function CaptureName(name: string, ts: string): string {
    "Captured_" + name + "_" + ts + ".xlsx"
  }

  /** Python's `s[:n]`. */
  function Take(s: string, n: nat): (r: string)
    ensures |r| <= n && StartsWith(s, r)
  {
    if |s| <= n then s else s[..n]
  }

  /** The save target: the timestamped name, or the fallback one when an existing file cannot be removed. */
  function SaveTarget(title: string, ts: string, host: PrepHost): Path {
    var name := ExtractWorkbookName(title);
    var p := JoinPath(SaveFolder, CaptureName(name, ts));
    if p in host.fs && host.removeFails then JoinPath(SaveFolder, CaptureName(name, Take(host.altTs, 17))) else p
  }

  predicate IsCaptureFile(name: string) {
    StartsWith(name, "Captured_") && EndsWith(name, ".xlsx")
  }

  /** What the cleanup removed so far, and whether a failing `getmtime` ended it. */
  datatype Cleanup = Cleanup(removed: seq<string>, stopped: bool)

  /** One entry of the cleanup: capture files more than an hour old are removed; the rest are left. */
  function CleanupStep(c: Cleanup, e: DirEntry, now: int, fails: set<string>): Cleanup {
    if c.stopped || !IsCaptureFile(e.name) then c
    else match e.mtime
      case None => Cleanup(c.removed, true)
      case Some(t) => if t < now - 3600 && e.name !in fails then Cleanup(c.removed + [e.name], false) else c
  }

  function CleanupScan(entries: seq<DirEntry>, now: int, fails: set<string>): Cleanup {
    if |entries| == 0 then Cleanup([], false)
    else CleanupStep(CleanupScan(entries[..|entries| - 1], now, fails), entries[|entries| - 1], now, fails)
  }

  /** A cleanup that has stopped stays stopped and removes nothing more. */
  lemma {:induction false} CleanupStopped(entries: seq<DirEntry>, i: nat, now: int, fails: set<string>)
    requires i <= |entries| && CleanupScan(entries[..i], now, fails).stopped
    ensures CleanupScan(entries, now, fails) == CleanupScan(entries[..i], now, fails)
    decreases |entries| - i
  {
    if i < |entries| {
      assert entries[..i + 1][..i] == entries[..i];
      CleanupStopped(entries, i + 1, now, fails);
    } else {
      assert entries[..i] == entries;
    }
  }

  /** Only capture files ("Captured_*.xlsx") whose modification time is more than 3600 s old are removed. */
  lemma {:induction false} CleanupRemovesOnlyOld(entries: seq<DirEntry>, now: int, fails: set<string>, x: string)
    requires x in CleanupScan(entries, now, fails).removed
    ensures x !in fails && IsCaptureFile(x)
    ensures exists i :: 0 <= i < |entries| && entries[i].name == x && entries[i].mtime.Some? && entries[i].mtime.value < now - 3600
  {
    var q := entries[..|entries| - 1];
    var e := entries[|entries| - 1];
    if x in CleanupScan(q, now, fails).removed {
      CleanupRemovesOnlyOld(q, now, fails, x);
      var i :| 0 <= i < |q| && q[i].name == x && q[i].mtime.Some? && q[i].mtime.value < now - 3600;
      assert entries[i] == q[i];
    } else {
      assert e.name == x;
    }
  }

  method CleanOldCaptures(entries: seq<DirEntry>, now: int, fails: set<string>) returns (removed: seq<string>)
    ensures removed == CleanupScan(entries, now, fails).removed
  {
    removed := [];
    var i := 0;
    while i < |entries|
      invariant 0 <= i <= |entries|
      invariant CleanupScan(entries[..i], now, fails) == Cleanup(removed, false)
    {
      assert entries[..i + 1][..i] == entries[..i];
      var e := entries[i];
      if StartsWith(e.name, "Captured_") && EndsWith(e.name, ".xlsx") {
        if e.mtime.None? {
          CleanupStopped(entries, i + 1, now, fails);
          return;
        }
        if e.mtime.value < now - 3600 && e.name !in fails {
          removed := removed + [e.name];
        }
      }
      i := i + 1;
    }
    assert entries[..i] == entries;
  }

  /** The old captures the cleanup removed, none when the folder cannot be listed. */
  function CleanupRemoved(host: PrepHost): seq<string> {
    if host.listing.None? then [] else CleanupScan(host.listing.value, host.now, host.cleanupFails).removed
  }

  /** The prepared location and what preparing it did, or `None` when the write test raised. */
  datatype Prepared = Prepared(path: Path, fs: FileSystem, cleaned: seq<string>)

  method PrepareSaveLocation(title: string, ts: string, host: PrepHost) returns (prep: Option<Prepared>)
    ensures !host.writeOk <==> prep.None?
    ensures prep.Some? ==> prep.value.path == SaveTarget(title, ts, host)
    ensures prep.Some? ==> prep.value.cleaned == CleanupRemoved(host)
    ensures prep.Some? ==> var p := JoinPath(SaveFolder, CaptureName(ExtractWorkbookName(title), ts));
      prep.value.fs == if p in host.fs && !host.removeFails then host.fs - {p} else host.fs
  {
    var workbookName := ExtractWorkbookName(title);
    var fullPath := JoinPath(SaveFolder, CaptureName(workbookName, ts));
    var fs := host.fs;
    if fullPath in fs {
      if host.removeFails {
        var altTs := Take(host.altTs, 17);
        fullPath := JoinPath(SaveFolder, CaptureName(workbookName, altTs));
      } else {
        fs := fs - {fullPath};
      }
    }
    if !host.writeOk {
      return None;
    }
    var cleaned := [];
    if host.listing.Some? {
      cleaned := CleanOldCaptures(host.listing.value, host.now, host.cleanupFails);
    }
    return Some(Prepared(fullPath, fs, cleaned));
  }

  /** Without a leftover file in the way, the target is SAVE_FOLDER/"Captured_<name>_<ts>.xlsx". */
  lemma SaveTargetNamed(title: string, ts: string, host: PrepHost)
    requires !host.removeFails
    ensures SaveTarget(title, ts, host) == JoinPath(SaveFolder, CaptureName(ExtractWorkbookName(title), ts))
    ensures EndsWith(SaveTarget(title, ts, host), ".xlsx")
  {
    var name := CaptureName(ExtractWorkbookName(title), ts);
    JoinPathEnds(SaveFolder, name);
    assert name[|name| - 5..] == ".xlsx";
    assert SaveTarget(title, ts, host)[|SaveTarget(title, ts, host)| - 5..] == name[|name| - 5..];
  }

  // ---------------------------------------------------------------- saving over DDE

  /** One save command: `Exec` raised, answered falsy, or ran and left this (or no) file size at the target. */
  datatype CommandResult = CommandRaised | CommandFalsy | CommandRan(size: Option<nat>)

  /** The DDE session: server setup raised, connecting raised, or connected with the answers to the commands sent. */
  datatype DdeSession = SetupFailed | ConnectFailed | Connected(results: seq<CommandResult>)

  /** The four commands, in the order they are tried: xlsx format, Excel format, default, and `FILE.SAVE.AS`. */
  function SaveCommands(p: Path): (r: seq<string>)
    ensures |r| == 4
  {
    [ "[SAVE.AS(\"" + p + "\",51)]",
      "[SAVE.AS(\"" + p + "\",1)]",
      "[SAVE.AS(\"" + p + "\")]",
      "[FILE.SAVE.AS(\"" + p + "\",51)]" ]
  }

  /** The answer to command `i`; a command past the supplied answers raised. */
  function ResultOf(results: seq<CommandResult>, i: nat): CommandResult {
    if i < |results| then results[i] else CommandRaised
  }

  predicate IsSaved(r: CommandResult) {
    r.CommandRan? && r.size.Some? && r.size.value > 0
  }

  /** The answers to the four commands. */
  function Answers(results: seq<CommandResult>): (r: seq<CommandResult>)
    ensures |r| == 4 && forall i :: 0 <= i < 4 ==> r[i] == ResultOf(results, i)
  {
    [ResultOf(results, 0), ResultOf(results, 1), ResultOf(results, 2), ResultOf(results, 3)]
  }

  /** The index of the first command after which a non-empty file is at the target. */
  function FirstSaved(results: seq<CommandResult>): Option<nat> {
    FirstIndex(Answers(results), IsSaved)
  }

  /** The commands sent: up to the first that saved, or all four. */
  function SentCommands(p: Path, results: seq<CommandResult>): seq<string> {
    match FirstSaved(results)
    case None => SaveCommands(p)
    case Some(i) => SaveCommands(p)[..i + 1]
  }

  function SendEvents(cmds: seq<string>): (r: seq<Event>)
    ensures |r| == |cmds| && forall i :: 0 <= i < |cmds| ==> r[i] == SendCommand(cmds[i])
  {
    Map(cmds, (c: string) => SendCommand(c))
  }

  /** The commands loop: the first command yielding an existing, non-empty file wins; a raising one is skipped. */
  method TrySaveCommands(p: Path, results: seq<CommandResult>) returns (saved: Option<Path>, trace: seq<Event>)
    ensures saved.Some? <==> FirstSaved(results).Some?
    ensures saved.Some? ==> saved.value == p
    ensures trace == SendEvents(SentCommands(p, results))
  {
    var cmds := SaveCommands(p);
    var answers := Answers(results);
    trace := [];
    var i := 0;
    while i < |cmds|
      invariant 0 <= i <= |cmds|
      invariant forall j :: 0 <= j < i ==> !IsSaved(answers[j])
      invariant trace == SendEvents(cmds[..i])
    {
      trace := trace + [SendCommand(cmds[i])];
      assert cmds[..i + 1] == cmds[..i] + [cmds[i]];
      var result := ResultOf(results, i);
      if result.CommandRan? && result.size.Some? && result.size.value > 0 {
        FirstIndexIs(answers, IsSaved, i);
        return Some(p), trace;
      }
      i := i + 1;
    }
    assert cmds[..i] == cmds;
    return None, trace;
  }

  /** The save succeeds: the location was prepared, the session connected, and some command left a non-empty file. */
  predicate DdeSaveSucceeds(host: PrepHost, session: DdeSession) {
    host.writeOk && session.Connected? && FirstSaved(session.results).Some?
  }

  /**
   * The requests of `save_book1_via_dde`: once the location is prepared, the
   * target window is shown (`SW_RESTORE`), then, when the session connects,
   * the commands up to the first that saved; nothing when the write test raised.
   */
  function DdeEvents(title: string, hwnd: Hwnd, ts: string, host: PrepHost, session: DdeSession): seq<Event> {
    if !host.writeOk then []
    else [ShowRestore(hwnd)] + if session.Connected? then SendEvents(SentCommands(SaveTarget(title, ts, host), session.results)) else []
  }

  /** `save_book1_via_dde`: the prepared path when a command saved it, `None` on any failure. */
  method SaveBook1ViaDde(title: string, hwnd: Hwnd, ts: string, host: PrepHost, session: DdeSession)
    returns (saved: Option<Path>, trace: seq<Event>)
    ensures saved.Some? <==> DdeSaveSucceeds(host, session)
    ensures saved.Some? ==> saved.value == SaveTarget(title, ts, host)
    ensures trace == DdeEvents(title, hwnd, ts, host, session)
  {
    var prep := PrepareSaveLocation(title, ts, host);
    if prep.None? {
      return None, [];
    }
    var fullPath := prep.value.path;
    trace := [ShowRestore(hwnd)];
    match session {
      case SetupFailed =>
        return None, trace;
      case ConnectFailed =>
        return None, trace;
      case Connected(results) =>
        var sent;
        saved, sent := TrySaveCommands(fullPath, results);
        trace := trace + sent;
    }
  }

  /** A second command is tried only after the first left no non-empty file. */
  lemma CommandsInOrder(p: Path, results: seq<CommandResult>, i: nat)
    requires 0 < i < |SentCommands(p, results)|
    ensures !IsSaved(ResultOf(results, i - 1))
  {
    var answers := Answers(results);
    assert answers[i - 1] == ResultOf(results, i - 1);
  }

  // ---------------------------------------------------------------- main

  /** How `main` ended. */
  datatype Outcome =
    | ListingRaised   // `psutil.Process(pid).name()` raised while listing, outside any `try`
    | NoTarget
    | SavedTo(path: Path)
    | SaveTriggered
    | NotSaved

  /** A visible XLMAIN window whose process lookup raises while `main` lists the windows. */
  predicate ListingFails(listed: seq<Window>, names: map<Pid, string>) {
    exists i :: 0 <= i < |listed| && listed[i].visible && listed[i].pid !in names
  }

  method ListWindows(listed: seq<Window>, names: map<Pid, string>) returns (raised: bool)
    ensures raised == ListingFails(listed, names)
  {
    for i := 0 to |listed|
      invariant forall j :: 0 <= j < i ==> !(listed[j].visible && listed[j].pid !in names)
    {
      if listed[i].visible && listed[i].pid !in names {
        return true;
      }
    }
    return false;
  }

  /** Everything the host answers during one run of `main`. */
  datatype MainHost = MainHost(
    windows: seq<Window>, minimize: MinimizeHost, ts: string, prep: PrepHost,
    session: DdeSession, keyboardOk: bool, placementFails: set<Hwnd>)

  /** The save phase of `main`: the DDE commands, then the window's Ctrl+S when they saved nothing. */
  function SaveTrace(title: string, hwnd: Hwnd, ts: string, prep: PrepHost, session: DdeSession): seq<Event> {
    DdeEvents(title, hwnd, ts, prep, session) + (if DdeSaveSucceeds(prep, session) then [] else [SendCtrlS(hwnd)])
  }

  /**
   * The save phase shows the target window first once the location is
   * prepared, and otherwise sends only save commands and the Ctrl+S; the
   * Ctrl+S is sent exactly when no command saved, and then last. A
   * successful save ends with the command that saved.
   */
  lemma SaveTraceShape(title: string, hwnd: Hwnd, ts: string, prep: PrepHost, session: DdeSession)
    ensures var t := SaveTrace(title, hwnd, ts, prep, session);
      && (prep.writeOk ==> t[0] == ShowRestore(hwnd))
      && (forall i :: 0 <= i < |t| ==> t[i].SendCommand? || t[i] == SendCtrlS(hwnd) || (i == 0 && t[i] == ShowRestore(hwnd)))
      && (SendCtrlS(hwnd) in t <==> !DdeSaveSucceeds(prep, session))
      && (!DdeSaveSucceeds(prep, session) ==> t[|t| - 1] == SendCtrlS(hwnd))
      && (DdeSaveSucceeds(prep, session) ==>
            t[|t| - 1] == SendCommand(SaveCommands(SaveTarget(title, ts, prep))[FirstSaved(session.results).value]))
  {
    var t := SaveTrace(title, hwnd, ts, prep, session);
    var d := DdeEvents(title, hwnd, ts, prep, session);
    assert forall i :: 0 < i < |d| ==> d[i].SendCommand?;
    if DdeSaveSucceeds(prep, session) {
      var k := FirstSaved(session.results).value;
      var p := SaveTarget(title, ts, prep);
      assert SentCommands(p, session.results) == SaveCommands(p)[..k + 1];
      assert t == d;
    } else {
      assert t[|t| - 1] == SendCtrlS(hwnd);
    }
  }

  /** The DDE save, then the keystroke fallback when it returned nothing. */
  method SaveWithFallback(title: string, hwnd: Hwnd, ts: string, prep: PrepHost, session: DdeSession, keyboardOk: bool)
    returns (outcome: Outcome, trace: seq<Event>)
    ensures outcome.SavedTo? || outcome.SaveTriggered? || outcome.NotSaved?
    ensures outcome.SavedTo? <==> DdeSaveSucceeds(prep, session)
    ensures outcome.SavedTo? ==> outcome.path == SaveTarget(title, ts, prep)
    ensures outcome.SaveTriggered? <==> !DdeSaveSucceeds(prep, session) && keyboardOk
    ensures trace == SaveTrace(title, hwnd, ts, prep, session)
  {
    var saved;
    saved, trace := SaveBook1ViaDde(title, hwnd, ts, prep, session);
    if saved.Some? {
      return SavedTo(saved.value), trace;
    }
    trace := trace + [SendCtrlS(hwnd)];
    outcome := if keyboardOk then SaveTriggered else NotSaved;
  }

  /**
   * `main`: list, find the target, minimise the others, then save by DDE or
   * by keystroke inside a `try` whose `finally` restores the minimised
   * windows. Without a target (or with the falsy pid 0) nothing is minimised.
   */
  method RunMain(host: MainHost) returns (outcome: Outcome, minimized: seq<MinimizedWindow>, trace: seq<Event>)
    ensures outcome == ListingRaised <==> ListingFails(ListedWindows(host.windows), host.minimize.names)
    ensures outcome == NoTarget <==>
      && !ListingFails(ListedWindows(host.windows), host.minimize.names)
      && (UnsavedWindow(host.windows).None? || UnsavedWindow(host.windows).value.pid == 0)
    ensures outcome == ListingRaised || outcome == NoTarget ==> minimized == [] && trace == []
    ensures outcome != ListingRaised && outcome != NoTarget ==>
      && UnsavedWindow(host.windows).Some?
      && var listed, w := ListedWindows(host.windows), UnsavedWindow(host.windows).value;
      && (outcome.SavedTo? <==> DdeSaveSucceeds(host.prep, host.session))
      && (outcome.SavedTo? ==> outcome.path == SaveTarget(w.title, host.ts, host.prep))
      && (outcome.SaveTriggered? <==> !DdeSaveSucceeds(host.prep, host.session) && host.keyboardOk)
      && var target := w.hwnd;
      && minimized == MinimizedWindows(listed, target, host.minimize)
      && trace == MinimizeEvents(listed, target, host.minimize)
           + SaveTrace(w.title, target, host.ts, host.prep, host.session)
           + RestoreEvents(minimized, host.placementFails)
  {
    var listed := ListExcelWindows(host.windows);
    var raised := ListWindows(listed, host.minimize.names);
    if raised {
      return ListingRaised, [], [];
    }
    var target := FindBook1Window(host.windows);
    if target.None? || target.value.pid == 0 {
      return NoTarget, [], [];
    }
    var minTrace, saveTrace;
    minimized, minTrace := MinimizeOtherExcelWindows(target.value.hwnd, host.windows, host.minimize);
    outcome, saveTrace := SaveWithFallback(target.value.title, target.value.hwnd, host.ts, host.prep, host.session, host.keyboardOk);
    var restoreTrace := RestoreMinimizedWindows(minimized, host.placementFails);
    trace := minTrace + saveTrace + restoreTrace;
  }

  /** Whatever precedes the restore, each recorded window's placement is set within the restore's events. */
  lemma RestoredAfter(pre: seq<Event>, save: seq<Event>, minimized: seq<MinimizedWindow>, placementFails: set<Hwnd>, i: int)
    requires 0 <= i < |minimized|
    ensures var t := pre + save + RestoreEvents(minimized, placementFails);
      exists j :: |pre| + |save| <= j < |t| && t[j] == SetPlacement(minimized[i].hwnd, minimized[i].placement)
  {
    var r := RestoreEvents(minimized, placementFails);
    RestoreCoversAll(minimized, placementFails, i, minimized[i].hwnd);
    var k :| 0 <= k < |r| && r[k] == SetPlacement(minimized[i].hwnd, minimized[i].placement);
    var t := pre + save + r;
    assert t[|pre| + |save| + k] == r[k];
  }

  /**
   * `main`'s `finally`: in a run that found a target, every window recorded
   * as minimised has its placement set again after the save phase, whether
   * the save succeeded, fell back to the keystroke or failed altogether.
   */
  lemma MainRestoresMinimized(host: MainHost, i: int)
    requires UnsavedWindow(host.windows).Some?
    requires var w := UnsavedWindow(host.windows).value;
      0 <= i < |MinimizedWindows(ListedWindows(host.windows), w.hwnd, host.minimize)|
    ensures var listed, w := ListedWindows(host.windows), UnsavedWindow(host.windows).value;
      var minimized := MinimizedWindows(listed, w.hwnd, host.minimize);
      var pre, save := MinimizeEvents(listed, w.hwnd, host.minimize), SaveTrace(w.title, w.hwnd, host.ts, host.prep, host.session);
      var t := pre + save + RestoreEvents(minimized, host.placementFails);
      exists j :: |pre| + |save| <= j < |t| && t[j] == SetPlacement(minimized[i].hwnd, minimized[i].placement)
  {
    var listed, w := ListedWindows(host.windows), UnsavedWindow(host.windows).value;
    RestoredAfter(MinimizeEvents(listed, w.hwnd, host.minimize), SaveTrace(w.title, w.hwnd, host.ts, host.prep, host.session),
                  MinimizedWindows(listed, w.hwnd, host.minimize), host.placementFails, i);
  }
}
