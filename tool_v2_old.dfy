/**
 * The earlier census of old_not_working/accountingToolv2.py: it walks every
 * Excel window of the other instances instead of asking one COM session, and
 * falls back to parsing the window title when COM is out of reach.
 */
module ToolV2Old {
  import opened Wrappers
  import opened Seqs
  import opened Strings
  import opened Host

  /** What the window census records per window (the `files` slot is filled later and not kept here). */
  datatype WindowInfo = WindowInfo(
    hwnd: Hwnd, pid: Pid, title: string,
    isProtectedView: bool, isReadOnly: bool, isCompatibilityMode: bool)

  // ---------------------------------------------------------------- window census

  function InfoOf(w: Window): WindowInfo {
    WindowInfo(w.hwnd, w.pid, w.title,
               Contains(w.title, "[Protected View]"), Contains(w.title, "[Read-Only]"),
               Contains(w.title, "[Compatibility Mode]"))
  }

  predicate IsOtherExcelWindow(w: Window, target: Pid) {
    w.className == ExcelWindowClass && w.visible && w.pid != target
  }

  /** The visible Excel windows of every process but the target, in enumeration order. */
  function WindowInfos(windows: seq<Window>, target: Pid): (r: seq<WindowInfo>)
    ensures |r| <= |windows|
    ensures forall x :: x in r <==> exists w :: w in windows && IsOtherExcelWindow(w, target) && x == InfoOf(w)
  {
    if |windows| == 0 then []
    else
      var q := windows[..|windows| - 1];
      var w := windows[|windows| - 1];
      var r := WindowInfos(q, target) + if IsOtherExcelWindow(w, target) then [InfoOf(w)] else [];
      assert windows == q + [w];
      r
  }

  method GetAllExcelWindowInfo(target: Pid, windows: seq<Window>) returns (infos: seq<WindowInfo>)
    ensures infos == WindowInfos(windows, target)
  {
    infos := [];
    for i := 0 to |windows|
      invariant infos == WindowInfos(windows[..i], target)
    {
      assert windows[..i + 1][..i] == windows[..i];
      var w := windows[i];
      if w.className == ExcelWindowClass && w.visible {
        if w.pid == target {
          continue;
        }
        var isProtectedView := Contains(w.title, "[Protected View]");
        var isReadOnly := Contains(w.title, "[Read-Only]");
        var isCompatibilityMode := Contains(w.title, "[Compatibility Mode]");
        infos := infos + [WindowInfo(w.hwnd, w.pid, w.title, isProtectedView, isReadOnly, isCompatibilityMode)];
      }
    }
    assert windows[..|windows|] == windows;
  }

  /** No window of the target is recorded, and each flag is set exactly when its marker is in the title. */
  lemma WindowInfosProperties(windows: seq<Window>, target: Pid, x: WindowInfo)
    requires x in WindowInfos(windows, target)
    ensures x.pid != target
    ensures x.isProtectedView <==> Contains(x.title, "[Protected View]")
    ensures x.isReadOnly <==> Contains(x.title, "[Read-Only]")
    ensures x.isCompatibilityMode <==> Contains(x.title, "[Compatibility Mode]")
  {
  }

  // ---------------------------------------------------------------- title parsing

  const Indicators: seq<string> := [" [Protected View]", " [Read-Only]", " [Compatibility Mode]", " [Group]", " - Saved"]

  /** Every indicator of `inds`, removed in turn. */
  function RemoveIndicators(s: string, inds: seq<string>): (r: string)
    requires forall i :: 0 <= i < |inds| ==> |inds[i]| > 0
    ensures |r| <= |s|
  {
    if |inds| == 0 then s else RemoveAll(RemoveIndicators(s, inds[..|inds| - 1]), inds[|inds| - 1])
  }

  /** The file name a window title shows: before " - Excel", without mode indicators, stripped. */
  function TitleFilename(title: string): (r: string)
    ensures |r| <= |title|
    ensures r == [] || (!IsSpace(r[0]) && !IsSpace(r[|r| - 1]))
  {
    Strip(RemoveIndicators(Before(title, " - Excel"), Indicators))
  }

  method ExtractFilenameFromTitle(title: string) returns (name: string)
    ensures name == TitleFilename(title)
  {
    var filenamePart := if Contains(title, " - Excel") then Before(title, " - Excel") else title;
    for i := 0 to |Indicators|
      invariant filenamePart == RemoveIndicators(Before(title, " - Excel"), Indicators[..i])
    {
      assert Indicators[..i + 1][..i] == Indicators[..i];
      filenamePart := RemoveAll(filenamePart, Indicators[i]);
    }
    assert Indicators[..|Indicators|] == Indicators;
    name := Strip(filenamePart);
  }

  /** A title without " - Excel" or any indicator is only stripped. */
  lemma TitleFilenamePlain(title: string)
    requires !Contains(title, " - Excel")
    requires forall i :: 0 <= i < |Indicators| ==> !Contains(title, Indicators[i])
    ensures TitleFilename(title) == Strip(title)
  {
    forall k | 0 <= k <= |Indicators| ensures RemoveIndicators(title, Indicators[..k]) == title {
      RemoveIndicatorsAbsent(title, Indicators[..k]);
    }
    assert Indicators[..|Indicators|] == Indicators;
  }

  lemma {:induction false} RemoveIndicatorsAbsent(s: string, inds: seq<string>)
    requires forall i :: 0 <= i < |inds| ==> |inds[i]| > 0 && !Contains(s, inds[i])
    ensures RemoveIndicators(s, inds) == s
  {
    if |inds| > 0 {
      RemoveIndicatorsAbsent(s, inds[..|inds| - 1]);
      ReplaceAllAbsent(s, inds[|inds| - 1], "");
    }
  }

  /** Removing a list of indicators is removing the first, then the rest. */
  lemma {:induction false} RemoveIndicatorsFirst(s: string, inds: seq<string>)
    requires |inds| > 0 && forall i :: 0 <= i < |inds| ==> |inds[i]| > 0
    ensures RemoveIndicators(s, inds) == RemoveIndicators(RemoveAll(s, inds[0]), inds[1..])
  {
    if |inds| > 1 {
      var q := inds[..|inds| - 1];
      RemoveIndicatorsFirst(s, q);
      assert q[1..] == inds[1..][..|inds[1..]| - 1];
    }
  }

  /** Indicators longer than the text cannot occur in it. */
  lemma {:induction false} RemoveIndicatorsShort(s: string, inds: seq<string>)
    requires forall i :: 0 <= i < |inds| ==> |inds[i]| > |s|
    ensures RemoveIndicators(s, inds) == s
  {
    if |inds| > 0 {
      RemoveIndicatorsShort(s, inds[..|inds| - 1]);
    }
  }

  // ---------------------------------------------------------------- locating a file by name

  const SearchExts: seq<string> := [".xlsx", ".xls", ".xlsm", ".csv"]
  const WorkbookExts: seq<string> := [".xlsx", ".xls", ".xlsm"]

  predicate HasExt(name: string, exts: seq<string>) {
    exists i :: 0 <= i < |exts| && EndsWith(name, exts[i])
  }

  const HomeFolders: seq<string> := ["Documents", "Desktop", "Downloads"]
  const SystemFolders: seq<Path> := ["C:\\Users\\Public\\Documents", "C:\\temp", "C:\\"]

  /** Each folder joined onto `home`, in order. */
  function UnderHome(home: Path, folders: seq<string>): (r: seq<Path>)
    ensures |r| == |folders| && forall i :: 0 <= i < |r| ==> r[i] == JoinPath(home, folders[i])
  {
    Map(folders, (f: string) => JoinPath(home, f))
  }

  /** The fixed search order: the home directory and three folders below it, then three system folders. */
  function SearchLocations(home: Path): seq<Path> {
    [home] + UnderHome(home, HomeFolders) + SystemFolders
  }

  /** `name` exists under location `l`. */
  predicate ExistsUnder(l: Path, name: string, fs: FileSystem) {
    JoinPath(l, name) in fs
  }

  /** The first location under which `name` exists. */
  function FirstExisting(locations: seq<Path>, name: string, fs: FileSystem): (r: Option<Path>)
    ensures r.Some? ==> r.value in fs
    ensures r.Some? ==> exists i :: 0 <= i < |locations| && r.value == JoinPath(locations[i], name)
                                 && forall j :: 0 <= j < i ==> JoinPath(locations[j], name) !in fs
    ensures r.None? <==> forall i :: 0 <= i < |locations| ==> JoinPath(locations[i], name) !in fs
  {
    match FirstIndex(locations, (l: Path) => ExistsUnder(l, name, fs))
    case None => None
    case Some(i) => Some(JoinPath(locations[i], name))
  }

  /** Nothing is found for a name without a spreadsheet extension; otherwise the first hit in search order. */
  function FileByName(name: string, home: Path, fs: FileSystem): Option<Path> {
    if HasExt(name, SearchExts) then FirstExisting(SearchLocations(home), name, fs) else None
  }

  /** A file found by name has a spreadsheet extension, exists, and is that name under some location. */
  lemma FileByNameFound(name: string, home: Path, fs: FileSystem)
    ensures var r := FileByName(name, home, fs);
      r.Some? ==> HasExt(name, SearchExts) && r.value in fs && EndsWith(r.value, name)
  {
    var r := FileByName(name, home, fs);
    if r.Some? {
      var locations := SearchLocations(home);
      var i :| 0 <= i < |locations| && r.value == JoinPath(locations[i], name);
      JoinPathEnds(locations[i], name);
    }
  }

  method FindFileByName(filename: string, home: Path, fs: FileSystem) returns (found: Option<Path>)
    ensures found == FileByName(filename, home, fs)
  {
    if !HasExt(filename, SearchExts) {
      return None;
    }
    var locations := SearchLocations(home);
    found := FindFirstExisting(locations, filename, fs);
  }

  method FindFirstExisting(locations: seq<Path>, filename: string, fs: FileSystem) returns (found: Option<Path>)
    ensures found == FirstExisting(locations, filename, fs)
  {
    var i := 0;
    while i < |locations|
      invariant 0 <= i <= |locations|
      invariant forall j :: 0 <= j < i ==> !ExistsUnder(locations[j], filename, fs)
    {
      var fullPath := JoinPath(locations[i], filename);
      if fullPath in fs {
        FirstIndexIs(locations, (l: Path) => ExistsUnder(l, filename, fs), i);
        return Some(fullPath);
      }
      i := i + 1;
    }
    return None;
  }

  // ---------------------------------------------------------------- grouping by process

  function WindowsOf(infos: seq<WindowInfo>, p: Pid): (r: seq<WindowInfo>)
    ensures forall x :: x in r <==> x in infos && x.pid == p
  {
    var r := Filter(infos, (x: WindowInfo) => x.pid == p);
    forall x ensures x in r <==> x in infos && x.pid == p {
      FilterMember(infos, (x: WindowInfo) => x.pid == p, x);
    }
    r
  }

  /** Each window is listed under its own pid as many times as it occurs, and under no other pid. */
  lemma WindowsOfPartition(infos: seq<WindowInfo>, p: Pid, x: WindowInfo)
    ensures multiset(WindowsOf(infos, p))[x] == if x.pid == p then multiset(infos)[x] else 0
  {
    FilterMultiplicity(infos, (x: WindowInfo) => x.pid == p, x);
  }

  lemma {:induction false} WindowsOfAbsent(infos: seq<WindowInfo>, p: Pid)
    requires forall x :: x in infos ==> x.pid != p
    ensures WindowsOf(infos, p) == []
  {
    if |infos| > 0 {
      WindowsOfAbsent(infos[..|infos| - 1], p);
    }
  }

  lemma WindowsOfSnoc(infos: seq<WindowInfo>, x: WindowInfo, p: Pid)
    ensures WindowsOf(infos + [x], p) == WindowsOf(infos, p) + if x.pid == p then [x] else []
  {
    assert (infos + [x])[..|infos|] == infos;
  }

  /** `byPid` maps exactly the pids present in `infos`, each to its windows in order. */
  ghost predicate Grouped(byPid: map<Pid, seq<WindowInfo>>, infos: seq<WindowInfo>) {
    (forall p :: p in byPid <==> exists x :: x in infos && x.pid == p)
    && forall p :: p in byPid ==> byPid[p] == WindowsOf(infos, p)
  }

  /** Appending one window to its pid's list keeps the grouping in step with the windows seen. */
  lemma GroupedSnoc(byPid: map<Pid, seq<WindowInfo>>, q: seq<WindowInfo>, x: WindowInfo)
    requires Grouped(byPid, q)
    ensures Grouped(byPid[x.pid := (if x.pid in byPid then byPid[x.pid] else []) + [x]], q + [x])
  {
    var m := byPid[x.pid := (if x.pid in byPid then byPid[x.pid] else []) + [x]];
    forall p ensures p in m <==> exists y :: y in q + [x] && y.pid == p {
      if p in byPid {
        var y :| y in q && y.pid == p;
        assert y in q + [x];
      }
      if p != x.pid && exists y :: y in q + [x] && y.pid == p {
        var y :| y in q + [x] && y.pid == p;
        assert y in q;
      }
    }
    forall p | p in m ensures m[p] == WindowsOf(q + [x], p) {
      WindowsOfSnoc(q, x, p);
      if p == x.pid && x.pid !in byPid {
        WindowsOfAbsent(q, p);
      }
    }
  }

  /** `windows_by_pid`: the windows of each pid, in enumeration order. */
  method GroupWindowsByPid(infos: seq<WindowInfo>) returns (byPid: map<Pid, seq<WindowInfo>>)
    ensures forall p :: p in byPid <==> exists x :: x in infos && x.pid == p
    ensures forall p :: p in byPid ==> byPid[p] == WindowsOf(infos, p)
  {
    byPid := map[];
    for i := 0 to |infos|
      invariant Grouped(byPid, infos[..i])
    {
      var x := infos[i];
      assert infos[..i + 1] == infos[..i] + [x];
      GroupedSnoc(byPid, infos[..i], x);
      if x.pid !in byPid {
        byPid := byPid[x.pid := []];
      }
      byPid := byPid[x.pid := byPid[x.pid] + [x]];
    }
    assert infos[..|infos|] == infos;
  }

  // ---------------------------------------------------------------- path accumulation

  /** What COM answers after activating a non-protected window. */
  datatype ComProbe = ComUnavailable | ComConnected(books: seq<BookRead>)

  /** A window at the time it is processed: gone (or hidden), or alive with its COM probe. */
  datatype WindowProbe = Vanished | Live(com: ComProbe)

  datatype ProbedWindow = ProbedWindow(info: WindowInfo, probe: WindowProbe)

  /** A title-derived path: only for a workbook extension, and only when the file is found. */
  function TitleFile(title: string, home: Path, fs: FileSystem): (r: set<Path>)
    ensures |r| <= 1
    ensures forall p :: p in r ==> p in fs && HasExt(TitleFilename(title), WorkbookExts)
  {
    var name := TitleFilename(title);
    if HasExt(name, WorkbookExts) then
      match FileByName(name, home, fs)
      case Some(p) => {p}
      case None => {}
    else {}
  }

  /** The saved workbooks' paths of one COM session, as a set. */
  function SavedSet(books: seq<BookRead>, fs: FileSystem): (r: set<Path>)
    ensures forall p :: p in r ==> p in fs
  {
    var r := set p | p in SavedPaths(books, fs);
    forall p | p in r ensures p in fs {
      SavedPathsSound(books, fs, p);
    }
    r
  }

  /** The paths one window contributes. */
  function WindowFiles(w: ProbedWindow, home: Path, fs: FileSystem): (r: set<Path>)
    ensures w.probe.Vanished? ==> r == {}
    ensures w.probe.Live? && w.info.isProtectedView ==>
      |r| <= 1 && forall p :: p in r ==> HasExt(TitleFilename(w.info.title), WorkbookExts)
    ensures forall p :: p in r ==> p in fs
  {
    match w.probe
    case Vanished => {}
    case Live(com) =>
      if w.info.isProtectedView then TitleFile(w.info.title, home, fs)
      else match com
        case ComConnected(books) => SavedSet(books, fs)
        case ComUnavailable => TitleFile(w.info.title, home, fs)
  }

  function AllFiles(ws: seq<ProbedWindow>, home: Path, fs: FileSystem): set<Path> {
    if |ws| == 0 then {} else AllFiles(ws[..|ws| - 1], home, fs) + WindowFiles(ws[|ws| - 1], home, fs)
  }

  /**
   * `extract_files_from_excel_instances`: gathers the paths of every window
   * into a set and returns them as a list, in no particular order.
   */
  method ExtractFilesFromExcelInstances(ws: seq<ProbedWindow>, home: Path, fs: FileSystem)
    returns (files: seq<Path>)
    ensures NoDup(files)
    ensures forall x :: x in files <==> x in AllFiles(ws, home, fs)
  {
    var infos := seq(|ws|, i requires 0 <= i < |ws| => ws[i].info);
    var byPid := GroupWindowsByPid(infos);
    var allFiles: set<Path> := {};
    for i := 0 to |ws|
      invariant allFiles == AllFiles(ws[..i], home, fs)
    {
      assert ws[..i + 1][..i] == ws[..i];
      var found := ProcessWindow(ws[i], home, fs);
      allFiles := allFiles + found;
    }
    assert ws[..|ws|] == ws;
    files := ListOf(allFiles);
  }

  /** The paths one window adds to the census: by title for protected view or without COM, else over COM. */
  method ProcessWindow(w: ProbedWindow, home: Path, fs: FileSystem) returns (found: set<Path>)
    ensures found == WindowFiles(w, home, fs)
  {
    found := {};
    if w.probe.Vanished? {
      return;
    }
    if w.info.isProtectedView {
      found := FileFromTitle(w.info.title, home, fs);
      return;
    }
    match w.probe.com {
      case ComConnected(books) =>
        found := FilesOverCom(books, fs);
      case ComUnavailable =>
        found := FileFromTitle(w.info.title, home, fs);
    }
  }

  /** The saved workbooks of the connected instance whose files exist. */
  method FilesOverCom(books: seq<BookRead>, fs: FileSystem) returns (found: set<Path>)
    ensures found == SavedSet(books, fs)
  {
    found := {};
    for k := 0 to |books|
      invariant forall p :: p in found <==> p in SavedPaths(books[..k], fs)
    {
      SavedPathsSnoc(books, k, fs);
      var add := SavedFileOf(books[k], fs);
      found := found + add;
    }
    assert books[..|books|] == books;
  }

  /** The full path of one workbook when it is saved and its file exists. */
  method SavedFileOf(b: BookRead, fs: FileSystem) returns (add: set<Path>)
    ensures forall p :: p in add <==> p in SavedPath(b, fs)
  {
    add := {};
    match b {
      case Unreadable =>
      case Readable(wb) =>
        if Strip(wb.path) != "" {
          var fullPath := JoinPath(wb.path, wb.name);
          if fullPath in fs {
            add := {fullPath};
          }
        }
    }
  }

  lemma SavedPathsSnoc(books: seq<BookRead>, k: nat, fs: FileSystem)
    requires k < |books|
    ensures forall p :: p in SavedPaths(books[..k + 1], fs) <==> p in SavedPaths(books[..k], fs) || p in SavedPath(books[k], fs)
  {
    assert books[..k + 1][..k] == books[..k];
    assert SavedPaths(books[..k + 1], fs) == SavedPaths(books[..k], fs) + SavedPath(books[k], fs);
  }

  method FileFromTitle(title: string, home: Path, fs: FileSystem) returns (found: set<Path>)
    ensures found == TitleFile(title, home, fs)
  {
    found := {};
    var filename := ExtractFilenameFromTitle(title);
    if HasExt(filename, WorkbookExts) {
      var filePath := FindFileByName(filename, home, fs);
      if filePath.Some? {
        found := {filePath.value};
      }
    }
  }

  /** The workbook extensions are among the extensions the file search accepts. */
  lemma WorkbookExtIsSearchExt(name: string)
    requires HasExt(name, WorkbookExts)
    ensures HasExt(name, SearchExts)
  {
    var i :| 0 <= i < |WorkbookExts| && EndsWith(name, WorkbookExts[i]);
    assert SearchExts[i] == WorkbookExts[i];
  }

  /** `list(s)`: every element of the set once, in an unspecified order. */
  method ListOf(s: set<Path>) returns (r: seq<Path>)
    ensures NoDup(r)
    ensures forall x :: x in r <==> x in s
  {
    r := [];
    var rest := s;
    while rest != {}
      invariant rest <= s
      invariant forall x :: x in r <==> x in s && x !in rest
      invariant NoDup(r)
      decreases |rest|
    {
      var x :| x in rest;
      r := r + [x];
      rest := rest - {x};
    }
  }
}

/** The title a.xlsx [Protected View] - Excel worked through the parser, step by step. */
module ToolV2OldTitleExample {
  import opened Strings
  import opened ToolV2Old

  lemma ExcelSuffixExample()
    ensures Before("a.xlsx [Protected View] - Excel", " - Excel") == "a.xlsx [Protected View]"
  {
    var t := "a.xlsx [Protected View] - Excel";
    var sep := " - Excel";
    assert t[23..31] == sep;
    forall k | 0 <= k < 23 ensures !OccursAt(t, sep, k) {
      assert t[k..k + 8][1] == t[k + 1];
    }
    IndexFromIs(t, sep, 0, 23);
  }

  lemma ProtectedMarkerExample()
    ensures RemoveAll("a.xlsx [Protected View]", " [Protected View]") == "a.xlsx"
  {
    var inner := "a.xlsx [Protected View]";
    var pat := " [Protected View]";
    assert inner[6..] == pat;
    forall k | 0 <= k < 6 ensures !OccursAt(inner, pat, k) {
      assert inner[k..k + 17][0] == inner[k];
    }
    ReplaceAllSkip(inner, pat, "", 6);
    assert inner[6..][17..] == [];
  }

  lemma OtherIndicatorsExample(inner: string)
    requires inner == "a.xlsx [Protected View]"
    ensures RemoveIndicators(inner, Indicators) == "a.xlsx"
  {
    var first := RemoveAll(inner, Indicators[0]);
    assert first == "a.xlsx" by {
      assert Indicators[0] == " [Protected View]";
      ProtectedMarkerExample();
    }
    assert RemoveIndicators(first, Indicators[1..]) == "a.xlsx" by {
      RemoveIndicatorsShort("a.xlsx", Indicators[1..]);
    }
    RemoveIndicatorsFirst(inner, Indicators);
  }

  lemma ProtectedViewTitleExample()
    ensures TitleFilename("a.xlsx [Protected View] - Excel") == "a.xlsx"
  {
    ExcelSuffixExample();
    OtherIndicatorsExample("a.xlsx [Protected View]");
    assert Strip("a.xlsx") == "a.xlsx";
  }
}
