/**
 * The abstract snapshot of host state the decision layer reads: top-level
 * windows, processes, the workbooks an Excel instance reports over COM, and
 * the file system as a map from path to size. Every live OS or COM call of the
 * scripts becomes a value of these types, passed in by the caller.
 */
module Host {
  import opened Strings
  import opened Seqs

  type Pid = int
  type Hwnd = int
  type Path = string

  /** A top-level window as `EnumWindows` reports it. */
  datatype Window = Window(pid: Pid, hwnd: Hwnd, title: string, visible: bool, className: string)

  /** A process as `psutil.process_iter(['pid', 'name'])` reports it. */
  datatype Process = Process(pid: Pid, name: string)

  /** A workbook of an Excel instance: `Name` and `Path` (`""` while unsaved). */
  datatype Workbook = Workbook(name: string, path: string)

  /** Reading `wb.Name` / `wb.Path` over COM either works or raises. */
  datatype BookRead = Readable(book: Workbook) | Unreadable

  /** The files that exist, each with its size in bytes. */
  type FileSystem = map<Path, nat>

  const ExcelWindowClass: string := "XLMAIN"

  predicate IsSep(c: char) {
    c == '\\' || c == '/'
  }

  /** `os.path.join(dir, name)` on Windows, for a relative `name`. */
  function JoinPath(dir: string, name: string): Path {
    if dir == [] || IsSep(dir[|dir| - 1]) then dir + name else dir + "\\" + name
  }

  /** The joined path starts with the directory and ends with the name. */
  lemma JoinPathEnds(dir: string, name: string)
    ensures StartsWith(JoinPath(dir, name), dir) && EndsWith(JoinPath(dir, name), name)
  {
    var p := JoinPath(dir, name);
    assert p[|p| - |name|..] == name;
  }

  /** Two names joined onto the same directory give the same path only if they are equal. */
  lemma JoinPathInjective(dir: string, a: string, b: string)
    requires JoinPath(dir, a) == JoinPath(dir, b)
    ensures a == b
  {
    var p := JoinPath(dir, a);
    var k := |p| - |a|;
    JoinPathEnds(dir, a);
    JoinPathEnds(dir, b);
    assert |JoinPath(dir, b)| - |b| == k;
    assert a == p[k..] == b;
  }

  /**
   * `os.path.basename(p)`: the text after the last separator, which is the
   * whole path when it has no separator.
   */
  function Basename(p: Path): (r: string)
    ensures EndsWith(p, r)
    ensures forall i :: 0 <= i < |r| ==> !IsSep(r[i])
    ensures r == p || (|r| < |p| && IsSep(p[|p| - |r| - 1]))
  {
    if p == [] || IsSep(p[|p| - 1]) then []
    else
      var q := p[..|p| - 1];
      var r := Basename(q) + [p[|p| - 1]];
      assert p == q + [p[|p| - 1]];
      r
  }

  /** `os.path.exists(p) and os.path.getsize(p) > 0`. */
  predicate IsNonEmptyFile(fs: FileSystem, p: Path) {
    p in fs && fs[p] > 0
  }

  /** `x` is the joined path of a saved workbook (its path is not blank) whose file exists. */
  predicate IsSavedFile(b: BookRead, fs: FileSystem, x: Path) {
    b.Readable? && Strip(b.book.path) != "" && x == JoinPath(b.book.path, b.book.name) && x in fs
  }

  /** The path a workbook contributes to a scan. */
  function SavedPath(b: BookRead, fs: FileSystem): (r: seq<Path>)
    ensures forall x :: x in r <==> IsSavedFile(b, fs, x)
  {
    match b
    case Unreadable => []
    case Readable(wb) =>
      if Strip(wb.path) != "" && JoinPath(wb.path, wb.name) in fs then [JoinPath(wb.path, wb.name)] else []
  }

  /** The paths of the saved workbooks whose files exist, in workbook order. */
  function SavedPaths(books: seq<BookRead>, fs: FileSystem): seq<Path> {
    FlatMap(books, (b: BookRead) => SavedPath(b, fs))
  }

  /** Every scanned path is the path of a saved workbook whose file exists. */
  lemma SavedPathsSound(books: seq<BookRead>, fs: FileSystem, x: Path)
    ensures x in SavedPaths(books, fs) ==> exists i :: 0 <= i < |books| && IsSavedFile(books[i], fs, x)
  {
    FlatMapSound(books, (b: BookRead) => SavedPath(b, fs), x);
  }

  /** A path is scanned exactly when it is the path of a saved workbook whose file exists. */
  lemma SavedPathsMember(books: seq<BookRead>, fs: FileSystem, x: Path)
    ensures x in SavedPaths(books, fs) <==> exists i :: 0 <= i < |books| && IsSavedFile(books[i], fs, x)
  {
    SavedPathsSound(books, fs, x);
    if exists i :: 0 <= i < |books| && IsSavedFile(books[i], fs, x) {
      var i :| 0 <= i < |books| && IsSavedFile(books[i], fs, x);
      FlatMapComplete(books, (b: BookRead) => SavedPath(b, fs), x, i);
    }
  }
}
