# HanaDataAutomation decision layer in Dafny

HanaDataAutomation captures the unsaved "Book1"-style workbook that a
point-of-sale export leaves open in Excel. It saves the workbook to disk and
turns it into three profit reports: per account (or per item), per brand and
per "Brand : Category". The scripts differ in how they reach the workbook:

- `accountingToolv2.py` isolates the target Excel instance. It records the
  files open in the other instances, terminates those instances, saves and
  transforms the target over COM, and always reopens the recorded files. A
  set of `(workbook name, pid)` keys makes sure a window is handled once.
- `old_not_working/accountingToolv2.py` is an earlier census. It walks every
  Excel window and falls back to parsing the window title when COM is out of
  reach.
- `autosaver.py` finds the Book1 window, brings it to the foreground and
  saves it over DDE. `main.py` polls with it and runs the transform on the
  captured file.
- `tests/test5.py` minimises every other Excel window, tries four DDE save
  commands in order, falls back to a Ctrl+S keystroke, and always restores
  the minimised windows.
- `accountingToolv3.py` watches every Excel main window. It records the
  handles it has already captured.

The model works over an abstract snapshot of the host:

- windows, processes, COM workbook reads, and a file system mapping each path
  to its size (`host.dfy`);
- every answer of the operating system, COM, DDE or pandas as an explicit
  input: the workbooks seen on each census pass, the terminate calls that
  raise, the size of the file a save left, and how many report writes succeed.

The decisions on top of that snapshot are proved correct:

- window filtering, and title-to-filename parsing;
- the deduplicated census, and isolation that spares the target;
- restoration that never aborts;
- capture ordering, and the dedup sets;
- the structure of the tabular transform: left join, category filter, group
  sums and renamed columns (`reports.dfy`).

Where the script updates state step by step, the model is a method with a
loop, or a class. Examples are the census loop, the restore counters, the
watcher's processed set and the v3 `processed_hwnds` set. Each is proved
against a function of its inputs, and the lemmas about that function state
what the script promises.

Module layout:

- `Wrappers`, `Seqs` and `Strings` are generic helpers: Option, filter, map,
  first index, first-seen dedup, ASCII lowercase, strip, replace.
- `Host` is the snapshot.
- `Reports` is the transform.
- `ToolV2`, `ToolV2Old`, `Autosaver`, `Test5`, `CaptureMain` (main.py) and
  `ToolV3` follow the scripts one to one. The corrected save of the Findings
  table and the capture built on it (`Autosaver.SaveBook1DdeFresh`,
  `Autosaver.CaptureBook1Fresh`) stand beside the as-written members.

## Model

| member | source | states |
|---|---|---|
| Host.JoinPathEnds | accountingToolv2.py:84 | a joined path starts with the directory and ends with the file name |
| Host.JoinPathInjective | main.py:42-44 | two names joined onto the same folder give the same path only when the names are equal |
| Host.Basename | main.py:38-40 | the base name is a suffix of the path without a separator, and it is either the whole path or preceded by a separator, so it is exactly the text after the last separator |
| Host.SavedPath | accountingToolv2.py:78-94 | a workbook contributes a path exactly when its Name/Path can be read, its Path is not blank, and the joined file exists |
| Host.SavedPathsSound | accountingToolv2.py:76-94 | every scanned path belongs to a saved workbook of the pass whose file exists |
| Host.SavedPathsMember | accountingToolv2.py:76-94 | a path is scanned if and only if some workbook of the pass is saved under it and the file exists |
| Reports.JoinMatches | accountingToolv2.py:314 | one joined row per matching brand-map row, carrying that row's Brand and CATEGORY |
| Reports.LeftJoin | accountingToolv2.py:314 | reference definition of the left join on Item ID: each captured row in order, once per matching brand-map row or once with empty Brand and CATEGORY; its properties are the lemmas below |
| Reports.JoinOne | accountingToolv2.py:314 | each captured row yields at least one joined row, and every such row carries the captured row |
| Reports.LeftJoinKeepsEveryRow | accountingToolv2.py:314 | the left join on Item ID keeps every captured row |
| Reports.LeftJoinUnmatched | accountingToolv2.py:314 | a captured row without a match is kept, with an empty Brand and CATEGORY |
| Reports.NoMatches | accountingToolv2.py:314 | an Item ID absent from the brand map has no matches |
| Reports.UniqueMatches | accountingToolv2.py:314 | with distinct Item IDs in the brand map, a row has at most one match |
| Reports.ItemsConcat | accountingToolv2.py:314 | projecting joined rows back to their captured rows distributes over concatenation |
| Reports.LeftJoinPreservesRows | accountingToolv2.py:314 | with a deduplicated brand map, the join neither drops nor repeats a captured row, and keeps their order |
| Reports.JoinOneItems | accountingToolv2.py:314 | with a deduplicated brand map, a captured row joins to exactly one row |
| Reports.WithCategory | accountingToolv2.py:316 | `dropna(subset=["CATEGORY"])` keeps exactly the rows that have a CATEGORY |
| Reports.BrandCategoryLabel | accountingToolv2.py:317-319 | reference definition of the label `Brand + " : " + CATEGORY`, a missing cell printing as "nan"; CategoryReportKeys states what it selects |
| Reports.FirstItemNameIsFirst | accountingToolv2.py:335-337 | the "first" aggregation of Item Name is missing only when every row of the key lacks one; otherwise it is that key's earliest present name |
| Reports.RowsForKeys | accountingToolv2.py:335-345 | the report's key column is the list of keys it was built for |
| Reports.PresentKeysMember | accountingToolv2.py:335-345 | a key is among the present keys exactly when some row has that key |
| Reports.GroupSumOneRowPerKey | accountingToolv2.py:335-345 | a grouped report has no repeated key, and a key appears exactly when some input row has it; rows with a missing key are dropped |
| Reports.GroupSumRow | accountingToolv2.py:335-345 | each report row carries the Sale Price and Unit Cost sums over exactly the rows with its key, plus the first Item Name |
| Reports.RowsForAt | accountingToolv2.py:335-345 | row `i` of a report is the row of the `i`-th key |
| Reports.GroupSum | accountingToolv2.py:335-345 | reference definition of the group-by: one row per distinct present key in first-appearance order, with the sums and the first Item Name; GroupSumOneRowPerKey, GroupSumRow and GroupSumConservesTotals state its meaning |
| Reports.ReportTotalRowsFor | accountingToolv2.py:335-345 | a report's column total is the sum of its key totals |
| Reports.TotalAbsent | accountingToolv2.py:335-345 | a key no row has sums to zero |
| Reports.SumOverKeysSnoc | accountingToolv2.py:335-345 | adding one row changes the sum over distinct keys by that row's amount exactly when its key is among them |
| Reports.GroupSumConservesTotals | accountingToolv2.py:335-345 | sum conservation: each "Agg" column totals the amount over every input row whose key is present |
| Reports.KeysTotal | accountingToolv2.py:335-345 | summing the per-key totals over the distinct keys gives the total over rows with a present key |
| Reports.GroupKeysSnoc | accountingToolv2.py:335-345 | one more row extends the distinct-key list by that row's key when the key is new and present |
| Reports.KeysTotalSnoc | accountingToolv2.py:335-345 | conservation is kept when a row is added |
| Reports.CategoryReportKeys | accountingToolv2.py:316-319 | a brand-category key is reported exactly when some joined row with a CATEGORY has the label `Brand + " : " + CATEGORY` |
| Reports.ReportColumns | accountingToolv2.py:323-332 | the header is the key column, the sums renamed to "Agg Sale Price" and "Agg Unit Cost" (the old names gone), and "Profit %" last; "Item Name" appears only in the per-item report |
| Reports.ProfitReport | accountingToolv2.py:322-345 | the report `calc_profit(df.groupby(col).agg(...))` of a frame grouped by a column; ProfitReportRows states its rows and header |
| Reports.Columns | accountingToolv2.py:322-332 | a written report's header is the renamed header of its key column |
| Reports.Rows | accountingToolv2.py:335-345 | a written report's rows are the grouped sums of its frame by its key column |
| Reports.ProfitReportRows | accountingToolv3.py:49-60 | `calc_profit`: one row per distinct present key, each with the sums over that key's rows, and the renamed header |
| ToolV2.FindUnsavedExcelWindows | accountingToolv2.py:27-40 | exactly the visible XLMAIN windows whose lowercased title starts with "book", in enumeration order |
| ToolV2.ExcelPids | accountingToolv2.py:42-48 | a pid is listed exactly when some process is named exactly "EXCEL.EXE" |
| ToolV2.GetAllExcelProcesses | accountingToolv2.py:42-48 | the EXCEL.EXE pids in listing order |
| ToolV2.Without | accountingToolv2.py:58 | the sibling list holds every listed pid except the target, and nothing else |
| ToolV2.CensusAttempts | accountingToolv2.py:57-69 | no census pass without siblings, otherwise at most min(3, number of siblings) passes |
| ToolV2.CaptureOpenFilesBeforeClosing | accountingToolv2.py:50-112 | the number of passes is CensusAttempts of the siblings, the files are the census of those passes, and one scan per pass is traced |
| ToolV2.ScanPass | accountingToolv2.py:76-94 | one pass lists the saved, existing workbook paths in workbook order; unreadable workbooks are skipped |
| ToolV2.AddNewFiles | accountingToolv2.py:96-99 | appends exactly the paths not listed yet, in order |
| ToolV2.Census | accountingToolv2.py:66-99 | reference definition of the census: the passes' paths appended pass after pass without repeats; CensusNoDup, CensusMember, CensusKeepsOrder and CensusIsDedup state its meaning |
| ToolV2.CensusNoDup | accountingToolv2.py:96-99 | the census never lists a file twice |
| ToolV2.CensusMember | accountingToolv2.py:68-99 | a file is listed exactly when some pass saw it |
| ToolV2.CensusKeepsOrder | accountingToolv2.py:96-99 | a later pass only appends; earlier entries keep their positions |
| ToolV2.CensusIsDedup | accountingToolv2.py:66-99 | the census is the first-seen deduplication of everything the passes saw |
| ToolV2.ClosedPids | accountingToolv2.py:133-141 | the closed pids are the siblings whose terminate did not raise |
| ToolV2.CloseOtherExcelProcesses | accountingToolv2.py:114-148 | the census runs on its own process snapshot before the siblings of a second snapshot are terminated; it returns the census files and the pids that closed |
| ToolV2.TerminateEach | accountingToolv2.py:133-141 | each sibling is requested in turn; a raising request is skipped |
| ToolV2.IsolationTrace | accountingToolv2.py:114-141 | reference definition of the isolation events: one scan per census pass, then one terminate request per sibling of the second snapshot |
| ToolV2.IsolationEventKinds | accountingToolv2.py:114-141 | isolation emits only census scans and terminate requests |
| ToolV2.IsolationSparesTarget | accountingToolv2.py:114-141 | the target pid is never terminated nor reported closed, and no terminate request precedes a census scan |
| ToolV2.RestoreFailures | accountingToolv2.py:163-183 | a path is reported failed exactly when it is gone from disk or its open raised |
| ToolV2.OpenEvents | accountingToolv2.py:168-175 | an open request is made exactly for the listed paths that still exist; a missing file is never opened |
| ToolV2.RestoreExcelFiles | accountingToolv2.py:150-191 | the opened counter, the failed list and the open requests of the whole batch, which never aborts |
| ToolV2.RestoreAccountsForEveryFile | accountingToolv2.py:160-183 | every input path counts once: opened plus failed equals the number of paths |
| ToolV2.FirstTarget | accountingToolv2.py:205-218 | the target has the title-derived name, starts with "book" and has an empty Path; it is the first readable such workbook, and there is none exactly when no readable workbook qualifies |
| ToolV2.FindTargetWorkbook | accountingToolv2.py:204-218 | the loop with `break` finds FirstTarget |
| ToolV2.ReportsV2 | accountingToolv2.py:314-345 | three reports: the joined frame grouped by Item ID, by Brand, and the rows with a CATEGORY grouped by "Brand : Category" |
| Reports.WriteThenOpen | accountingToolv2.py:355-364 | the file steps of a transform, defined once for both pipelines: the three reports written to their paths, then each path opened, six steps in that order |
| ToolV2.ReportSteps | accountingToolv2.py:355-364 | WriteThenOpen over this program's events: the three writes, then the three opens |
| ToolV2.TransformV2 | accountingToolv2.py:308-372 | success exactly when both tables load and all six file steps succeed; then ReportsV2 of the loaded tables is written to the three timestamped paths, each is opened, and the paths are returned; otherwise no paths, after the steps that did succeed, and no step at all when a table does not load |
| ToolV2.BrandCategoryReportKeys | accountingToolv2.py:316-345 | the brand-category report has a key exactly when a joined row with a CATEGORY carries that label |
| ToolV2.SaveEvents | accountingToolv2.py:235-296 | reference definition of the save-and-process events: SaveAs, then Close, then over a non-empty copy the transform's steps, then kill and removal after a successful transform; SaveEventsOrder states its order |
| ToolV2.SaveEventsOrder | accountingToolv2.py:251-290 | save first; the transform only over a saved, non-empty copy; kill and removal only after a successful transform; no census or sibling termination here |
| ToolV2.SaveAndProcessWorkbook | accountingToolv2.py:235-296 | success exactly when the copy is non-empty and the transform succeeds; then the reports are returned and `(name, pid)` is added for a non-empty name; on failure no reports and no key |
| ToolV2.TransformAndFinish | accountingToolv2.py:268-290 | after a good save: the transform's steps, then on success the kill, the key for a non-empty name and the removal of the copy, and the report paths |
| ToolV2.ProcessTargetWorkbook | accountingToolv2.py:193-233 | without COM or without a target workbook, nothing happens and `(False, [])` results; otherwise it is the save-and-process result and its events are exactly SaveEvents of the target; no census or terminate step |
| ToolV2.WorkbookName | accountingToolv2.py:393 | reference definition of the workbook name: the title before the first " - ", or the whole title |
| ToolV2.WorkbookNameStartsWithBook | accountingToolv2.py:393 | the text before the first " - " of a "book" title still starts with "book" |
| ToolV2.WorkbookNameNonEmpty | accountingToolv2.py:278-279 | the name of an unsaved window is never empty, so a successful save always records its key |
| ToolV2.FirstNewKey | accountingToolv2.py:392-397 | the first candidate whose `(name, pid)` key is not processed; none exactly when every key is processed |
| ToolV2.FindNewWindow | accountingToolv2.py:392-397 | the loop's skip-processed scan finds FirstNewKey |
| ToolV2.CycleEvents | accountingToolv2.py:402-418 | reference definition of one cycle's events: the isolation events, the processing events when the target is found, and the restore's open requests |
| ToolV2.CycleEventsOrder | accountingToolv2.py:402-418 | over a whole cycle, isolation comes first and is the only phase that scans or terminates; the target is never terminated; the transform runs exactly when the target was found and saved to a non-empty copy; the target is killed exactly when the cycle succeeds; the restore's open requests come last |
| ToolV2.RunCycle | accountingToolv2.py:402-418 | the trace is exactly CycleEvents: isolation, then processing, then a restore in `finally` that runs whatever processing did; the key is added only on success |
| ToolV2.Watcher.constructor | accountingToolv2.py:19 | the processed set starts empty |
| ToolV2.Watcher.Poll | accountingToolv2.py:384-427 | one poll handles at most the first new unsaved window, with exactly that window's CycleEvents as its trace; the set grows by exactly that key on success and is unchanged otherwise |
| ToolV2.HandledKeyIsNotRepeated | accountingToolv2.py:392-397 | over two successive polls, a key the first handled successfully, and so added to the set, is not handled by the second, whatever windows it sees |
| ToolV2.Watcher.Watch | accountingToolv2.py:384-430 | the handled keys, the successes and the final set are exactly those of the reference run Watched over the rounds; each handled key was new at the start, each success handled a key, no key handled successfully is handled in a later poll, and the set grows by exactly the keys handled successfully |
| ToolV2.Watched | accountingToolv2.py:384-427 | reference definition of the watch loop: each round handles the first unsaved window whose key is new to the set left by the earlier rounds, succeeds exactly when processing that workbook succeeds, and adds the key on success |
| ToolV2.WatchedKeeps | accountingToolv2.py:392-427 | the reference run keeps the watch invariant: handled keys are new and no success is handled again |
| ToolV2.WatchStep | accountingToolv2.py:392-427 | one more poll, which handles a key new to the current set and adds it only on success, keeps that watch invariant |
| ToolV2Old.WindowInfos | old_not_working/accountingToolv2.py:147-173 | exactly the visible XLMAIN windows of processes other than the target, in order |
| ToolV2Old.GetAllExcelWindowInfo | old_not_working/accountingToolv2.py:140-183 | the enumeration callback records WindowInfos |
| ToolV2Old.WindowInfosProperties | old_not_working/accountingToolv2.py:156-163 | the target pid is never recorded, and each flag is true exactly when its marker occurs in the title |
| ToolV2Old.RemoveIndicators | old_not_working/accountingToolv2.py:204-205 | deleting the indicators never lengthens the text |
| ToolV2Old.TitleFilename | old_not_working/accountingToolv2.py:185-207 | the parsed name is never longer than the title and has no leading or trailing whitespace |
| ToolV2Old.ExtractFilenameFromTitle | old_not_working/accountingToolv2.py:185-207 | the reassigning loop computes TitleFilename |
| ToolV2Old.TitleFilenamePlain | old_not_working/accountingToolv2.py:189-207 | a title without " - Excel" or any indicator is only stripped |
| ToolV2Old.RemoveIndicatorsAbsent | old_not_working/accountingToolv2.py:204-205 | indicators that do not occur leave the text unchanged |
| ToolV2Old.RemoveIndicatorsFirst | old_not_working/accountingToolv2.py:204-205 | the indicators are removed in list order: first one, then the rest |
| ToolV2Old.RemoveIndicatorsShort | old_not_working/accountingToolv2.py:204-205 | indicators longer than the text cannot occur in it |
| ToolV2Old.SearchLocations | old_not_working/accountingToolv2.py:217-225 | reference definition of the search order: the home directory, Documents, Desktop and Downloads under it, then the three system folders |
| ToolV2Old.FirstExisting | old_not_working/accountingToolv2.py:227-235 | the first location in list order where the joined file exists; none exactly when it exists under no location |
| ToolV2Old.FileByNameFound | old_not_working/accountingToolv2.py:209-235 | a found file has a .xlsx/.xls/.xlsm/.csv extension, exists, and is the name under some location; a name without one finds nothing |
| ToolV2Old.FindFileByName | old_not_working/accountingToolv2.py:209-235 | the early-return search computes FileByName |
| ToolV2Old.FindFirstExisting | old_not_working/accountingToolv2.py:227-235 | the location loop finds FirstExisting |
| ToolV2Old.WindowsOf | old_not_working/accountingToolv2.py:244-249 | a pid's list holds exactly the windows of that pid |
| ToolV2Old.WindowsOfPartition | old_not_working/accountingToolv2.py:244-249 | each window is listed under its own pid as often as it occurs, and under no other pid |
| ToolV2Old.WindowsOfAbsent | old_not_working/accountingToolv2.py:244-249 | a pid without windows has an empty list |
| ToolV2Old.WindowsOfSnoc | old_not_working/accountingToolv2.py:245-249 | appending a window extends only its own pid's list |
| ToolV2Old.GroupedSnoc | old_not_working/accountingToolv2.py:245-249 | one step of the dict-building loop keeps the grouping in step with the windows seen |
| ToolV2Old.GroupWindowsByPid | old_not_working/accountingToolv2.py:243-249 | `windows_by_pid` has a key exactly for each pid present, mapped to that pid's windows in order |
| ToolV2Old.TitleFile | old_not_working/accountingToolv2.py:310-321 | the title route adds at most one path, and only an existing file whose parsed name ends in .xlsx, .xls or .xlsm |
| ToolV2Old.SavedSet | old_not_working/accountingToolv2.py:357-371 | every COM-listed path exists |
| ToolV2Old.WindowFiles | old_not_working/accountingToolv2.py:279-405 | a vanished or hidden window contributes nothing, and a protected-view window contributes only its title file; every path exists |
| ToolV2Old.ExtractFilesFromExcelInstances | old_not_working/accountingToolv2.py:237-432 | the returned list has no duplicates and holds exactly the paths the windows contribute |
| ToolV2Old.ProcessWindow | old_not_working/accountingToolv2.py:279-413 | one window's contribution is WindowFiles |
| ToolV2Old.FilesOverCom | old_not_working/accountingToolv2.py:352-381 | the workbook loop collects SavedSet |
| ToolV2Old.SavedFileOf | old_not_working/accountingToolv2.py:358-371 | one workbook adds its path exactly when it is saved and the file exists |
| ToolV2Old.SavedPathsSnoc | old_not_working/accountingToolv2.py:357-371 | one more workbook adds exactly its own saved path |
| ToolV2Old.FileFromTitle | old_not_working/accountingToolv2.py:394-404 | the title fallback computes TitleFile |
| ToolV2Old.WorkbookExtIsSearchExt | old_not_working/accountingToolv2.py:313-314 | the workbook extensions are among those the file search accepts |
| ToolV2Old.ListOf | old_not_working/accountingToolv2.py:418 | `list(all_files)` holds each element of the set exactly once |
| ToolV2OldTitleExample.ExcelSuffixExample | old_not_working/accountingToolv2.py:190-191 | "a.xlsx [Protected View] - Excel" keeps "a.xlsx [Protected View]" before " - Excel" |
| ToolV2OldTitleExample.ProtectedMarkerExample | old_not_working/accountingToolv2.py:197 | deleting " [Protected View]" leaves "a.xlsx" |
| ToolV2OldTitleExample.OtherIndicatorsExample | old_not_working/accountingToolv2.py:196-205 | the whole indicator list turns "a.xlsx [Protected View]" into "a.xlsx" |
| ToolV2OldTitleExample.ProtectedViewTitleExample | old_not_working/accountingToolv2.py:185-207 | the title "a.xlsx [Protected View] - Excel" parses to "a.xlsx" |
| Autosaver.ListExcelWindows | autosaver.py:15-25 | every XLMAIN window in enumeration order |
| Autosaver.IsBook1Window | autosaver.py:31-32 | reference definition of the Book1 filter: visible, lowercased title mentioning "book1" and not "captured_" |
| Autosaver.Book1Window | autosaver.py:27-34 | reference definition of the target: the first listed window passing IsBook1Window; Book1WindowIsFirst states its meaning |
| Autosaver.Book1WindowIsFirst | autosaver.py:27-34 | the target is the first visible XLMAIN window mentioning "book1" but not "captured_" (lowercased); there is none exactly when no window qualifies |
| Autosaver.FindBook1WindowFiltered | autosaver.py:27-34 | the early-return loop finds that window |
| Autosaver.IsBook1Available | autosaver.py:196-204 | available exactly when some XLMAIN window qualifies |
| Autosaver.BareName | autosaver.py:222-223 | reference definition of a title's bare name: every " - Excel" removed, then stripped |
| Autosaver.AvailableName | autosaver.py:216-228 | a window contributes a name exactly when it is visible, its process is excel.exe in any case, its title carries " - Excel", and the stripped name starts with "book" and not "captured_" |
| Autosaver.GetAvailableWorkbooks | autosaver.py:206-230 | the appending loop lists the names the XLMAIN windows contribute, in order |
| Autosaver.AvailableNamesMember | autosaver.py:216-228 | a name is listed exactly when some XLMAIN window contributes it |
| Autosaver.BringToForeground | autosaver.py:36-63 | true exactly when the target is the foreground window afterwards; false when the sequence raises |
| Autosaver.ClearExisting | autosaver.py:81-88 | the target file is removed unless removal fails; other files are untouched |
| Autosaver.AfterDde | autosaver.py:103 | the save touches no file but its target |
| Autosaver.DdeSave | autosaver.py:90-149 | the path is returned exactly when the command ran, the target is non-empty afterwards and the shutdown did not raise |
| Autosaver.SaveBook1Dde | autosaver.py:65-149 | as written: removing an existing target is best effort; the path is returned exactly when DDE ran, shut down cleanly and a non-empty file is at the target afterwards |
| Autosaver.StaleFileReported | autosaver.py:81-130 | a leftover non-empty file that cannot be removed is reported as the capture even when the save wrote nothing |
| Autosaver.SaveBook1DdeFresh | autosaver.py:81-130 | corrected: a reported path is always a non-empty file this save wrote over a cleared target |
| Autosaver.CaptureBook1 | autosaver.py:151-194 | nothing without a target (pid falsy) or, when verbose, without the foreground; otherwise the result of the save as written, so a leftover file that could not be removed is reported |
| Autosaver.CaptureBook1Fresh | autosaver.py:151-194 | the same capture over the corrected save: a reported path always holds the file this save wrote |
| Autosaver.AvailableButNotCaptured | autosaver.py:168-204 | a Book1 window under pid 0 counts as available, yet capture treats the falsy pid as no target |
| Test5.ExtractWorkbookName | tests/test5.py:10-15 | reference definition: every " - Excel" removed and stripped, or "UnknownWorkbook" without one; ExtractWorkbookNameShorter and UnknownNeverSelected state its properties |
| Test5.ExtractWorkbookNameShorter | tests/test5.py:10-15 | the extracted name is shorter than the title by at least " - Excel" |
| Test5.UnknownNeverSelected | tests/test5.py:13-15 | a title without " - Excel" never qualifies, since "UnknownWorkbook" does not start with "book" |
| Test5.UnsavedWindowIsFirst | tests/test5.py:29-41 | the target is the first visible XLMAIN window whose extracted lowercased name starts with "book" and not "captured_"; there is none exactly when no window qualifies |
| Test5.UnsavedWindowHasExcelSuffix | tests/test5.py:29-41 | the chosen window's title carries " - Excel" |
| Test5.FindBook1Window | tests/test5.py:29-41 | the early-return loop finds that window |
| Test5.MinimizeOtherExcelWindows | tests/test5.py:43-79 | the recorded windows and minimise requests are those of the listing, target and invisible windows excluded |
| Test5.MinimizeSparesTarget | tests/test5.py:51-68 | only visible Excel windows other than the target are minimised, and only those whose minimise answered truthy are recorded |
| Test5.RestoreMinimizedWindows | tests/test5.py:81-101 | an empty list is a no-op; otherwise every window is restored, without aborting |
| Test5.RestoreCoversAll | tests/test5.py:89-101 | every recorded window gets its placement back, and the SW_RESTORE fallback runs exactly for the windows where that raised |
| Test5.Take | tests/test5.py:126 | `s[:n]` is a prefix of at most `n` characters |
| Test5.CleanupStopped | tests/test5.py:143-155 | a cleanup ended by a raising `getmtime` removes nothing more |
| Test5.CleanupRemovesOnlyOld | tests/test5.py:143-153 | only "Captured_*.xlsx" files modified more than 3600 s ago are removed, and only when their removal works |
| Test5.CleanOldCaptures | tests/test5.py:142-155 | the listing loop removes what CleanupScan removes |
| Test5.PrepareSaveLocation | tests/test5.py:103-157 | nothing when the write test raises; otherwise the target path, the removed old captures and the cleared target file |
| Test5.SaveTarget | tests/test5.py:109-129 | reference definition of the save target: SAVE_FOLDER/"Captured_<name>_<ts>.xlsx", or the name with the 17-character microsecond timestamp when an existing file there cannot be removed |
| Test5.SaveTargetNamed | tests/test5.py:110-113 | without a leftover file in the way, the target is SAVE_FOLDER/"Captured_<name>_<ts>.xlsx" |
| Test5.SaveCommands | tests/test5.py:190-195 | the four DDE commands in the order they are tried |
| Test5.TrySaveCommands | tests/test5.py:197-238 | the first command that leaves an existing, non-empty file wins; the commands up to it are sent in order |
| Test5.SaveBook1ViaDde | tests/test5.py:159-261 | the prepared path exactly when preparing worked, DDE connected and some command saved; `None` on any failure; the trace is the `SW_RESTORE` of the target window once the location is prepared, then, once connected, the commands sent up to the first that saved, and nothing when the write test raised |
| Test5.CommandsInOrder | tests/test5.py:197-238 | a later command is tried only after the previous one saved nothing |
| Test5.ListWindows | tests/test5.py:303-308 | `main`'s listing raises exactly when some visible XLMAIN window's process lookup raises |
| Test5.SaveTraceShape | tests/test5.py:333-340 | once the location is prepared the save phase opens with the target window's `SW_RESTORE`; otherwise it holds only DDE commands and Ctrl+S; Ctrl+S is sent exactly when no command saved, and then last; a successful save ends with the command that saved |
| Test5.SaveWithFallback | tests/test5.py:333-340 | the DDE save when it succeeds, else SAVE_TRIGGERED when the keystroke fallback does not raise, else nothing; the trace is the DDE commands followed by Ctrl+S exactly when they saved nothing |
| Test5.RunMain | tests/test5.py:297-381 | ListingRaised exactly when a visible window's process lookup raises, NoTarget exactly when otherwise there is no target or its pid is 0, and in both cases nothing is minimised or traced; otherwise the saved path exactly when the DDE save succeeds, SAVE_TRIGGERED exactly when it fails and the keystroke does not raise, and the trace is exactly the minimise events, then the save phase of the target window, then the restore of exactly what was minimised |
| Test5.MainRestoresMinimized | tests/test5.py:377-381 | in a run with a target, every window recorded as minimised has its placement set again after the save phase, whatever the save did |
| CaptureMain.CalcProfitPercentageAccname | main.py:67-77 | a report grouped by Account Name for vernum 0, and None for any other vernum |
| CaptureMain.CalcProfitPercentageBrand | main.py:79-99 | grouped by Brand for 0, by "Brand : Category" for 1, and None otherwise |
| CaptureMain.MainReportsGrouping | main.py:27-35 | the three reports group by Account Name, by Brand, and by the label of exactly the rows with a CATEGORY |
| CaptureMain.ProcessedPaths | main.py:38-44 | three output paths under the processed folder, one per report prefix, each ending in the captured file's base name |
| CaptureMain.ProcessedPathsDistinct | main.py:38-44 | the three output paths are pairwise distinct for every input |
| CaptureMain.TransformExcelFile | main.py:19-65 | true only after all three writes and opens, on the processed paths; an exception gives false after the steps that succeeded |
| CaptureMain.CaptureSucceeds | main.py:173 | reference definition: `capture_book1` reports a path, that is the target is found and brought forward, DDE saves and shuts down cleanly, and a non-empty file is at the capture path afterwards, a stale one included |
| CaptureMain.CaptureOnce | main.py:165-187 | the saved path exactly when the capture as written and the transform both succeed; None otherwise |
| CaptureMain.AutoCaptureAndTransform | main.py:101-163 | the reported notes and the `last_check_failed` flag over a run of polls |
| CaptureMain.LastCheckFailed | main.py:110-151 | reference definition of the flag: set by a miss, cleared by a detection, kept by a poll that raised; LastCheckFailedMeans states its meaning |
| CaptureMain.LastCheckFailedMeans | main.py:110-151 | the flag is clear exactly when every miss so far was followed by a detection |
| CaptureMain.WaitingReported | main.py:147-151 | a poll prints "waiting" exactly when it misses and the flag was clear |
| ToolV3.ReportPathsDistinct | accountingToolv3.py:77-81 | the three report paths share one timestamp and are pairwise distinct |
| ToolV3.ReportFilesShape | accountingToolv3.py:62-81 | the reports by_account, by_brand and by_brcat, written to PROCESSED_DIR/"{key}_{ts}.xlsx"; by_brcat is built only from rows with a CATEGORY |
| ToolV3.Transform | accountingToolv3.py:62-81 | the writes of the three reports in order, up to the first that raises; success exactly when both tables load and all writes succeed |
| ToolV3.CaptureProgress | accountingToolv3.py:102-110 | at most four steps succeed, and all four exactly when save, close, transform and removal succeed |
| ToolV3.CaptureStepsOutcome | accountingToolv3.py:102-110 | save first, removal last; the handle is done exactly when all four steps succeed; the transform runs only on a saved and closed copy; an incomplete capture never removes the copy |
| ToolV3.Visit | accountingToolv3.py:88-110 | reference definition of one callback: skip a non-XLMAIN, processed or non-"book" window, a missing app or a saved workbook; raise on a raising ActiveWorkbook; otherwise the capture steps |
| ToolV3.VisitOutcome | accountingToolv3.py:88-110 | the callback acts only on an unprocessed XLMAIN "book" window whose active workbook is unsaved; it records the handle exactly on full success; a raising ActiveWorkbook is the only exception out of it |
| ToolV3.Pass | accountingToolv3.py:88-112 | reference definition of one EnumWindows pass: the callbacks in order, threading the processed set, ended by the first that raises |
| ToolV3.PassMonotone | accountingToolv3.py:108 | the processed set only grows |
| ToolV3.PassAddsOnlyFullSuccess | accountingToolv3.py:102-108 | a newly recorded handle belongs to a window of the pass that was captured in full |
| ToolV3.PassRecordsFullSuccess | accountingToolv3.py:102-108 | a pass that does not raise records every window it captured in full |
| ToolV3.PassSkipsProcessed | accountingToolv3.py:88-99 | every step of a pass belongs to a watched window whose handle was unprocessed at the start of the pass and whose active workbook is unsaved |
| ToolV3.PassCapturesOnce | accountingToolv3.py:91-108 | within a pass, after a window's copy was removed, nothing acts for that window again |
| ToolV3.WatcherV3.constructor | accountingToolv3.py:84 | `processed_hwnds` starts empty |
| ToolV3.WatcherV3.CaptureWindow | accountingToolv3.py:100-110 | the `try` block's steps up to the first that raises, and the report writes the transform made |
| ToolV3.WatcherV3.Enum | accountingToolv3.py:88-110 | one callback: its steps and exception, and the handle added exactly when the capture completes |
| ToolV3.WatcherV3.EnumPass | accountingToolv3.py:112 | one `EnumWindows` pass, stopping at the first callback that raises |
| ToolV3.WatchedCapturesOnce | accountingToolv3.py:84-113 | across a run of passes, nothing acts for a handle processed before the run, and a captured window is never captured again |
| ToolV3.Watch | accountingToolv3.py:86-113 | the watch loop runs pass after pass and stops when a pass raises |

## Left out

- Win32 enumeration, activation, minimise/restore and foreground calls, COM binding, `AccessibleObjectFromWindow`, DDE conversations, psutil, `os.startfile`, `os.remove`, `os.makedirs`, pandas reads and writes: all are foreign calls or I/O. Their results are inputs (snapshots, failure sets, sizes, step counts), and the model sees only success or failure.
- `time.sleep`, `pythoncom.CoInitialize`, logging and `print`: they have no effect on the decisions.
- Clocks: every `strftime` timestamp is a string input.
- The "Profit %" column: float division, `round(2)` and `astype(str) + "%"` are float numerics. A zero Sale Price gives inf or NaN in pandas, not an error, so it is not modelled as a failure. Money columns are integers.
- Reports.GroupSum: pandas `groupby` sorts its keys; the model keeps them in first-appearance order. The report's keys, sums and header are stated; its row order is not. Rows whose key is missing are dropped, as pandas does by default, so a joined row with no Brand is absent from the per-brand report.
- Reports.LeftJoin: with a brand map that repeats an Item ID, the join repeats the captured row once per match, as pandas does. The no-drop, no-repeat lemma assumes distinct Item IDs.
- `sort_values(by="Item ID")` on the brand-category frame: it changes only row order before grouping, which the model does not state.
- Strings.Lower: only the ASCII letters are lowercased. Python's `str.lower()` also maps other letters, for instance the Kelvin sign U+212A to "k", so a title that is a "book" title only under Unicode lowercasing is not one here. Strings.Strip follows Python's `str.isspace()`, Unicode spaces included.
- Host.Basename: `ntpath.basename` also splits after a drive colon ("C:x.xlsx"); the model splits only at separators.
- Host.JoinPath: only the relative-name case of `ntpath.join` is modelled; an absolute or drive-qualified second argument is not.
- Host.Window: `GetWindowThreadProcessId` and `GetClassName` failures inside the enumeration callbacks are not modelled. A window is always reported with its pid and class.
- ToolV2: `kill_excel_process`'s termination and wait are effects in the trace; a failure there is caught by the source and changes nothing.
- ToolV2.Watcher.Watch: the `while True` loop is a finite run of polls, one round of windows and host answers each; the two-second waits are left out. Its contract ties the handled keys, the successes and the set to the rounds through Watched; it does not state each poll's trace, which Poll states.
- ToolV2Old: the census, isolation and restore functions after line 434 (`capture_open_files_before_closing`, `close_other_excel_processes`, `restore_excel_files`, the protected-view and activation helpers and the watch loop) are not modelled. They repeat the accountingToolv2.py logic modelled in ToolV2. `reliable_window_activation` and the PID diagnostics of lines 336-349 are likewise left out; they only print.
- ToolV2Old.GetAllExcelWindowInfo: the first definition at line 50 is not modelled, because the one at line 140 replaces it. The `all_pids` set feeds only a `print`.
- Autosaver: the pandas verification read at autosaver.py:117-122 is left out; it only prints.
- Test5.RunMain: the window snapshot is read once for listing, finding and minimising. The script calls `list_excel_windows` three times; modelling that would need three snapshots.
- Test5.RunMain: the size and pandas check of the saved file at tests/test5.py:346-368 only prints.
- Test5.SaveWithFallback: the keystroke fallback is one boolean input and one `SendCtrlS` event, which stands for the restore of the window and the four posted key messages; a keystroke that raises part-way is not distinguished.
- Test5.CleanupScan: the directory listing is an input, not tied to the file-system map.
- CaptureMain.AutoCaptureAndTransform: each poll's capture result is an input; KeyboardInterrupt ends the input run.
- ToolV3.WatcherV3.Enum: `app_from_hwnd` raising an exception other than `OSError` is not modelled. Reading `ActiveWorkbook` raising ends the pass and, as it is outside any `try`, the program.
- ToolV3.Watch: the `while True` loop until Ctrl+C is a finite run of passes.
- ToolV3.VisitOutcome: the report contents are not embedded in the window-level steps. Transform and WatcherV3.CaptureWindow return them.
- ToolV3.IsWatchedWindow: the script does not check visibility, and neither does the model.
- Where the documentation and the code disagree, the model follows the code:
  - groupby drops null keys;
  - a zero Sale Price is not a failure;
  - main.py's "id" report groups by Account Name;
  - accountingToolv2.py's per-item report groups by Item ID and keeps the first Item Name.

## Findings

| source | as written | input that shows it | evidently intended | confidence | as-written member | corrected member |
|---|---|---|---|---|---|---|
| autosaver.py:81-130 | a failed removal of the existing target file is ignored, and success is judged only by a non-empty file at the path afterwards | a leftover non-empty "Captured_<minute>.xlsx" that cannot be removed, and a DDE save that writes nothing: the stale file's path is returned as the capture | report only a file this save wrote | low, not executed | Autosaver.StaleFileReported | Autosaver.SaveBook1DdeFresh |
