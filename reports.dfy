/**
 * The tabular transform shared by the three pipelines: the captured sheet is
 * left-joined with the brand map on "Item ID", the rows with a CATEGORY are
 * labelled "Brand : Category", and each report groups rows by one key column
 * and sums "Sale Price" and "Unit Cost" under the names "Agg Sale Price" and
 * "Agg Unit Cost". Money columns are integers here; the float "Profit %"
 * column is not modelled.
 */
module Reports {
  import opened Wrappers
  import opened Seqs

  /** The columns of one captured row that the reports read; a missing cell is `None`. */
  datatype CapturedRow = CapturedRow(
    itemId: Option<string>, itemName: Option<string>, accountName: Option<string>,
    salePrice: int, unitCost: int)

  /** One row of the brand map csv: "Item ID", "Brand", "CATEGORY". */
  datatype BrandRow = BrandRow(itemId: Option<string>, brand: Option<string>, category: Option<string>)

  /** A row of `captured_df.merge(brand_map_df, on="Item ID", how="left")`. */
  datatype JoinedRow = JoinedRow(item: CapturedRow, brand: Option<string>, category: Option<string>)

  /** The two tables a transform reads, once both files were loaded. */
  datatype Tables = Tables(captured: seq<CapturedRow>, brandMap: seq<BrandRow>)

  datatype KeyColumn = ItemIdKey | AccountNameKey | BrandKey | BrandCategoryKey
  datatype Measure = SalePrice | UnitCost

  /** One output row: the group key, the two sums and, in the per-item report, the first Item Name. */
  datatype ReportRow = ReportRow(key: string, aggSalePrice: int, aggUnitCost: int, itemName: Option<string>)

  // ---------------------------------------------------------------- join

  /** The brand-map rows with the same Item ID; as in pandas, a missing Item ID matches a missing one. */
  function MatchesOf(brandMap: seq<BrandRow>, id: Option<string>): seq<BrandRow> {
    Filter(brandMap, (b: BrandRow) => b.itemId == id)
  }

  function JoinMatches(c: CapturedRow, ms: seq<BrandRow>): (r: seq<JoinedRow>)
    ensures |r| == |ms|
    ensures forall i :: 0 <= i < |r| ==> r[i] == JoinedRow(c, ms[i].brand, ms[i].category)
  {
    if |ms| == 0 then []
    else JoinMatches(c, ms[..|ms| - 1]) + [JoinedRow(c, ms[|ms| - 1].brand, ms[|ms| - 1].category)]
  }

  /** The joined rows of one captured row: one per matching brand-map row, or one with empty brand and category. */
  function JoinOne(c: CapturedRow, brandMap: seq<BrandRow>): (r: seq<JoinedRow>)
    ensures |r| >= 1
    ensures forall j :: 0 <= j < |r| ==> r[j].item == c
  {
    var ms := MatchesOf(brandMap, c.itemId);
    if ms == [] then [JoinedRow(c, None, None)] else JoinMatches(c, ms)
  }

  /** The left join on "Item ID", in the order of the captured rows. */
  function LeftJoin(captured: seq<CapturedRow>, brandMap: seq<BrandRow>): seq<JoinedRow> {
    if |captured| == 0 then []
    else LeftJoin(captured[..|captured| - 1], brandMap) + JoinOne(captured[|captured| - 1], brandMap)
  }

  /** The left join keeps every captured row: each one appears in the result. */
  lemma {:induction false} LeftJoinKeepsEveryRow(captured: seq<CapturedRow>, brandMap: seq<BrandRow>, i: nat)
    requires i < |captured|
    ensures exists j :: 0 <= j < |LeftJoin(captured, brandMap)| && LeftJoin(captured, brandMap)[j].item == captured[i]
  {
    var p := captured[..|captured| - 1];
    var one := JoinOne(captured[|captured| - 1], brandMap);
    if i < |captured| - 1 {
      LeftJoinKeepsEveryRow(p, brandMap, i);
      var j :| 0 <= j < |LeftJoin(p, brandMap)| && LeftJoin(p, brandMap)[j].item == p[i];
      assert LeftJoin(captured, brandMap)[j] == LeftJoin(p, brandMap)[j];
    } else {
      assert LeftJoin(captured, brandMap)[|LeftJoin(p, brandMap)|] == one[0];
    }
  }

  /** A captured row whose Item ID is not in the brand map is kept with an empty Brand and CATEGORY. */
  lemma LeftJoinUnmatched(captured: seq<CapturedRow>, brandMap: seq<BrandRow>, i: nat)
    requires i < |captured| && MatchesOf(brandMap, captured[i].itemId) == []
    ensures JoinedRow(captured[i], None, None) in LeftJoin(captured, brandMap)
  {
    if i < |captured| - 1 {
      LeftJoinUnmatched(captured[..|captured| - 1], brandMap, i);
    } else {
      assert JoinOne(captured[i], brandMap) == [JoinedRow(captured[i], None, None)];
    }
  }

  predicate UniqueItemIds(brandMap: seq<BrandRow>) {
    forall i, j :: 0 <= i < j < |brandMap| ==> brandMap[i].itemId != brandMap[j].itemId
  }

  lemma {:induction false} NoMatches(brandMap: seq<BrandRow>, id: Option<string>)
    requires forall k :: 0 <= k < |brandMap| ==> brandMap[k].itemId != id
    ensures MatchesOf(brandMap, id) == []
  {
    if |brandMap| > 0 {
      NoMatches(brandMap[..|brandMap| - 1], id);
    }
  }

  lemma {:induction false} UniqueMatches(brandMap: seq<BrandRow>, id: Option<string>)
    requires UniqueItemIds(brandMap)
    ensures |MatchesOf(brandMap, id)| <= 1
  {
    if |brandMap| > 0 {
      var p := brandMap[..|brandMap| - 1];
      if brandMap[|brandMap| - 1].itemId == id {
        assert forall k :: 0 <= k < |p| ==> p[k].itemId != id by {
          forall k | 0 <= k < |p| ensures p[k].itemId != id {
            assert p[k] == brandMap[k];
          }
        }
        NoMatches(p, id);
      } else {
        UniqueMatches(p, id);
      }
    }
  }

  /** The captured row of each joined row, in order. */
  function Items(rows: seq<JoinedRow>): (r: seq<CapturedRow>)
    ensures |r| == |rows|
  {
    if |rows| == 0 then [] else Items(rows[..|rows| - 1]) + [rows[|rows| - 1].item]
  }

  lemma {:induction false} ItemsConcat(a: seq<JoinedRow>, b: seq<JoinedRow>)
    ensures Items(a + b) == Items(a) + Items(b)
  {
    if |b| > 0 {
      var q := b[..|b| - 1];
      assert (a + b)[..|a + b| - 1] == a + q;
      ItemsConcat(a, q);
      assert Items(a + b) == Items(a + q) + [b[|b| - 1].item];
    } else {
      assert a + b == a;
    }
  }

  /**
   * With a deduplicated brand map (as the brand map csv is), the join neither
   * drops nor repeats a captured row: projecting it back gives the captured
   * sheet, in order.
   */
  lemma {:induction false} LeftJoinPreservesRows(captured: seq<CapturedRow>, brandMap: seq<BrandRow>)
    requires UniqueItemIds(brandMap)
    ensures Items(LeftJoin(captured, brandMap)) == captured
  {
    if |captured| > 0 {
      var p := captured[..|captured| - 1];
      var c := captured[|captured| - 1];
      var one := JoinOne(c, brandMap);
      LeftJoinPreservesRows(p, brandMap);
      JoinOneItems(c, brandMap);
      ItemsConcat(LeftJoin(p, brandMap), one);
      assert captured == p + [c];
    }
  }

  /** With a deduplicated brand map, one captured row joins to exactly one row. */
  lemma JoinOneItems(c: CapturedRow, brandMap: seq<BrandRow>)
    requires UniqueItemIds(brandMap)
    ensures Items(JoinOne(c, brandMap)) == [c]
  {
    var one := JoinOne(c, brandMap);
    UniqueMatches(brandMap, c.itemId);
    assert |one| == 1 && one[0].item == c;
    assert one[..0] == [];
  }

  // ---------------------------------------------------------------- brand : category

  /** `astype(str)` of a cell: a missing value prints as "nan". */
  function CellText(v: Option<string>): string {
    match v
    case Some(s) => s
    case None => "nan"
  }

  /** `df["Brand"].astype(str) + " : " + df["CATEGORY"].astype(str)`. */
  function BrandCategoryLabel(r: JoinedRow): string {
    CellText(r.brand) + " : " + CellText(r.category)
  }

  /** `df.dropna(subset=["CATEGORY"])`. */
  function WithCategory(rows: seq<JoinedRow>): (r: seq<JoinedRow>)
    ensures forall x :: x in r <==> x in rows && x.category.Some?
  {
    var r := Filter(rows, (x: JoinedRow) => x.category.Some?);
    forall x ensures x in r <==> x in rows && x.category.Some? {
      FilterMember(rows, (x: JoinedRow) => x.category.Some?, x);
    }
    r
  }

  // ---------------------------------------------------------------- group by

  /** The group key of a row; `None` when the key cell is missing. */
  function KeyOf(r: JoinedRow, col: KeyColumn): Option<string> {
    match col
    case ItemIdKey => r.item.itemId
    case AccountNameKey => r.item.accountName
    case BrandKey => r.brand
    case BrandCategoryKey => Some(BrandCategoryLabel(r))
  }

  function Amount(r: JoinedRow, m: Measure): int {
    match m
    case SalePrice => r.item.salePrice
    case UnitCost => r.item.unitCost
  }

  /** The present keys of the rows, in row order, with repeats. */
  function PresentKeys(rows: seq<JoinedRow>, col: KeyColumn): seq<string> {
    if |rows| == 0 then []
    else
      PresentKeys(rows[..|rows| - 1], col)
      + match KeyOf(rows[|rows| - 1], col) case Some(k) => [k] case None => []
  }

  /** The distinct present keys in order of first appearance; rows with a missing key are dropped. */
  function GroupKeys(rows: seq<JoinedRow>, col: KeyColumn): seq<string> {
    AppendNew([], PresentKeys(rows, col))
  }

  /** The sum of measure `m` over the rows whose key is `k`. */
  function Total(rows: seq<JoinedRow>, col: KeyColumn, k: string, m: Measure): int {
    if |rows| == 0 then 0
    else
      var last := rows[|rows| - 1];
      Total(rows[..|rows| - 1], col, k, m) + (if KeyOf(last, col) == Some(k) then Amount(last, m) else 0)
  }

  /** The sum of measure `m` over every row whose key is present. */
  function TotalPresent(rows: seq<JoinedRow>, col: KeyColumn, m: Measure): int {
    if |rows| == 0 then 0
    else
      var last := rows[|rows| - 1];
      TotalPresent(rows[..|rows| - 1], col, m) + (if KeyOf(last, col).Some? then Amount(last, m) else 0)
  }

  /** A row with key `k` whose Item Name is present. */
  predicate NamedWithKey(r: JoinedRow, col: KeyColumn, k: string) {
    KeyOf(r, col) == Some(k) && r.item.itemName.Some?
  }

  /** pandas' "first" aggregation: the first non-missing Item Name among the rows with key `k`. */
  function FirstItemName(rows: seq<JoinedRow>, col: KeyColumn, k: string): Option<string> {
    match FirstIndex(rows, (r: JoinedRow) => NamedWithKey(r, col, k))
    case None => None
    case Some(i) => rows[i].item.itemName
  }

  /** The first Item Name is missing only when every row with key `k` lacks one; otherwise it is the earliest present one. */
  lemma FirstItemNameIsFirst(rows: seq<JoinedRow>, col: KeyColumn, k: string)
    ensures var r := FirstItemName(rows, col, k);
      (r.None? <==> forall i :: 0 <= i < |rows| && KeyOf(rows[i], col) == Some(k) ==> rows[i].item.itemName.None?)
      && (r.Some? ==> exists i :: 0 <= i < |rows| && rows[i].item.itemName == r && KeyOf(rows[i], col) == Some(k)
                                 && forall j :: 0 <= j < i && KeyOf(rows[j], col) == Some(k) ==> rows[j].item.itemName.None?)
  {
    var f := (r: JoinedRow) => NamedWithKey(r, col, k);
    match FirstIndex(rows, f)
    case None =>
    case Some(i) =>
      assert f(rows[i]);
  }

  function RowFor(rows: seq<JoinedRow>, col: KeyColumn, k: string): ReportRow {
    ReportRow(k, Total(rows, col, k, SalePrice), Total(rows, col, k, UnitCost),
              if col == ItemIdKey then FirstItemName(rows, col, k) else None)
  }

  function RowsFor(ks: seq<string>, rows: seq<JoinedRow>, col: KeyColumn): (r: seq<ReportRow>)
    ensures |r| == |ks|
  {
    if |ks| == 0 then [] else RowsFor(ks[..|ks| - 1], rows, col) + [RowFor(rows, col, ks[|ks| - 1])]
  }

  /** `df.groupby(key, as_index=False).agg({"Sale Price": "sum", "Unit Cost": "sum"[, "Item Name": "first"]})`. */
  function GroupSum(rows: seq<JoinedRow>, col: KeyColumn): seq<ReportRow> {
    RowsFor(GroupKeys(rows, col), rows, col)
  }

  function ReportKeys(report: seq<ReportRow>): (r: seq<string>)
    ensures |r| == |report| && forall i :: 0 <= i < |r| ==> r[i] == report[i].key
  {
    if |report| == 0 then [] else ReportKeys(report[..|report| - 1]) + [report[|report| - 1].key]
  }

  function ReportTotal(report: seq<ReportRow>, m: Measure): int {
    if |report| == 0 then 0
    else
      var last := report[|report| - 1];
      ReportTotal(report[..|report| - 1], m) + (if m == SalePrice then last.aggSalePrice else last.aggUnitCost)
  }

  lemma RowsForKeys(ks: seq<string>, rows: seq<JoinedRow>, col: KeyColumn)
    ensures ReportKeys(RowsFor(ks, rows, col)) == ks
  {
    var r := ReportKeys(RowsFor(ks, rows, col));
    forall i | 0 <= i < |ks| ensures r[i] == ks[i] {
      RowsForAt(ks, rows, col, i);
    }
  }

  lemma {:induction false} PresentKeysMember(rows: seq<JoinedRow>, col: KeyColumn, k: string)
    ensures k in PresentKeys(rows, col) <==> exists i :: 0 <= i < |rows| && KeyOf(rows[i], col) == Some(k)
  {
    if |rows| > 0 {
      var p := rows[..|rows| - 1];
      PresentKeysMember(p, col, k);
      if exists i :: 0 <= i < |rows| && KeyOf(rows[i], col) == Some(k) {
        var i :| 0 <= i < |rows| && KeyOf(rows[i], col) == Some(k);
        if i < |p| {
          assert p[i] == rows[i];
        }
      }
    }
  }

  /**
   * Each report has one row per distinct key: its keys have no repeats and are
   * exactly the keys present in some input row (rows without a key are dropped).
   */
  lemma GroupSumOneRowPerKey(rows: seq<JoinedRow>, col: KeyColumn, k: string)
    ensures NoDup(ReportKeys(GroupSum(rows, col)))
    ensures k in ReportKeys(GroupSum(rows, col)) <==> exists i :: 0 <= i < |rows| && KeyOf(rows[i], col) == Some(k)
  {
    RowsForKeys(GroupKeys(rows, col), rows, col);
    AppendNewNoDup([], PresentKeys(rows, col));
    AppendNewMember([], PresentKeys(rows, col), k);
    PresentKeysMember(rows, col, k);
  }

  /** The report row of key `k` carries the sums over exactly the rows with key `k`. */
  lemma GroupSumRow(rows: seq<JoinedRow>, col: KeyColumn, i: nat)
    requires i < |GroupSum(rows, col)|
    ensures var row := GroupSum(rows, col)[i];
      row.aggSalePrice == Total(rows, col, row.key, SalePrice)
      && row.aggUnitCost == Total(rows, col, row.key, UnitCost)
      && (col == ItemIdKey ==> row.itemName == FirstItemName(rows, col, row.key))
  {
    RowsForAt(GroupKeys(rows, col), rows, col, i);
  }

  lemma {:induction false} RowsForAt(ks: seq<string>, rows: seq<JoinedRow>, col: KeyColumn, i: nat)
    requires i < |ks|
    ensures RowsFor(ks, rows, col)[i] == RowFor(rows, col, ks[i])
  {
    if i < |ks| - 1 {
      RowsForAt(ks[..|ks| - 1], rows, col, i);
    }
  }

  function SumOverKeys(ks: seq<string>, rows: seq<JoinedRow>, col: KeyColumn, m: Measure): int {
    if |ks| == 0 then 0 else SumOverKeys(ks[..|ks| - 1], rows, col, m) + Total(rows, col, ks[|ks| - 1], m)
  }

  lemma {:induction false} ReportTotalRowsFor(ks: seq<string>, rows: seq<JoinedRow>, col: KeyColumn, m: Measure)
    ensures ReportTotal(RowsFor(ks, rows, col), m) == SumOverKeys(ks, rows, col, m)
  {
    if |ks| > 0 {
      ReportTotalRowsFor(ks[..|ks| - 1], rows, col, m);
    }
  }

  lemma {:induction false} TotalAbsent(rows: seq<JoinedRow>, col: KeyColumn, k: string, m: Measure)
    requires k !in PresentKeys(rows, col)
    ensures Total(rows, col, k, m) == 0
  {
    if |rows| > 0 {
      TotalAbsent(rows[..|rows| - 1], col, k, m);
    }
  }

  /** Adding one row changes the sum over distinct keys by that row's amount iff its key is among them. */
  lemma {:induction false} SumOverKeysSnoc(ks: seq<string>, rows: seq<JoinedRow>, x: JoinedRow, col: KeyColumn, m: Measure)
    requires NoDup(ks)
    ensures SumOverKeys(ks, rows + [x], col, m)
      == SumOverKeys(ks, rows, col, m) + (if KeyOf(x, col).Some? && KeyOf(x, col).value in ks then Amount(x, m) else 0)
  {
    if |ks| > 0 {
      var p := ks[..|ks| - 1];
      SumOverKeysSnoc(p, rows, x, col, m);
      assert (rows + [x])[..|rows + [x]| - 1] == rows;
      assert KeyOf(x, col).Some? && KeyOf(x, col).value in ks <==>
        (KeyOf(x, col).Some? && KeyOf(x, col).value in p) || KeyOf(x, col) == Some(ks[|ks| - 1]);
    }
  }

  /**
   * Sum conservation: the report's "Agg" column adds up to the sum over every
   * input row whose key is present. Rows without a key contribute nothing,
   * as pandas drops them when grouping.
   */
  lemma {:induction false} GroupSumConservesTotals(rows: seq<JoinedRow>, col: KeyColumn, m: Measure)
    ensures ReportTotal(GroupSum(rows, col), m) == TotalPresent(rows, col, m)
  {
    ReportTotalRowsFor(GroupKeys(rows, col), rows, col, m);
    KeysTotal(rows, col, m);
  }

  lemma {:induction false} KeysTotal(rows: seq<JoinedRow>, col: KeyColumn, m: Measure)
    ensures SumOverKeys(GroupKeys(rows, col), rows, col, m) == TotalPresent(rows, col, m)
  {
    if |rows| > 0 {
      var p := rows[..|rows| - 1];
      var x := rows[|rows| - 1];
      assert rows == p + [x];
      KeysTotal(p, col, m);
      KeysTotalSnoc(p, x, col, m);
    }
  }

  /** One more row: the key list grows by that row's key when it is new. */
  lemma GroupKeysSnoc(p: seq<JoinedRow>, x: JoinedRow, col: KeyColumn)
    ensures GroupKeys(p + [x], col) ==
      if KeyOf(x, col).Some? && KeyOf(x, col).value !in GroupKeys(p, col) then GroupKeys(p, col) + [KeyOf(x, col).value]
      else GroupKeys(p, col)
  {
    assert (p + [x])[..|p + [x]| - 1] == p;
    var ps := PresentKeys(p, col);
    match KeyOf(x, col)
    case None =>
      assert PresentKeys(p + [x], col) == ps;
    case Some(k) =>
      assert PresentKeys(p + [x], col) == ps + [k];
      assert (ps + [k])[..|ps + [k]| - 1] == ps;
  }

  lemma KeysTotalSnoc(p: seq<JoinedRow>, x: JoinedRow, col: KeyColumn, m: Measure)
    requires SumOverKeys(GroupKeys(p, col), p, col, m) == TotalPresent(p, col, m)
    ensures SumOverKeys(GroupKeys(p + [x], col), p + [x], col, m) == TotalPresent(p + [x], col, m)
  {
    var ks := GroupKeys(p, col);
    var rows := p + [x];
    var a := if KeyOf(x, col).Some? then Amount(x, m) else 0;
    assert rows[..|rows| - 1] == p;
    assert TotalPresent(rows, col, m) == TotalPresent(p, col, m) + a;
    AppendNewNoDup([], PresentKeys(p, col));
    SumOverKeysSnoc(ks, p, x, col, m);
    GroupKeysSnoc(p, x, col);
    if KeyOf(x, col).Some? && KeyOf(x, col).value !in ks {
      var k := KeyOf(x, col).value;
      AppendNewMember([], PresentKeys(p, col), k);
      TotalAbsent(p, col, k, m);
      assert GroupKeys(rows, col) == ks + [k];
      assert SumOverKeys(ks, rows, col, m) == TotalPresent(p, col, m);
      assert Total(rows, col, k, m) == Total(p, col, k, m) + a;
      assert (ks + [k])[..|ks + [k]| - 1] == ks;
      assert SumOverKeys(ks + [k], rows, col, m) == SumOverKeys(ks, rows, col, m) + Total(rows, col, k, m);
    } else {
      assert GroupKeys(rows, col) == ks;
      assert SumOverKeys(ks, rows, col, m) == TotalPresent(p, col, m) + a;
    }
  }

  /** The brand-category report is built only from the rows that have a CATEGORY. */
  lemma CategoryReportKeys(df: seq<JoinedRow>, k: string)
    ensures k in ReportKeys(GroupSum(WithCategory(df), BrandCategoryKey))
      <==> exists row :: row in df && row.category.Some? && BrandCategoryLabel(row) == k
  {
    var cat := WithCategory(df);
    GroupSumOneRowPerKey(cat, BrandCategoryKey, k);
    if exists i :: 0 <= i < |cat| && KeyOf(cat[i], BrandCategoryKey) == Some(k) {
      var i :| 0 <= i < |cat| && KeyOf(cat[i], BrandCategoryKey) == Some(k);
      var row := cat[i];
      assert row in cat;
      assert row in df && row.category.Some? && BrandCategoryLabel(row) == k;
    }
    if exists row :: row in df && row.category.Some? && BrandCategoryLabel(row) == k {
      var row :| row in df && row.category.Some? && BrandCategoryLabel(row) == k;
      assert row in cat;
      var i :| 0 <= i < |cat| && cat[i] == row;
      assert KeyOf(cat[i], BrandCategoryKey) == Some(k);
    }
  }

  // ---------------------------------------------------------------- columns

  function KeyColumnName(col: KeyColumn): string {
    match col
    case ItemIdKey => "Item ID"
    case AccountNameKey => "Account Name"
    case BrandKey => "Brand"
    case BrandCategoryKey => "Brand : Category"
  }

  /** `rename(columns={"Sale Price": "Agg Sale Price", "Unit Cost": "Agg Unit Cost"})`. */
  function Renamed(c: string): string {
    if c == "Sale Price" then "Agg Sale Price"
    else if c == "Unit Cost" then "Agg Unit Cost"
    else c
  }

  /** The header of a report: the grouped columns plus "Profit %", after the rename. */
  function ReportColumns(col: KeyColumn): (r: seq<string>)
    ensures |r| >= 4
    ensures r[0] == KeyColumnName(col) && r[|r| - 1] == "Profit %"
    ensures "Agg Sale Price" in r && "Agg Unit Cost" in r
    ensures "Sale Price" !in r && "Unit Cost" !in r
    ensures ("Item Name" in r) <==> col == ItemIdKey
  {
    [Renamed(KeyColumnName(col)), Renamed("Sale Price"), Renamed("Unit Cost")]
    + (if col == ItemIdKey then [Renamed("Item Name")] else []) + ["Profit %"]
  }

  // ---------------------------------------------------------------- reports

  /**
   * A report as it is written: the frame it groups and the column it groups
   * by, which together fix its header and its rows.
   */
  datatype Report = Report(key: KeyColumn, source: seq<JoinedRow>)

  /** The header a report is written with. */
  function Columns(r: Report): seq<string> {
    ReportColumns(r.key)
  }

  /** The rows a report is written with. */
  function Rows(r: Report): seq<ReportRow> {
    GroupSum(r.source, r.key)
  }

  /** The report of `rows` grouped by `col`: its rows are the grouped sums, under the renamed header. */
  function ProfitReport(rows: seq<JoinedRow>, col: KeyColumn): Report {
    Report(col, rows)
  }

  /**
   * A report has one row per distinct present key, each carrying the sums of
   * Sale Price and Unit Cost over that key's rows, under "Agg Sale Price" and
   * "Agg Unit Cost".
   */
  lemma ProfitReportRows(rows: seq<JoinedRow>, col: KeyColumn, k: string, i: nat)
    ensures var r := ProfitReport(rows, col);
      && NoDup(ReportKeys(Rows(r)))
      && (k in ReportKeys(Rows(r)) <==> exists j :: 0 <= j < |rows| && KeyOf(rows[j], col) == Some(k))
      && (i < |Rows(r)| ==>
            Rows(r)[i].aggSalePrice == Total(rows, col, Rows(r)[i].key, SalePrice)
            && Rows(r)[i].aggUnitCost == Total(rows, col, Rows(r)[i].key, UnitCost))
      && Columns(r)[0] == KeyColumnName(col) && "Agg Sale Price" in Columns(r) && "Agg Unit Cost" in Columns(r)
  {
    GroupSumOneRowPerKey(rows, col, k);
    if i < |GroupSum(rows, col)| {
      GroupSumRow(rows, col, i);
    }
  }

  /**
   * The file steps of a transform, in the order both pipelines take them:
   * the three reports written to their paths, then each path opened.
   */
  function WriteThenOpen<S>(paths: seq<string>, reports: seq<Report>, write: (string, Report) -> S, open: string -> S): (r: seq<S>)
    requires |paths| == 3 && |reports| == 3
    ensures |r| == 6
    ensures forall i :: 0 <= i < 3 ==> r[i] == write(paths[i], reports[i]) && r[i + 3] == open(paths[i])
  {
    [write(paths[0], reports[0]), write(paths[1], reports[1]), write(paths[2], reports[2]),
     open(paths[0]), open(paths[1]), open(paths[2])]
  }
}
