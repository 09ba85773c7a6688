/** The sales-report page: the query it sends, the per-name revenue table it builds from
    the report rows, the totals it shows, and the commissions computed from the table. */
module SalesReportPage {
  import opened Common
  import opened InvoiceQueries

  // ------------------------------------------------------------------
  // The query.
  // ------------------------------------------------------------------

  /** The parameters of the request: both dates only for a custom pick with both dates set,
      the time frame otherwise. */
  function QueryParams(timeFrame: string, startDate: string, endDate: string): (r: seq<(string, string)>)
    ensures timeFrame == "custom" && startDate != "" && endDate != "" ==>
      r == [("startDate", startDate), ("endDate", endDate)]
    ensures !(timeFrame == "custom" && startDate != "" && endDate != "") ==> r == [("timeFrame", timeFrame)]
  {
    if timeFrame == "custom" && startDate != "" && endDate != "" then
      [("startDate", startDate), ("endDate", endDate)]
    else [("timeFrame", timeFrame)]
  }

  /** `searchParams.get(name) || undefined`, as the report route reads it. */
  function Param(params: seq<(string, string)>, name: string): (r: Option<string>)
    ensures r.Some? ==> r.value != "" && exists i :: 0 <= i < |params| && params[i] == (name, r.value)
  {
    if params == [] then None
    else if params[0].0 == name then (if params[0].1 == "" then None else Some(params[0].1))
    else Param(params[1..], name)
  }

  /** The query the report controller receives for the page's parameters. */
  function QueryOf(params: seq<(string, string)>): ReportQuery
  {
    ReportQuery(Param(params, "timeFrame"), Param(params, "startDate"), Param(params, "endDate"))
  }

  /** What the page asks for is what the controller reports on: a complete custom pick is
      its own range; a custom pick with a date missing sends the time frame "custom", which
      the controller does not know, so the report covers the current month; the named
      frames reach the controller unchanged. */
  lemma PageQueryRange(timeFrame: string, startDate: string, endDate: string, cal: Calendar)
    ensures var r := SelectRange(QueryOf(QueryParams(timeFrame, startDate, endDate)), cal);
      (timeFrame == "custom" && startDate != "" && endDate != "" ==> r == DateRange(startDate, endDate)) &&
      (timeFrame == "custom" && (startDate == "" || endDate == "") ==> r == ThisMonth(cal)) &&
      (timeFrame != "custom" ==> r == SelectRange(ReportQuery(Some(timeFrame), None, None), cal))
  {
    var params := QueryParams(timeFrame, startDate, endDate);
    if timeFrame == "custom" && startDate != "" && endDate != "" {
      assert Param(params, "timeFrame") == None;
      assert Param(params, "startDate") == Some(startDate);
      assert Param(params, "endDate") == Some(endDate);
    } else {
      assert Param(params, "startDate") == None;
      assert Param(params, "endDate") == None;
      if timeFrame == "custom" {
        UnknownTimeFrameIsThisMonth("custom", cal, None, None);
      }
    }
  }

  // ------------------------------------------------------------------
  // revenueMap: the report rows grouped by exact product name.
  // ------------------------------------------------------------------

  /** An entry of revenueMap; `id` is the number of names seen before it, plus one. */
  datatype Entry = Entry(id: nat, name: string, kilos: int, revenue: real)

  function EntryKilos(e: Entry): int { e.kilos }

  function EntryRevenue(e: Entry): real { e.revenue }

  function NamesOf(rows: seq<Row>): (r: seq<string>)
    ensures |r| == |rows| && forall i :: 0 <= i < |rows| ==> r[i] == rows[i].productName
  {
    seq(|rows|, i requires 0 <= i < |rows| => rows[i].productName)
  }

  function EntryNames(es: seq<Entry>): (r: seq<string>)
    ensures |r| == |es| && forall i :: 0 <= i < |es| ==> r[i] == es[i].name
  {
    seq(|es|, i requires 0 <= i < |es| => es[i].name)
  }

  /** The position of the entry named `name`, or `|es|` when there is none. */
  function IndexOfName(es: seq<Entry>, name: string): (i: nat)
    ensures i <= |es|
    ensures i < |es| ==> es[i].name == name
    ensures forall j :: 0 <= j < i ==> es[j].name != name
  {
    if es == [] then 0
    else if es[0].name == name then 0
    else 1 + IndexOfName(es[1..], name)
  }

  /** One call of the forEach body: a known name accumulates, a new one is appended. */
  function AddRow(es: seq<Entry>, item: Row): (r: seq<Entry>)
    ensures IndexOfName(es, item.productName) < |es| ==> |r| == |es|
    ensures IndexOfName(es, item.productName) == |es| ==> |r| == |es| + 1
  {
    var i := IndexOfName(es, item.productName);
    if i < |es| then
      es[i := es[i].(kilos := es[i].kilos + item.totalQuantity, revenue := es[i].revenue + item.totalRevenue)]
    else es + [Entry(|es| + 1, item.productName, item.totalQuantity, item.totalRevenue)]
  }

  /** `Object.values(revenueMap)` after the rows have been folded in. */
  function Grouped(rows: seq<Row>): seq<Entry>
  {
    if rows == [] then [] else AddRow(Grouped(rows[..|rows| - 1]), rows[|rows| - 1])
  }

  /** The kilos and the revenue of the rows carrying a name. */
  function NameKilos(rows: seq<Row>, name: string): int
  {
    if rows == [] then 0
    else NameKilos(rows[..|rows| - 1], name) + (if rows[|rows| - 1].productName == name then rows[|rows| - 1].totalQuantity else 0)
  }

  function NameRevenue(rows: seq<Row>, name: string): real
  {
    if rows == [] then 0.0
    else NameRevenue(rows[..|rows| - 1], name) + (if rows[|rows| - 1].productName == name then rows[|rows| - 1].totalRevenue else 0.0)
  }

  predicate DistinctNames(es: seq<Entry>)
  {
    forall a, b :: 0 <= a < b < |es| ==> es[a].name != es[b].name
  }

  /** The dictionary and its insertion-ordered keys hold exactly the entries `es`. */
  ghost predicate Mirrors(table: map<string, Entry>, keys: seq<string>, es: seq<Entry>)
  {
    |keys| == |es| && |table| == |keys| && (forall n :: n in table ==> n in keys) &&
    forall i :: 0 <= i < |keys| ==> keys[i] == es[i].name && keys[i] in table && table[keys[i]] == es[i]
  }

  /** Only the entry at `j` carries the name `name`. */
  predicate OnlyAt(es: seq<Entry>, j: nat, name: string)
  {
    j < |es| && es[j].name == name && forall k :: 0 <= k < |es| && k != j ==> es[k].name != name
  }

  /** A key of the dictionary is the name of exactly one entry. */
  lemma {:induction false} KeyPosition(table: map<string, Entry>, keys: seq<string>, es: seq<Entry>, name: string)
    returns (j: nat)
    requires Mirrors(table, keys, es) && DistinctNames(es) && name in table
    ensures OnlyAt(es, j, name)
  {
    j :| 0 <= j < |keys| && keys[j] == name;
    DistinctOnlyAt(es, j);
  }

  lemma DistinctOnlyAt(es: seq<Entry>, j: nat)
    requires DistinctNames(es) && j < |es|
    ensures OnlyAt(es, j, es[j].name)
  {
    forall k | 0 <= k < |es| && k != j
      ensures es[k].name != es[j].name
    {
      if k < j {
        assert es[k].name != es[j].name;
      } else {
        assert es[j].name != es[k].name;
      }
    }
  }

  /** A forEach step on a name already in the dictionary is one AddRow on the entries. */
  lemma {:induction false} MirrorKnown(table: map<string, Entry>, keys: seq<string>, es: seq<Entry>, item: Row, j: nat)
    requires Mirrors(table, keys, es) && OnlyAt(es, j, item.productName)
    ensures var e := table[item.productName];
      Mirrors(table[item.productName := e.(kilos := e.kilos + item.totalQuantity, revenue := e.revenue + item.totalRevenue)],
              keys, AddRow(es, item))
  {
    var name := item.productName;
    var e := table[name];
    var e' := e.(kilos := e.kilos + item.totalQuantity, revenue := e.revenue + item.totalRevenue);
    AddRowKnown(es, item, j);
    var r := es[j := e'];
    var t := table[name := e'];
    assert |t| == |table|;
    forall k | 0 <= k < |keys|
      ensures keys[k] == r[k].name && keys[k] in t && t[keys[k]] == r[k]
    {
      if k != j {
        assert es[k].name != name;
      }
    }
  }

  lemma {:induction false} AddRowKnown(es: seq<Entry>, item: Row, j: nat)
    requires OnlyAt(es, j, item.productName)
    ensures AddRow(es, item) ==
      es[j := es[j].(kilos := es[j].kilos + item.totalQuantity, revenue := es[j].revenue + item.totalRevenue)]
  {
    assert IndexOfName(es, item.productName) == j;
  }

  /** A forEach step on a new name is one AddRow on the entries. */
  lemma {:induction false} MirrorNew(table: map<string, Entry>, keys: seq<string>, es: seq<Entry>, item: Row)
    requires Mirrors(table, keys, es) && item.productName !in table
    ensures Mirrors(table[item.productName := Entry(|table| + 1, item.productName, item.totalQuantity, item.totalRevenue)],
                    keys + [item.productName], AddRow(es, item))
  {
    var name := item.productName;
    assert name !in keys;
    var g := Entry(|table| + 1, name, item.totalQuantity, item.totalRevenue);
    var t := table[name := g];
    var r := AddRow(es, item);
    assert r == es + [g];
    forall k | 0 <= k < |keys|
      ensures t[keys[k]] == r[k]
    {
      assert keys[k] != name;
    }
  }

  /** AddRow keeps the names distinct. */
  lemma {:induction false} AddRowDistinct(es: seq<Entry>, item: Row)
    requires DistinctNames(es)
    ensures DistinctNames(AddRow(es, item))
  {
    var i := IndexOfName(es, item.productName);
    var r := AddRow(es, item);
    if i == |es| {
      assert r == es + [r[|es|]];
    }
  }

  /** The body of the forEach: a known name has the row's quantity and revenue added to its
      entry; a new name gets an entry numbered one more than the keys so far. */
  method AddToMap(table: map<string, Entry>, keys: seq<string>, ghost es: seq<Entry>, item: Row)
    returns (table': map<string, Entry>, keys': seq<string>)
    requires Mirrors(table, keys, es) && DistinctNames(es)
    ensures Mirrors(table', keys', AddRow(es, item))
  {
    if item.productName in table {
      ghost var j := KeyPosition(table, keys, es, item.productName);
      MirrorKnown(table, keys, es, item, j);
      var e := table[item.productName];
      table' := table[item.productName := e.(kilos := e.kilos + item.totalQuantity, revenue := e.revenue + item.totalRevenue)];
      keys' := keys;
    } else {
      MirrorNew(table, keys, es, item);
      table' := table[item.productName := Entry(|table| + 1, item.productName, item.totalQuantity, item.totalRevenue)];
      keys' := keys + [item.productName];
    }
  }

  /** The loop of fetchSalesData over the dictionary: a map from name to entry, and the
      keys in insertion order, which is the order `Object.values` lists them in. */
  method BuildRevenueMap(rows: seq<Row>) returns (values: seq<Entry>)
    ensures values == Grouped(rows)
  {
    var table: map<string, Entry> := map[];
    var keys: seq<string> := [];
    ghost var es: seq<Entry> := [];
    var k := 0;
    while k < |rows|
      invariant 0 <= k <= |rows|
      invariant es == Grouped(rows[..k]) && DistinctNames(es)
      invariant Mirrors(table, keys, es)
    {
      assert rows[..k + 1][..k] == rows[..k];
      AddRowDistinct(es, rows[k]);
      table, keys := AddToMap(table, keys, es, rows[k]);
      es := AddRow(es, rows[k]);
      k := k + 1;
    }
    assert rows[..|rows|] == rows;
    values := ValuesInOrder(table, keys, es);
  }

  /** `Object.values`: the entries in key order. */
  function ValuesInOrder(table: map<string, Entry>, keys: seq<string>, ghost es: seq<Entry>): (values: seq<Entry>)
    requires Mirrors(table, keys, es)
    ensures values == es
  {
    seq(|keys|, i requires 0 <= i < |keys| => table[keys[i]])
  }

  /** The entries are the distinct names in order of first appearance, numbered 1..k. */
  lemma {:induction false} GroupedShape(rows: seq<Row>)
    ensures EntryNames(Grouped(rows)) == Distinct(NamesOf(rows))
    ensures forall i :: 0 <= i < |Grouped(rows)| ==> Grouped(rows)[i].id == i + 1
  {
    if rows != [] {
      var p := rows[..|rows| - 1];
      var item := rows[|rows| - 1];
      GroupedShape(p);
      var es := Grouped(p);
      assert NamesOf(rows)[..|rows| - 1] == NamesOf(p);
      var i := IndexOfName(es, item.productName);
      if i < |es| {
        assert EntryNames(es)[i] == item.productName;
        assert EntryNames(AddRow(es, item)) == EntryNames(es);
      } else {
        assert item.productName !in EntryNames(es);
        assert EntryNames(AddRow(es, item)) == EntryNames(es) + [item.productName];
      }
    }
  }

  lemma {:induction false} GroupedDistinct(rows: seq<Row>)
    ensures DistinctNames(Grouped(rows))
  {
    GroupedShape(rows);
    var es := Grouped(rows);
    assert forall a, b :: 0 <= a < b < |es| ==> EntryNames(es)[a] != EntryNames(es)[b];
  }

  /** A name no row carries has nothing summed for it. */
  lemma {:induction false} AbsentNameIsZero(rows: seq<Row>, name: string)
    requires forall k :: 0 <= k < |rows| ==> rows[k].productName != name
    ensures NameKilos(rows, name) == 0 && NameRevenue(rows, name) == 0.0
  {
    if rows != [] {
      AbsentNameIsZero(rows[..|rows| - 1], name);
    }
  }

  /** Every entry holds the sums of the rows with its name. */
  predicate Tallies(es: seq<Entry>, rows: seq<Row>)
  {
    forall i :: 0 <= i < |es| ==>
      es[i].kilos == NameKilos(rows, es[i].name) && es[i].revenue == NameRevenue(rows, es[i].name)
  }

  lemma {:induction false} TalliesStep(es: seq<Entry>, p: seq<Row>, item: Row)
    requires Tallies(es, p) && DistinctNames(es)
    requires IndexOfName(es, item.productName) == |es| ==> forall k :: 0 <= k < |p| ==> p[k].productName != item.productName
    ensures Tallies(AddRow(es, item), p + [item])
  {
    var rows := p + [item];
    assert rows[..|rows| - 1] == p;
    if IndexOfName(es, item.productName) == |es| {
      AbsentNameIsZero(p, item.productName);
    }
  }

  /** Each entry holds the summed kilos and revenue of exactly the rows with its name. */
  lemma {:induction false} GroupedSums(rows: seq<Row>)
    ensures Tallies(Grouped(rows), rows)
  {
    if rows != [] {
      var p := rows[..|rows| - 1];
      var item := rows[|rows| - 1];
      assert p + [item] == rows;
      GroupedSums(p);
      GroupedShape(p);
      GroupedDistinct(p);
      var es := Grouped(p);
      if IndexOfName(es, item.productName) == |es| {
        forall k | 0 <= k < |p|
          ensures p[k].productName != item.productName
        {
          assert NamesOf(p)[k] in EntryNames(es);
        }
      }
      TalliesStep(es, p, item);
    }
  }

  /** One row adds its quantity and revenue to the table's totals. */
  lemma {:induction false} AddRowSums(es: seq<Entry>, item: Row)
    ensures SumI(AddRow(es, item), EntryKilos) == SumI(es, EntryKilos) + item.totalQuantity
    ensures SumR(AddRow(es, item), EntryRevenue) == SumR(es, EntryRevenue) + item.totalRevenue
  {
    var i := IndexOfName(es, item.productName);
    if i < |es| {
      var e := es[i].(kilos := es[i].kilos + item.totalQuantity, revenue := es[i].revenue + item.totalRevenue);
      SumIUpdate(es, i, e, EntryKilos);
      SumRUpdate(es, i, e, EntryRevenue);
    } else {
      var r := AddRow(es, item);
      assert r[..|r| - 1] == es;
    }
  }

  /** Grouping neither loses nor invents kilos or revenue. */
  lemma {:induction false} GroupedConserves(rows: seq<Row>)
    ensures SumI(Grouped(rows), EntryKilos) == SumI(rows, RowQuantity)
    ensures SumR(Grouped(rows), EntryRevenue) == SumR(rows, RowRevenue)
  {
    if rows != [] {
      var p := rows[..|rows| - 1];
      GroupedConserves(p);
      AddRowSums(Grouped(p), rows[|rows| - 1]);
    }
  }

  // ------------------------------------------------------------------
  // getTotalStats.
  // ------------------------------------------------------------------

  /** getTotalStats: zeros for a value that is not an array or an empty one, else the
      component-wise sums of the rows. */
  function TotalStats(data: Fetched<Row>): (r: Summary)
    ensures data.NotArray? ==> r == Summary(0.0, 0, 0)
    ensures data.Rows? ==> r == SummaryOf(data.rows)
  {
    match data
    case NotArray => Summary(0.0, 0, 0)
    case Rows(rows) => if rows == [] then Summary(0.0, 0, 0) else SummaryOf(rows)
  }

  /** The revenue column of the per-name table adds up to the revenue the page reports, and
      the kilos to the quantity. */
  lemma TableMatchesStats(rows: seq<Row>)
    ensures SumR(Grouped(rows), EntryRevenue) == TotalStats(Rows(rows)).totalRevenue
    ensures SumI(Grouped(rows), EntryKilos) == TotalStats(Rows(rows)).totalQuantity
  {
    GroupedConserves(rows);
  }

  // ------------------------------------------------------------------
  // Commissions.
  // ------------------------------------------------------------------

  const BaseCommission: real := 50000.0

  predicate IsDust2(e: Entry)
  {
    ToLower(e.name) == "dust 2"
  }

  /** commissionDust2: the base commission per active month when some entry is "dust 2"
      in any letter case, else 0. */
  function CommissionDust2(es: seq<Entry>, activeMonths: int): (r: real)
    ensures (exists i :: 0 <= i < |es| && IsDust2(es[i])) ==> r == BaseCommission * activeMonths as real
    ensures (forall i :: 0 <= i < |es| ==> !IsDust2(es[i])) ==> r == 0.0
  {
    if es == [] then 0.0
    else if IsDust2(es[0]) then BaseCommission * activeMonths as real
    else CommissionDust2(es[1..], activeMonths)
  }

  /** What one entry earns under commissionCalculator. */
  function Earned(e: Entry, activeMonths: int): real
  {
    if IsDust2(e) then BaseCommission * activeMonths as real else e.revenue * 0.05
  }

  /** commissionCalculator: the reduce over the entries, from zero. */
  function CommissionCalculator(es: seq<Entry>, activeMonths: int): real
  {
    if es == [] then 0.0
    else CommissionCalculator(es[..|es| - 1], activeMonths) + Earned(es[|es| - 1], activeMonths)
  }

  /** The commission cell of a table row: the page's dust-2 commission for a dust-2 entry,
      5% of the revenue otherwise. */
  function Shown(e: Entry, dust2: real): real
  {
    if IsDust2(e) then dust2 else e.revenue * 0.05
  }

  /** The sum of the commission column. */
  function ColumnTotal(es: seq<Entry>, dust2: real): real
  {
    if es == [] then 0.0 else ColumnTotal(es[..|es| - 1], dust2) + Shown(es[|es| - 1], dust2)
  }

  /** The footer total agrees with the column above it. */
  lemma {:induction false} FooterMatchesColumn(es: seq<Entry>, activeMonths: int)
    ensures CommissionCalculator(es, activeMonths) == ColumnTotal(es, CommissionDust2(es, activeMonths))
  {
    var d := CommissionDust2(es, activeMonths);
    ColumnAgrees(es, activeMonths, d);
  }

  lemma {:induction false} ColumnAgrees(es: seq<Entry>, activeMonths: int, d: real)
    requires (exists i :: 0 <= i < |es| && IsDust2(es[i])) ==> d == BaseCommission * activeMonths as real
    ensures CommissionCalculator(es, activeMonths) == ColumnTotal(es, d)
  {
    if es != [] {
      var p := es[..|es| - 1];
      if exists i :: 0 <= i < |p| && IsDust2(p[i]) {
        var i :| 0 <= i < |p| && IsDust2(p[i]);
        assert es[i] == p[i];
      }
      ColumnAgrees(p, activeMonths, d);
      if IsDust2(es[|es| - 1]) {
        assert IsDust2(es[|es| - 1]);
      }
    }
  }

  /** Without a dust-2 entry the commission is 5% of the table's revenue. */
  lemma {:induction false} NoDust2IsFivePercent(es: seq<Entry>, activeMonths: int)
    requires forall i :: 0 <= i < |es| ==> !IsDust2(es[i])
    ensures CommissionCalculator(es, activeMonths) == SumR(es, EntryRevenue) * 0.05
  {
    if es != [] {
      NoDust2IsFivePercent(es[..|es| - 1], activeMonths);
    }
  }
}
