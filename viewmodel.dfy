/**
 * The chart's data layer, `getData` in src/d3.js: it turns the nested
 * expenditure object (year -> { analytics, Jan?, Feb?, ... }) into the
 * axis domains, the category list, the amount range and the rows that the
 * bars are drawn from.
 */
module ViewModel {
  import opened Wrappers
  import opened LodashUnion

  /**
   * A JavaScript object from category names to amounts: its own keys in
   * enumeration order, and the value stored under each.
   */
  datatype Obj = Obj(keys: seq<string>, vals: map<string, real>) {
    predicate WellFormed() {
      && NoDups(keys)
      && (forall k :: k in keys ==> k in vals)
      && (forall k :: k in vals ==> k in keys)
    }
  }

  /** An `analytics` record: category -> amount. */
  type Analytics = o: Obj | o.WellFormed() witness Obj([], map[])

  /** `Object.values(o)`: the amounts stored in the record, in key order. */
  function Values(o: Analytics): (vs: seq<real>)
    ensures |vs| == |o.keys|
    ensures forall v :: v in vs <==> exists k :: k in o.vals && o.vals[k] == v
  {
    var vs := seq(|o.keys|, i requires 0 <= i < |o.keys| => o.vals[o.keys[i]]);
    assert forall k :: k in o.vals ==> o.vals[k] == vs[FirstIndex(o.keys, k)];
    vs
  }

  /** The record stored under a month name of a year; `analytics` may be missing. */
  datatype MonthRecord = MonthRecord(analytics: Option<Analytics>)

  /**
   * One year of the expenditure object: its key, its year-level `analytics`
   * (which the code reads without a guard) and the records stored under
   * other keys, the month names among them.
   */
  datatype YearEntry = YearEntry(year: string, analytics: Option<Analytics>, months: map<string, MonthRecord>)

  /** The expenditure object, its years in the object's key enumeration order. */
  type Expenditure = seq<YearEntry>

  /** The fixed calendar list used for the monthly domain. */
  const Months: seq<string> := ["Jan", "Feb", "Mar", "Apr", "May", "Jun", "Jul", "Aug", "Sep", "Oct", "Nov", "Dec"]

  /** A yearly row `{ group: year, ...analytics }`. */
  datatype YearRow = YearRow(group: string, fields: map<string, real>)

  /** A monthly row `{ group: year, groupSecondary: month, ...analytics }`. */
  datatype MonthRow = MonthRow(group: string, groupSecondary: string, fields: map<string, real>)

  /** What `getData` returns. */
  datatype ChartData = ChartData(
    xAxisDomainYear: seq<string>,
    xAxisDomainMonth: seq<string>,
    subgroups: seq<string>,
    yRange: seq<real>,
    dataYear: seq<YearRow>,
    dataMonth: seq<MonthRow>)

  /** The TypeError `Object.keys(undefined)` throws for a year without `analytics`. */
  datatype DataError = MissingAnalytics(year: string)

  predicate AllHaveAnalytics(e: Expenditure) {
    forall i :: 0 <= i < |e| ==> e[i].analytics.Some?
  }

  /** Object keys are unique, so the years of an expenditure object are distinct. */
  predicate YearsDistinct(e: Expenditure) {
    forall i, j :: 0 <= i < j < |e| ==> e[i].year != e[j].year
  }

  /** `Object.keys(expenditure)`. */
  function Years(e: Expenditure): seq<string> {
    seq(|e|, i requires 0 <= i < |e| => e[i].year)
  }

  /** The index of the year at which the year-level walk over the object throws, if any. */
  function FirstMissing(e: Expenditure): (r: Option<nat>)
    ensures r.None? <==> AllHaveAnalytics(e)
    ensures r.Some? ==> r.value < |e| && e[r.value].analytics.None? &&
                        forall j :: 0 <= j < r.value ==> e[j].analytics.Some?
  {
    if e == [] then None
    else if e[0].analytics.None? then Some(0)
    else
      match FirstMissing(e[1..])
      case None => None
      case Some(i) => Some(i + 1)
  }

  /** The category names of every year's `analytics`, one list per year. */
  function CategoryLists(e: Expenditure): seq<seq<string>>
    requires AllHaveAnalytics(e)
  {
    seq(|e|, i requires 0 <= i < |e| && AllHaveAnalytics(e) => e[i].analytics.value.keys)
  }

  /** The amounts of every year's `analytics`, one list per year. */
  function AmountLists(e: Expenditure): seq<seq<real>>
    requires AllHaveAnalytics(e)
  {
    seq(|e|, i requires 0 <= i < |e| && AllHaveAnalytics(e) => Values(e[i].analytics.value))
  }

  /** `dataYear`: one row per year, labelled with the year and spreading its `analytics`. */
  function YearRows(e: Expenditure): (rows: seq<YearRow>)
    requires AllHaveAnalytics(e)
    ensures |rows| == |e|
    ensures forall i :: 0 <= i < |e| ==> rows[i].group == e[i].year && rows[i].fields == e[i].analytics.value.vals
  {
    seq(|e|, i requires 0 <= i < |e| && AllHaveAnalytics(e) => YearRow(e[i].year, e[i].analytics.value.vals))
  }

  /** `expenditure[year][month]?.analytics` is truthy. */
  predicate HasMonthAnalytics(y: YearEntry, m: string) {
    m in y.months && y.months[m].analytics.Some?
  }

  /** `r` is the monthly row built from the month `r.groupSecondary` of `y`. */
  predicate IsMonthRowOf(y: YearEntry, r: MonthRow) {
    && r.group == y.year
    && HasMonthAnalytics(y, r.groupSecondary)
    && r.fields == y.months[r.groupSecondary].analytics.value.vals
  }

  /** The rows of one year for the months of `ms` that have analytics, in the order of `ms`. */
  function MonthRowsFrom(y: YearEntry, ms: seq<string>): seq<MonthRow> {
    if ms == [] then []
    else
      var rest := MonthRowsFrom(y, ms[1..]);
      if HasMonthAnalytics(y, ms[0]) then [MonthRow(y.year, ms[0], y.months[ms[0]].analytics.value.vals)] + rest
      else rest
  }

  /** Every row of a year is labelled with that year and a month of `ms`, and carries that month's analytics. */
  lemma {:induction false} MonthRowsFromSound(y: YearEntry, ms: seq<string>)
    ensures forall p :: 0 <= p < |MonthRowsFrom(y, ms)| ==>
      MonthRowsFrom(y, ms)[p].groupSecondary in ms && IsMonthRowOf(y, MonthRowsFrom(y, ms)[p])
  {
    if ms != [] {
      var rows, rest := MonthRowsFrom(y, ms), MonthRowsFrom(y, ms[1..]);
      MonthRowsFromSound(y, ms[1..]);
      forall p | 0 <= p < |rows|
        ensures rows[p].groupSecondary in ms && IsMonthRowOf(y, rows[p])
      {
        if HasMonthAnalytics(y, ms[0]) && p > 0 {
          assert rows[p] == rest[p - 1];
        }
      }
    }
  }

  /** The row `MonthRowsFrom` builds for a month of `ms` that has analytics. */
  lemma {:induction false} MonthRowsFromComplete(y: YearEntry, ms: seq<string>, m: string) returns (p: nat)
    requires m in ms && HasMonthAnalytics(y, m)
    ensures p < |MonthRowsFrom(y, ms)| && MonthRowsFrom(y, ms)[p].groupSecondary == m
  {
    if ms[0] == m {
      p := 0;
    } else {
      var p' := MonthRowsFromComplete(y, ms[1..], m);
      p := if HasMonthAnalytics(y, ms[0]) then p' + 1 else p';
    }
  }

  /** A year none of whose months in `ms` has analytics contributes no row. */
  lemma {:induction false} MonthRowsFromNone(y: YearEntry, ms: seq<string>)
    requires forall m :: m in ms ==> !HasMonthAnalytics(y, m)
    ensures MonthRowsFrom(y, ms) == []
  {
    if ms != [] {
      MonthRowsFromNone(y, ms[1..]);
    }
  }

  /** Over a duplicate-free month list, the rows follow the list's order. */
  lemma {:induction false} MonthRowsFromOrdered(y: YearEntry, ms: seq<string>)
    requires NoDups(ms)
    ensures forall p, q :: 0 <= p < q < |MonthRowsFrom(y, ms)| ==>
      && MonthRowsFrom(y, ms)[p].groupSecondary in ms && MonthRowsFrom(y, ms)[q].groupSecondary in ms
      && FirstIndex(ms, MonthRowsFrom(y, ms)[p].groupSecondary) < FirstIndex(ms, MonthRowsFrom(y, ms)[q].groupSecondary)
  {
    MonthRowsFromSound(y, ms);
    if ms != [] {
      var rest := MonthRowsFrom(y, ms[1..]);
      MonthRowsFromSound(y, ms[1..]);
      MonthRowsFromOrdered(y, ms[1..]);
      forall m | m in ms[1..]
        ensures FirstIndex(ms, m) == FirstIndex(ms[1..], m) + 1
      {
        var k := FirstIndex(ms[1..], m);
        assert ms[k + 1] == m;
      }
    }
  }

  /** `dataMonth`: every year's monthly rows, year after year, flattened. */
  function MonthRows(e: Expenditure, months: seq<string>): seq<MonthRow> {
    if e == [] then [] else MonthRowsFrom(e[0], months) + MonthRows(e[1..], months)
  }

  /** `getData(expenditure)`: throws at the first year without `analytics`. */
  function GetData(e: Expenditure): (r: Result<ChartData, DataError>)
    ensures r.Ok? <==> AllHaveAnalytics(e)
    ensures r.Err? ==> exists i :: 0 <= i < |e| && e[i].analytics.None? && r.error == MissingAnalytics(e[i].year) &&
                                    forall j :: 0 <= j < i ==> e[j].analytics.Some?
    ensures r.Ok? ==> r.value.xAxisDomainYear == Years(e) && r.value.xAxisDomainMonth == Months
  {
    match FirstMissing(e)
    case Some(i) => Err(MissingAnalytics(e[i].year))
    case None =>
      Ok(ChartData(
        Years(e),
        Months,
        Union(CategoryLists(e)),
        Union(AmountLists(e)),
        YearRows(e),
        MonthRows(e, Months)))
  }

  // ---------------------------------------------------------------------
  // What getData promises about its result.
  // ---------------------------------------------------------------------

  /**
   * `subgroups` holds each category of each year's `analytics` once, in order
   * of first appearance; keys that occur only in month-level analytics are
   * not among them.
   */
  lemma SubgroupsAreYearCategories(e: Expenditure)
    requires AllHaveAnalytics(e)
    ensures NoDups(GetData(e).value.subgroups)
    ensures forall c :: c in GetData(e).value.subgroups <==>
      exists i :: 0 <= i < |e| && c in e[i].analytics.value.keys
    ensures var s, all := GetData(e).value.subgroups, Flatten(CategoryLists(e));
      forall i, j :: 0 <= i < j < |s| ==> s[i] in all && s[j] in all && FirstIndex(all, s[i]) < FirstIndex(all, s[j])
  {
    var lists := CategoryLists(e);
    UnionFirstAppearanceOrder(lists);
    forall c, i | 0 <= i < |e| && c in e[i].analytics.value.keys
      ensures c in lists[i]
    {
    }
  }

  /** `yRange` holds each year-level amount once, and nothing else. */
  lemma YRangeIsYearAmounts(e: Expenditure)
    requires AllHaveAnalytics(e)
    ensures NoDups(GetData(e).value.yRange)
    ensures forall v :: v in GetData(e).value.yRange <==>
      exists i, k :: 0 <= i < |e| && k in e[i].analytics.value.vals && e[i].analytics.value.vals[k] == v
  {
    var lists := AmountLists(e);
    forall i | 0 <= i < |e|
      ensures lists[i] == Values(e[i].analytics.value)
    {
    }
    forall i, k | 0 <= i < |e| && k in e[i].analytics.value.vals
      ensures e[i].analytics.value.vals[k] in lists[i]
    {
    }
  }

  /** `d3.max(values)`: the largest value, `undefined` for an empty list. */
  function MaxOf(values: seq<real>): (m: Option<real>)
    ensures m.None? <==> values == []
    ensures m.Some? ==> m.value in values && forall v :: v in values ==> v <= m.value
  {
    if values == [] then None
    else
      assert forall v :: v in values ==> v == values[0] || v in values[1..];
      match MaxOf(values[1..])
      case None => Some(values[0])
      case Some(rest) => Some(if values[0] < rest then rest else values[0])
  }

  /** Upper end of the log y-domain `[1, d3.max(yRange)]` of the year view. */
  function YearViewTop(d: ChartData): (top: Option<real>)
    ensures top.Some? <==> d.dataYear != [] && d.yRange != []
    ensures top.Some? ==> top.value in d.yRange && forall v :: v in d.yRange ==> v <= top.value
  {
    if d.dataYear == [] then None else MaxOf(d.yRange)
  }

  /** Upper end of the y-domain of the month view: `d3.max(dataMonth, () => d3.max(yRange))`. */
  function MonthViewTop(d: ChartData): (top: Option<real>)
    ensures top.Some? <==> d.dataMonth != [] && d.yRange != []
    ensures top.Some? ==> top.value in d.yRange && forall v :: v in d.yRange ==> v <= top.value
  {
    if d.dataMonth == [] then None else MaxOf(d.yRange)
  }

  /**
   * The top of the year view's y-domain is the largest year-level amount
   * (absent when there is none); the month view uses the same bound whenever
   * it has a row, so month-level amounts never size the axis.
   */
  lemma YDomainTopIsLargestYearAmount(e: Expenditure)
    requires AllHaveAnalytics(e)
    ensures var top := YearViewTop(GetData(e).value);
      && (top.Some? <==> exists i, k :: 0 <= i < |e| && k in e[i].analytics.value.vals)
      && (top.Some? ==> exists i, k :: 0 <= i < |e| && k in e[i].analytics.value.vals && e[i].analytics.value.vals[k] == top.value)
      && (top.Some? ==> forall i, k :: 0 <= i < |e| && k in e[i].analytics.value.vals ==> e[i].analytics.value.vals[k] <= top.value)
    ensures GetData(e).value.dataMonth != [] ==> MonthViewTop(GetData(e).value) == YearViewTop(GetData(e).value)
  {
    var d := GetData(e).value;
    YRangeIsYearAmounts(e);
    forall i, k | 0 <= i < |e| && k in e[i].analytics.value.vals
      ensures e[i].analytics.value.vals[k] in d.yRange
    {
      assert exists i', k' :: 0 <= i' < |e| && k' in e[i'].analytics.value.vals &&
                              e[i'].analytics.value.vals[k'] == e[i].analytics.value.vals[k];
    }
    if d.dataMonth != [] {
      assert e != [];
      assert d.dataYear != [];
    }
  }

  /** `dataYear` has one row per year, in the order of `xAxisDomainYear`, carrying that year's analytics. */
  lemma YearRowsFollowYears(e: Expenditure)
    requires AllHaveAnalytics(e)
    ensures var d := GetData(e).value;
      && |d.dataYear| == |d.xAxisDomainYear| == |e|
      && forall i :: 0 <= i < |e| ==>
           d.dataYear[i].group == d.xAxisDomainYear[i] && d.dataYear[i].fields == e[i].analytics.value.vals
    ensures YearsDistinct(e) ==> forall i, j :: 0 <= i < j < |e| ==>
      GetData(e).value.dataYear[i].group != GetData(e).value.dataYear[j].group
  {
  }

  /** Position of a month in the calendar list. */
  function MonthIndex(m: string): nat
    requires m in Months
  {
    FirstIndex(Months, m)
  }

  lemma MonthsDistinct()
    ensures NoDups(Months)
  {
  }

  /** The year a monthly row comes from. */
  lemma {:induction false} MonthRowSource(e: Expenditure, months: seq<string>, p: nat) returns (i: nat)
    requires p < |MonthRows(e, months)|
    ensures i < |e| && IsMonthRowOf(e[i], MonthRows(e, months)[p]) && MonthRows(e, months)[p].groupSecondary in months
  {
    var head := MonthRowsFrom(e[0], months);
    if p < |head| {
      MonthRowsFromSound(e[0], months);
      assert MonthRows(e, months)[p] == head[p];
      i := 0;
    } else {
      assert MonthRows(e, months)[p] == MonthRows(e[1..], months)[p - |head|];
      var i' := MonthRowSource(e[1..], months, p - |head|);
      assert e[1..][i'] == e[i' + 1];
      i := i' + 1;
    }
  }

  /** The monthly row of a listed month of a year, when that month has analytics. */
  lemma {:induction false} MonthRowAt(e: Expenditure, months: seq<string>, i: nat, m: string) returns (p: nat)
    requires i < |e| && m in months && HasMonthAnalytics(e[i], m)
    ensures p < |MonthRows(e, months)| && MonthRows(e, months)[p].group == e[i].year &&
            MonthRows(e, months)[p].groupSecondary == m
  {
    var head := MonthRowsFrom(e[0], months);
    if i == 0 {
      p := MonthRowsFromComplete(e[0], months, m);
      MonthRowsFromSound(e[0], months);
      assert MonthRows(e, months)[p] == head[p];
    } else {
      assert e[1..][i - 1] == e[i];
      var p' := MonthRowAt(e[1..], months, i - 1, m);
      p := |head| + p';
      assert MonthRows(e, months)[p] == MonthRows(e[1..], months)[p'];
    }
  }

  /** A row among the first year's rows is that year's row. */
  lemma MonthRowInHead(e: Expenditure, months: seq<string>, p: nat)
    requires e != [] && p < |MonthRowsFrom(e[0], months)|
    ensures p < |MonthRows(e, months)| && MonthRows(e, months)[p] == MonthRowsFrom(e[0], months)[p]
    ensures MonthRows(e, months)[p].group == e[0].year && MonthRows(e, months)[p].groupSecondary in months
  {
    MonthRowsFromSound(e[0], months);
    assert MonthRows(e, months) == MonthRowsFrom(e[0], months) + MonthRows(e[1..], months);
  }

  /** A row past the first year's rows belongs to a later year. */
  lemma MonthRowPastHead(e: Expenditure, months: seq<string>, q: nat) returns (j: nat)
    requires e != [] && |MonthRowsFrom(e[0], months)| <= q < |MonthRows(e, months)|
    ensures 0 < j < |e| && MonthRows(e, months)[q].group == e[j].year && MonthRows(e, months)[q].groupSecondary in months
    ensures MonthRows(e, months)[q] == MonthRows(e[1..], months)[q - |MonthRowsFrom(e[0], months)|]
  {
    var head, rest := MonthRowsFrom(e[0], months), MonthRows(e[1..], months);
    assert MonthRows(e, months) == head + rest;
    var j' := MonthRowSource(e[1..], months, q - |head|);
    assert e[1..][j'] == e[j' + 1];
    j := j' + 1;
  }

  /** Two rows of the first year stand in the order of the month list. */
  lemma MonthRowsOrderedInHead(e: Expenditure, months: seq<string>, p: nat, q: nat)
    requires e != [] && NoDups(months) && p < q < |MonthRowsFrom(e[0], months)|
    ensures q < |MonthRows(e, months)|
    ensures MonthRows(e, months)[p].group == e[0].year && MonthRows(e, months)[q].group == e[0].year
    ensures MonthRows(e, months)[p].groupSecondary in months && MonthRows(e, months)[q].groupSecondary in months
    ensures FirstIndex(months, MonthRows(e, months)[p].groupSecondary) < FirstIndex(months, MonthRows(e, months)[q].groupSecondary)
  {
    MonthRowInHead(e, months, p);
    MonthRowInHead(e, months, q);
    MonthRowsFromOrdered(e[0], months);
  }

  /**
   * Two monthly rows stand in the order of the years they come from, and
   * two rows of one year in the order of the month list.
   */
  lemma {:induction false} MonthRowsOrderedAt(e: Expenditure, months: seq<string>, p: nat, q: nat) returns (i: nat, j: nat)
    requires NoDups(months) && p < q < |MonthRows(e, months)|
    ensures i < |e| && j < |e|
    ensures MonthRows(e, months)[p].group == e[i].year && MonthRows(e, months)[q].group == e[j].year
    ensures MonthRows(e, months)[p].groupSecondary in months && MonthRows(e, months)[q].groupSecondary in months
    ensures i <= j
    ensures i == j ==> FirstIndex(months, MonthRows(e, months)[p].groupSecondary) <
                       FirstIndex(months, MonthRows(e, months)[q].groupSecondary)
  {
    var h := |MonthRowsFrom(e[0], months)|;
    if q < h {
      MonthRowsOrderedInHead(e, months, p, q);
      i, j := 0, 0;
    } else if p < h {
      MonthRowInHead(e, months, p);
      i := 0;
      j := MonthRowPastHead(e, months, q);
    } else {
      var rows, tail := MonthRows(e, months), MonthRows(e[1..], months);
      var _ := MonthRowPastHead(e, months, p);
      var _ := MonthRowPastHead(e, months, q);
      var i', j' := MonthRowsOrderedAt(e[1..], months, p - h, q - h);
      assert rows[p] == tail[p - h] && rows[q] == tail[q - h];
      assert e[1..][i'] == e[i' + 1] && e[1..][j'] == e[j' + 1];
      i, j := i' + 1, j' + 1;
    }
  }

  /** Every monthly row is built from a listed month of a year, from that month's analytics. */
  lemma DataMonthSound(e: Expenditure)
    requires AllHaveAnalytics(e)
    ensures var rows := GetData(e).value.dataMonth;
      forall p :: 0 <= p < |rows| ==> rows[p].groupSecondary in Months && exists i :: 0 <= i < |e| && IsMonthRowOf(e[i], rows[p])
  {
    var rows := GetData(e).value.dataMonth;
    forall p | 0 <= p < |rows|
      ensures rows[p].groupSecondary in Months && exists i :: 0 <= i < |e| && IsMonthRowOf(e[i], rows[p])
    {
      var i := MonthRowSource(e, Months, p);
    }
  }

  /** Every listed month of every year that has analytics gets a monthly row. */
  lemma DataMonthComplete(e: Expenditure)
    requires AllHaveAnalytics(e)
    ensures var rows := GetData(e).value.dataMonth;
      forall i, m :: 0 <= i < |e| && m in Months && HasMonthAnalytics(e[i], m) ==>
        exists p :: 0 <= p < |rows| && rows[p].group == e[i].year && rows[p].groupSecondary == m
  {
    var rows := GetData(e).value.dataMonth;
    forall i, m | 0 <= i < |e| && m in Months && HasMonthAnalytics(e[i], m)
      ensures exists p :: 0 <= p < |rows| && rows[p].group == e[i].year && rows[p].groupSecondary == m
    {
      var p := MonthRowAt(e, Months, i, m);
    }
  }

  /** Monthly rows are ordered by year, and within a year by calendar order. */
  lemma DataMonthOrdered(e: Expenditure)
    requires AllHaveAnalytics(e) && YearsDistinct(e)
    ensures var rows := GetData(e).value.dataMonth;
      forall p, q, i, j ::
        0 <= p < q < |rows| && 0 <= i < |e| && 0 <= j < |e| && rows[p].group == e[i].year && rows[q].group == e[j].year ==>
          rows[p].groupSecondary in Months && rows[q].groupSecondary in Months &&
          (i < j || (i == j && MonthIndex(rows[p].groupSecondary) < MonthIndex(rows[q].groupSecondary)))
  {
    var rows := GetData(e).value.dataMonth;
    MonthsDistinct();
    forall p, q, i, j |
      0 <= p < q < |rows| && 0 <= i < |e| && 0 <= j < |e| && rows[p].group == e[i].year && rows[q].group == e[j].year
      ensures rows[p].groupSecondary in Months && rows[q].groupSecondary in Months &&
              (i < j || (i == j && MonthIndex(rows[p].groupSecondary) < MonthIndex(rows[q].groupSecondary)))
    {
      var i', j' := MonthRowsOrderedAt(e, Months, p, q);
      assert i == i' && j == j';
    }
  }

  /** With distinct years, no (year, month) pair has two monthly rows. */
  lemma DataMonthUnique(e: Expenditure)
    requires AllHaveAnalytics(e) && YearsDistinct(e)
    ensures var rows := GetData(e).value.dataMonth;
      forall p, q :: 0 <= p < q < |rows| ==>
        rows[p].group != rows[q].group || rows[p].groupSecondary != rows[q].groupSecondary
  {
    var rows := GetData(e).value.dataMonth;
    MonthsDistinct();
    forall p, q | 0 <= p < q < |rows|
      ensures rows[p].group != rows[q].group || rows[p].groupSecondary != rows[q].groupSecondary
    {
      var i, j := MonthRowsOrderedAt(e, Months, p, q);
    }
  }

  /** A year none of whose listed months has analytics contributes no monthly row. */
  lemma YearWithoutMonthsHasNoRows(e: Expenditure, i: nat)
    requires AllHaveAnalytics(e) && YearsDistinct(e) && i < |e|
    requires forall m :: m in Months ==> !HasMonthAnalytics(e[i], m)
    ensures forall p :: 0 <= p < |GetData(e).value.dataMonth| ==> GetData(e).value.dataMonth[p].group != e[i].year
  {
    var rows := GetData(e).value.dataMonth;
    forall p | 0 <= p < |rows|
      ensures rows[p].group != e[i].year
    {
      var j := MonthRowSource(e, Months, p);
    }
  }
}
