/**
 * How the month bars of src/d3.js use the data layer: each bar group takes
 * the monthly rows of its own year, each monthly row is placed by the
 * secondary scale that holds its band key, and each row's bars are the
 * truthy categories of `subgroups`.
 */
module MonthBars {
  import opened Wrappers
  import opened LodashUnion
  import opened ViewModel
  import opened Bars
  import opened BandKeys

  /** `dataMonth.filter(data => data.group === d.group)`: only rows of the group, taken from `rows`. */
  function RowsOfGroup(rows: seq<MonthRow>, group: string): (r: seq<MonthRow>)
    ensures forall p :: 0 <= p < |r| ==> r[p].group == group && r[p] in rows
  {
    if rows == [] then []
    else
      var rest := RowsOfGroup(rows[1..], group);
      if rows[0].group == group then
        var r := [rows[0]] + rest;
        assert forall p :: 0 < p < |r| ==> r[p] == rest[p - 1];
        r
      else rest
  }

  /** No row of the group is dropped. */
  lemma {:induction false} RowsOfGroupComplete(rows: seq<MonthRow>, group: string, p: nat)
    requires p < |rows| && rows[p].group == group
    ensures rows[p] in RowsOfGroup(rows, group)
  {
    if p > 0 {
      assert rows[p] == rows[1..][p - 1];
      RowsOfGroupComplete(rows[1..], group, p - 1);
    }
  }

  /** Filtering a concatenation filters each part in turn, so kept rows keep their relative order. */
  lemma {:induction false} RowsOfGroupAppend(a: seq<MonthRow>, b: seq<MonthRow>, group: string)
    ensures RowsOfGroup(a + b, group) == RowsOfGroup(a, group) + RowsOfGroup(b, group)
  {
    if a == [] {
      assert a + b == b;
    } else {
      var ab := a + b;
      assert ab[0] == a[0] && ab[1..] == a[1..] + b;
      RowsOfGroupAppend(a[1..], b, group);
      if a[0].group == group {
        var kept, rest := RowsOfGroup(a[1..], group), RowsOfGroup(b, group);
        assert RowsOfGroup(ab, group) == [a[0]] + (kept + rest);
        assert [a[0]] + (kept + rest) == ([a[0]] + kept) + rest;
      }
    }
  }

  /** Filtering rows that all belong to one group keeps them all or drops them all. */
  lemma {:induction false} RowsOfGroupUniform(rows: seq<MonthRow>, owner: string, group: string)
    requires forall p :: 0 <= p < |rows| ==> rows[p].group == owner
    ensures RowsOfGroup(rows, group) == if owner == group then rows else []
  {
    if rows != [] {
      RowsOfGroupUniform(rows[1..], owner, group);
      if owner == group {
        assert [rows[0]] + rows[1..] == rows;
      }
    }
  }

  lemma {:induction false} RowsOfGroupPicksYear(e: Expenditure, months: seq<string>, i: nat)
    requires YearsDistinct(e) && i < |e|
    ensures RowsOfGroup(MonthRows(e, months), e[i].year) == MonthRowsFrom(e[i], months)
  {
    var head := MonthRowsFrom(e[0], months);
    MonthRowsFromSound(e[0], months);
    RowsOfGroupAppend(head, MonthRows(e[1..], months), e[i].year);
    RowsOfGroupUniform(head, e[0].year, e[i].year);
    if i == 0 {
      RowsOfGroupNone(e[1..], months, e[0].year);
    } else {
      assert e[1..][i - 1] == e[i];
      RowsOfGroupPicksYear(e[1..], months, i - 1);
    }
  }

  lemma {:induction false} RowsOfGroupNone(e: Expenditure, months: seq<string>, group: string)
    requires forall j :: 0 <= j < |e| ==> e[j].year != group
    ensures RowsOfGroup(MonthRows(e, months), group) == []
  {
    if e != [] {
      MonthRowsFromSound(e[0], months);
      RowsOfGroupAppend(MonthRowsFrom(e[0], months), MonthRows(e[1..], months), group);
      RowsOfGroupUniform(MonthRowsFrom(e[0], months), e[0].year, group);
      RowsOfGroupNone(e[1..], months, group);
    }
  }

  /**
   * The bar group of a year receives exactly that year's monthly rows, in
   * calendar order: the rows `getData` built from that year's months.
   */
  lemma GroupReceivesItsYearRows(e: Expenditure, i: nat)
    requires AllHaveAnalytics(e) && YearsDistinct(e) && i < |e|
    ensures var got := RowsOfGroup(GetData(e).value.dataMonth, e[i].year);
      && (forall p :: 0 <= p < |got| ==> IsMonthRowOf(e[i], got[p]) && got[p].groupSecondary in Months)
      && (forall m :: m in Months && HasMonthAnalytics(e[i], m) ==> exists p :: 0 <= p < |got| && got[p].groupSecondary == m)
      && (forall p, q :: 0 <= p < q < |got| ==> got[p].groupSecondary in Months && got[q].groupSecondary in Months &&
                                                MonthIndex(got[p].groupSecondary) < MonthIndex(got[q].groupSecondary))
  {
    var got := RowsOfGroup(GetData(e).value.dataMonth, e[i].year);
    RowsOfGroupPicksYear(e, Months, i);
    assert got == MonthRowsFrom(e[i], Months);
    MonthRowsFromSound(e[i], Months);
    MonthsDistinct();
    MonthRowsFromOrdered(e[i], Months);
    forall m | m in Months && HasMonthAnalytics(e[i], m)
      ensures exists p :: 0 <= p < |got| && got[p].groupSecondary == m
    {
      var p := MonthRowsFromComplete(e[i], Months, m);
    }
  }

  lemma MonthsHaveNoSeparator()
    ensures forall m :: m in Months ==> Separator !in m
  {
  }

  /**
   * With distinct hyphen-free years, the scale a monthly row finds for its
   * key is the one built for its own year, and the key's tick label is the
   * row's month.
   */
  lemma MonthRowFindsItsYearScale(e: Expenditure)
    requires AllHaveAnalytics(e) && YearsDistinct(e)
    requires forall i :: 0 <= i < |e| ==> Separator !in e[i].year
    ensures var d := GetData(e).value;
      forall p, i :: 0 <= p < |d.dataMonth| && 0 <= i < |e| && d.dataMonth[p].group == e[i].year ==>
        && FindScale(SecondaryDomains(d.xAxisDomainYear, d.xAxisDomainMonth),
                     BandKey(d.dataMonth[p].group, d.dataMonth[p].groupSecondary)) == Some(i)
        && TickLabel(BandKey(d.dataMonth[p].group, d.dataMonth[p].groupSecondary)) == Some(d.dataMonth[p].groupSecondary)
  {
    var d := GetData(e).value;
    var years := d.xAxisDomainYear;
    MonthsHaveNoSeparator();
    assert NoDups(years);
    forall p, i | 0 <= p < |d.dataMonth| && 0 <= i < |e| && d.dataMonth[p].group == e[i].year
      ensures FindScale(SecondaryDomains(years, Months), BandKey(d.dataMonth[p].group, d.dataMonth[p].groupSecondary)) == Some(i)
      ensures TickLabel(BandKey(d.dataMonth[p].group, d.dataMonth[p].groupSecondary)) == Some(d.dataMonth[p].groupSecondary)
    {
      var j := MonthRowSource(e, Months, p);
      assert years[i] == e[i].year;
      FindsOwnYearScale(years, Months, i, d.dataMonth[p].groupSecondary);
      TickLabelRoundTrip(d.dataMonth[p].group, d.dataMonth[p].groupSecondary);
    }
  }

  /**
   * A year row's bars are exactly its categories with a non-zero amount,
   * each with that year's amount.
   */
  lemma YearBarsShowNonzeroAmounts(e: Expenditure, i: nat)
    requires AllHaveAnalytics(e) && i < |e|
    ensures var d := GetData(e).value;
      var bars := BarEntries(d.subgroups, d.dataYear[i].fields);
      var a := e[i].analytics.value;
      && (forall key :: key in Keys(bars) <==> key in a.vals && a.vals[key] != 0.0)
      && (forall n :: 0 <= n < |bars| ==> bars[n].value == a.vals[bars[n].key])
  {
    var d := GetData(e).value;
    SubgroupsAreYearCategories(e);
    YearRowsFollowYears(e);
    BarEntriesExactlyTruthy(d.subgroups, d.dataYear[i].fields);
    forall key | key in e[i].analytics.value.vals
      ensures key in d.subgroups
    {
      assert key in e[i].analytics.value.keys;
    }
  }

  /**
   * A category that no year's `analytics` lists gets no bar in any month
   * group, even when a month's analytics has an amount for it.
   */
  lemma MonthOnlyCategoryHasNoBar(e: Expenditure, c: string)
    requires AllHaveAnalytics(e)
    requires forall i :: 0 <= i < |e| ==> c !in e[i].analytics.value.keys
    ensures var d := GetData(e).value;
      forall p, n :: 0 <= p < |d.dataMonth| && 0 <= n < |BarEntries(d.subgroups, d.dataMonth[p].fields)| ==>
        BarEntries(d.subgroups, d.dataMonth[p].fields)[n].key != c
  {
    SubgroupsAreYearCategories(e);
  }
}
