/**
 * A small expenditure object worked through getData and the bar projection:
 * one year with two categories, and a January whose analytics also names a
 * category ("Rent") that the year-level analytics does not have.
 */
module WorkedExample {
  import opened Wrappers
  import opened LodashUnion
  import opened ViewModel
  import opened Bars

  const JanFields: map<string, real> := map["Food" := 10.0, "Rent" := 5.0]

  /** `{ "2020": { analytics: { Food: 100, Travel: 50 }, Jan: { analytics: { Food: 10, Rent: 5 } } } }` */
  function Dataset(): Expenditure {
    var year: Analytics := Obj(["Food", "Travel"], map["Food" := 100.0, "Travel" := 50.0]);
    var jan: Analytics := Obj(["Food", "Rent"], JanFields);
    [YearEntry("2020", Some(year), map["Jan" := MonthRecord(Some(jan))])]
  }

  /** The categories are the year-level ones, in key order; "Rent" is not among them. */
  lemma ExampleSubgroups()
    ensures GetData(Dataset()).Ok?
    ensures GetData(Dataset()).value.subgroups == ["Food", "Travel"]
  {
    var e := Dataset();
    assert AllHaveAnalytics(e);
    var lists := CategoryLists(e);
    assert lists == [["Food", "Travel"]];
    assert Flatten(lists[1..]) == [];
    assert Flatten(lists) == ["Food", "Travel"];
    var f := ["Food", "Travel"];
    assert f[..1] == ["Food"];
    assert Dedup(["Food"][..0]) == [];
    assert Dedup(["Food"]) == ["Food"];
    assert Dedup(f) == ["Food", "Travel"];
  }

  /** The amount range holds the year-level amounts only, and the log axis tops out at 100. */
  lemma ExampleYRange()
    ensures GetData(Dataset()).Ok?
    ensures GetData(Dataset()).value.yRange == [100.0, 50.0]
    ensures YearViewTop(GetData(Dataset()).value) == Some(100.0)
  {
    var e := Dataset();
    assert AllHaveAnalytics(e);
    var amounts := AmountLists(e);
    assert Values(e[0].analytics.value) == [100.0, 50.0];
    assert amounts == [[100.0, 50.0]];
    assert Flatten(amounts[1..]) == [];
    assert Flatten(amounts) == [100.0, 50.0];
    var g := [100.0, 50.0];
    assert g[..1] == [100.0];
    assert Dedup([100.0][..0]) == [];
    assert Dedup([100.0]) == [100.0];
    assert Dedup(g) == [100.0, 50.0];
    assert MaxOf(g[1..]) == Some(50.0);
  }

  /** Of the twelve months, only January has analytics in the sample year. */
  lemma JanuaryOnlyMonthRow()
    ensures MonthRows(Dataset(), Months) == [MonthRow("2020", "Jan", JanFields)]
  {
    var e := Dataset();
    var later := Months[1..];
    assert later == ["Feb", "Mar", "Apr", "May", "Jun", "Jul", "Aug", "Sep", "Oct", "Nov", "Dec"];
    assert e[0].months.Keys == {"Jan"} && "Jan" !in later;
    forall m | m in later
      ensures !HasMonthAnalytics(e[0], m)
    {
      assert m != "Jan";
    }
    MonthRowsFromNone(e[0], later);
    assert MonthRowsFrom(e[0], Months) == [MonthRow("2020", "Jan", JanFields)];
    assert MonthRows(e, Months) == MonthRowsFrom(e[0], Months) + MonthRows(e[1..], Months);
  }

  /** January is the only month with analytics, so `dataMonth` is exactly its row. */
  lemma ExampleJanuaryRow()
    ensures GetData(Dataset()).Ok?
    ensures GetData(Dataset()).value.dataMonth == [MonthRow("2020", "Jan", JanFields)]
  {
    assert AllHaveAnalytics(Dataset());
    JanuaryOnlyMonthRow();
  }

  /** Of the two categories, January holds a truthy amount for Food only. */
  lemma JanuaryBarsOverCategories()
    ensures BarEntries(["Food", "Travel"], JanFields) == [BarEntry("Food", 10.0)]
  {
    assert ["Food", "Travel"][1..] == ["Travel"];
    assert BarEntries(["Travel"], JanFields) == [];
  }

  /** January's bars show Food only: Rent is not a category, and Travel has no January amount. */
  lemma ExampleJanuaryBars()
    ensures GetData(Dataset()).Ok?
    ensures BarEntries(GetData(Dataset()).value.subgroups, JanFields) == [BarEntry("Food", 10.0)]
  {
    ExampleSubgroups();
    JanuaryBarsOverCategories();
  }

  /** A year without `analytics` makes getData throw, naming that year. */
  lemma ExampleMissingAnalytics()
    ensures GetData(Dataset() + [YearEntry("2021", None, map[])]) == Err(MissingAnalytics("2021"))
  {
    var e := Dataset() + [YearEntry("2021", None, map[])];
    assert e[0].analytics.Some? && e[1..] == [YearEntry("2021", None, map[])];
    assert FirstMissing(e[1..]) == Some(0);
    assert FirstMissing(e) == Some(1);
  }
}
