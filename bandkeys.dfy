/**
 * The secondary (monthly) band scales of src/d3.js: each year's band domain
 * holds the keys `year + "-" + month`, the tick labels decode a key with
 * `split('-')[1]`, and a monthly bar finds its scale as the first one whose
 * domain holds its key.
 */
module BandKeys {
  import opened Wrappers
  import opened LodashUnion

  const Separator: char := '-'

  /** The year `addSecondaryXAxis` falls back to when its bar group has no data. */
  const DefaultGroup: string := "nm"

  /** `${year}-${month}` */
  function BandKey(year: string, month: string): string {
    year + [Separator] + month
  }

  /** `s.split(sep)` for a one-character separator. */
  function Split(s: string, sep: char): (parts: seq<string>)
    ensures |parts| >= 1
    ensures forall i :: 0 <= i < |parts| ==> sep !in parts[i]
    decreases |s|
  {
    if s == [] then [""]
    else
      var rest := Split(s[1..], sep);
      if s[0] == sep then [""] + rest
      else
        var parts := [[s[0]] + rest[0]] + rest[1..];
        assert forall i :: 1 <= i < |parts| ==> parts[i] == rest[i];
        parts
  }

  /** `parts.join(sep)`. */
  function Join(parts: seq<string>, sep: char): string
    requires |parts| >= 1
  {
    if |parts| == 1 then parts[0] else parts[0] + [sep] + Join(parts[1..], sep)
  }

  /** A separator-free prefix ends up at the front of the first part. */
  lemma {:induction false} SplitAfterPlainPrefix(a: string, t: string, sep: char)
    requires sep !in a
    ensures Split(a + t, sep) == [a + Split(t, sep)[0]] + Split(t, sep)[1..]
  {
    if a != [] {
      assert (a + t)[1..] == a[1..] + t;
      SplitAfterPlainPrefix(a[1..], t, sep);
      assert [a[0]] + (a[1..] + Split(t, sep)[0]) == a + Split(t, sep)[0];
    } else {
      var parts := Split(t, sep);
      assert a + t == t && a + parts[0] == parts[0];
      assert [parts[0]] + parts[1..] == parts;
    }
  }

  /** Splitting undoes joining when no part holds the separator. */
  lemma {:induction false} SplitJoin(parts: seq<string>, sep: char)
    requires |parts| >= 1
    requires forall i :: 0 <= i < |parts| ==> sep !in parts[i]
    ensures Split(Join(parts, sep), sep) == parts
  {
    if |parts| == 1 {
      SplitAfterPlainPrefix(parts[0], [], sep);
      assert parts[0] + [] == parts[0];
    } else {
      var tail := [sep] + Join(parts[1..], sep);
      assert Join(parts, sep) == parts[0] + tail;
      SplitAfterPlainPrefix(parts[0], tail, sep);
      assert tail[1..] == Join(parts[1..], sep);
      SplitJoin(parts[1..], sep);
      assert parts[0] + "" == parts[0];
    }
  }

  /** Joining undoes splitting. */
  lemma {:induction false} JoinSplit(s: string, sep: char)
    ensures Join(Split(s, sep), sep) == s
    decreases |s|
  {
    if s != [] {
      var rest := Split(s[1..], sep);
      JoinSplit(s[1..], sep);
      if s[0] == sep {
        assert ([""] + rest)[1..] == rest;
      } else {
        var parts := [[s[0]] + rest[0]] + rest[1..];
        if |rest| > 1 {
          assert parts[1..] == rest[1..];
        }
        assert [s[0]] + s[1..] == s;
      }
    }
  }

  /** A string splits into a single part exactly when it holds no separator. */
  lemma {:induction false} SplitCount(s: string, sep: char)
    ensures |Split(s, sep)| == 1 <==> sep !in s
    decreases |s|
  {
    if s != [] {
      SplitCount(s[1..], sep);
      assert s == [s[0]] + s[1..];
    }
  }

  /** A separator in front adds an empty first part. */
  lemma SplitLeadingSeparator(t: string, sep: char)
    ensures Split([sep] + t, sep) == [""] + Split(t, sep)
  {
    assert ([sep] + t)[1..] == t;
  }

  /** `d.split('-')[1]`, `undefined` when the key has no separator. */
  function TickLabel(key: string): (tick: Option<string>)
    ensures tick.Some? <==> Separator in key
    ensures tick.Some? ==> Separator !in tick.value
  {
    var parts := Split(key, Separator);
    SplitCount(key, Separator);
    if |parts| >= 2 then Some(parts[1]) else None
  }

  /**
   * The tick label is the text between the first and the second separator,
   * or up to the end when there is no second one.
   */
  lemma TickLabelIsSecondSegment(a: string, month: string, rest: string)
    requires Separator !in a && Separator !in month
    requires rest == [] || rest[0] == Separator
    ensures TickLabel(a + [Separator] + month + rest) == Some(month)
  {
    var t := month + rest;
    assert a + [Separator] + month + rest == a + ([Separator] + t);
    SplitAfterPlainPrefix(a, [Separator] + t, Separator);
    SplitLeadingSeparator(t, Separator);
    SplitAfterPlainPrefix(month, rest, Separator);
    if rest != [] {
      assert rest == [Separator] + rest[1..];
      SplitLeadingSeparator(rest[1..], Separator);
    }
    assert month + "" == month && a + "" == a;
  }

  /** For a year and a month without a hyphen, the key splits back into exactly the two. */
  lemma SplitBandKey(year: string, month: string)
    requires Separator !in year && Separator !in month
    ensures Split(BandKey(year, month), Separator) == [year, month]
  {
    assert Join([year, month], Separator) == BandKey(year, month);
    SplitJoin([year, month], Separator);
  }

  /** The tick label of a band key is the month it was built from. */
  lemma TickLabelRoundTrip(year: string, month: string)
    requires Separator !in year && Separator !in month
    ensures TickLabel(BandKey(year, month)) == Some(month)
  {
    SplitBandKey(year, month);
  }

  /** Band keys of hyphen-free years and months are equal only for the same year and month. */
  lemma BandKeyInjective(year: string, month: string, year': string, month': string)
    requires Separator !in year && Separator !in month && Separator !in year' && Separator !in month'
    ensures BandKey(year, month) == BandKey(year', month') <==> year == year' && month == month'
  {
    SplitBandKey(year, month);
    SplitBandKey(year', month');
  }

  /** The band domain `addSecondaryXAxis` builds for one bar group. */
  function SecondaryDomain(months: seq<string>, group: Option<string>): (domain: seq<string>)
    ensures |domain| == |months|
    ensures forall key :: key in domain <==> exists m :: m in months && key == BandKey(group.GetOr(DefaultGroup), m)
  {
    var domain := seq(|months|, n requires 0 <= n < |months| => BandKey(group.GetOr(DefaultGroup), months[n]));
    assert forall m :: m in months ==> domain[FirstIndex(months, m)] == BandKey(group.GetOr(DefaultGroup), m);
    domain
  }

  /** One secondary band domain per bar group, in the order of the groups. */
  function SecondaryDomains(groups: seq<string>, months: seq<string>): seq<seq<string>> {
    seq(|groups|, j requires 0 <= j < |groups| => SecondaryDomain(months, Some(groups[j])))
  }

  /** `x2.find(x => x(key) !== undefined)`: the first scale whose domain holds the key. */
  function FindScale(domains: seq<seq<string>>, key: string): (r: Option<nat>)
    ensures r.Some? ==> r.value < |domains| && key in domains[r.value] &&
                        forall j :: 0 <= j < r.value ==> key !in domains[j]
    ensures r.None? ==> forall j :: 0 <= j < |domains| ==> key !in domains[j]
  {
    if domains == [] then None
    else if key in domains[0] then Some(0)
    else
      match FindScale(domains[1..], key)
      case None => None
      case Some(j) => Some(j + 1)
  }

  /**
   * With distinct hyphen-free years and hyphen-free months, the key of a
   * year's month is found in that year's own scale.
   */
  lemma FindsOwnYearScale(years: seq<string>, months: seq<string>, i: nat, m: string)
    requires NoDups(years) && forall j :: 0 <= j < |years| ==> Separator !in years[j]
    requires forall m' :: m' in months ==> Separator !in m'
    requires i < |years| && m in months
    ensures FindScale(SecondaryDomains(years, months), BandKey(years[i], m)) == Some(i)
  {
    var domains, key := SecondaryDomains(years, months), BandKey(years[i], m);
    assert key in domains[i];
    forall j | 0 <= j < |years| && key in domains[j]
      ensures j == i
    {
      var m' :| m' in months && key == BandKey(years[j], m');
      BandKeyInjective(years[i], m, years[j], m');
    }
  }
}
