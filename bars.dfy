/**
 * The per-group bar entries of src/d3.js: for one row (a year or a month),
 * the categories whose amount is truthy, as `{ key, value }` pairs in the
 * order of the category list. The same projection feeds the year bars and
 * the month bars.
 */
module Bars {
  import opened Wrappers
  import opened LodashUnion

  /** One bar: a category and the amount drawn for it. */
  datatype BarEntry = BarEntry(key: string, value: real)

  /** `d[key]`: the row's amount for a category, `undefined` when it has none. */
  function Lookup(fields: map<string, real>, key: string): Option<real> {
    if key in fields then Some(fields[key]) else None
  }

  /** JavaScript truthiness of a number or `undefined`: `undefined` and 0 are falsy. */
  predicate ToBoolean(v: Option<real>) {
    v.Some? && v.value != 0.0
  }

  /** `!!d[key]`: the row has the category and its amount is not 0. */
  function Truthy(fields: map<string, real>, key: string): (b: bool)
    ensures b <==> key in fields && fields[key] != 0.0
  {
    ToBoolean(Lookup(fields, key))
  }

  /** The categories of a list of bar entries, in order. */
  function Keys(r: seq<BarEntry>): (ks: seq<string>)
    ensures |ks| == |r| && forall n :: 0 <= n < |r| ==> ks[n] == r[n].key
  {
    seq(|r|, n requires 0 <= n < |r| => r[n].key)
  }

  /**
   * `subgroups.filter(k => !!d[k]).map(k => ({ key: k, value: d[k] }))`:
   * every entry is a category of the list with a truthy amount and carries
   * the row's amount for it.
   */
  function BarEntries(subgroups: seq<string>, fields: map<string, real>): (r: seq<BarEntry>)
    ensures |r| <= |subgroups|
    ensures forall n :: 0 <= n < |r| ==>
      r[n].key in subgroups && Truthy(fields, r[n].key) && r[n].value == fields[r[n].key]
  {
    if subgroups == [] then []
    else
      var rest := BarEntries(subgroups[1..], fields);
      if Truthy(fields, subgroups[0]) then
        var r := [BarEntry(subgroups[0], fields[subgroups[0]])] + rest;
        assert forall n :: 0 < n < |r| ==> r[n] == rest[n - 1];
        r
      else rest
  }

  /** The entry of a listed category with a truthy amount. */
  lemma {:induction false} BarEntryOf(subgroups: seq<string>, fields: map<string, real>, key: string) returns (n: nat)
    requires key in subgroups && Truthy(fields, key)
    ensures n < |BarEntries(subgroups, fields)| && BarEntries(subgroups, fields)[n].key == key
  {
    if subgroups[0] == key {
      n := 0;
    } else {
      var n' := BarEntryOf(subgroups[1..], fields, key);
      n := if Truthy(fields, subgroups[0]) then n' + 1 else n';
    }
  }

  /** Exactly the listed categories with a truthy amount get an entry: 0 and missing amounts are dropped. */
  lemma BarEntriesExactlyTruthy(subgroups: seq<string>, fields: map<string, real>)
    ensures forall key :: key in Keys(BarEntries(subgroups, fields)) <==> key in subgroups && Truthy(fields, key)
  {
    var r := BarEntries(subgroups, fields);
    var ks := Keys(r);
    forall key | key in subgroups && Truthy(fields, key)
      ensures key in ks
    {
      var n := BarEntryOf(subgroups, fields, key);
      assert ks[n] == key;
    }
    forall key | key in ks
      ensures key in subgroups && Truthy(fields, key)
    {
      var n :| 0 <= n < |ks| && ks[n] == key;
      assert r[n].key == key;
    }
  }

  /** Past a different first element, the first occurrence is one further on than in the tail. */
  lemma FirstIndexPastHead(subgroups: seq<string>, key: string)
    requires subgroups != [] && key in subgroups[1..] && subgroups[0] != key
    ensures FirstIndex(subgroups, key) == FirstIndex(subgroups[1..], key) + 1
  {
  }

  /** The entries `r` name categories of `subgroups` in the list's order. */
  predicate InListOrder(subgroups: seq<string>, r: seq<BarEntry>) {
    && (forall n :: 0 <= n < |r| ==> r[n].key in subgroups)
    && (forall n, n' :: 0 <= n < n' < |r| ==> FirstIndex(subgroups, r[n].key) < FirstIndex(subgroups, r[n'].key))
  }

  /** Entries in the order of the tail stay in order when a category not in the tail is put in front. */
  lemma InListOrderPastHead(subgroups: seq<string>, rest: seq<BarEntry>)
    requires subgroups != [] && subgroups[0] !in subgroups[1..]
    requires InListOrder(subgroups[1..], rest)
    ensures InListOrder(subgroups, rest)
  {
    forall n | 0 <= n < |rest|
      ensures FirstIndex(subgroups, rest[n].key) == FirstIndex(subgroups[1..], rest[n].key) + 1
    {
      FirstIndexPastHead(subgroups, rest[n].key);
    }
  }

  /** An entry for the first category may precede them. */
  lemma InListOrderCons(subgroups: seq<string>, first: BarEntry, rest: seq<BarEntry>)
    requires subgroups != [] && subgroups[0] !in subgroups[1..] && first.key == subgroups[0]
    requires InListOrder(subgroups[1..], rest)
    ensures InListOrder(subgroups, [first] + rest)
  {
    InListOrderPastHead(subgroups, rest);
    var r := [first] + rest;
    forall n, n' | 0 <= n < n' < |r|
      ensures FirstIndex(subgroups, r[n].key) < FirstIndex(subgroups, r[n'].key)
    {
      assert r[n'] == rest[n' - 1];
      if n > 0 {
        assert r[n] == rest[n - 1];
      }
    }
  }

  /** Over a duplicate-free category list, the entries name listed categories, in the list's order. */
  lemma {:induction false} BarEntriesKeepSubgroupOrder(subgroups: seq<string>, fields: map<string, real>)
    requires NoDups(subgroups)
    ensures InListOrder(subgroups, BarEntries(subgroups, fields))
  {
    if subgroups != [] {
      var tail := subgroups[1..];
      assert NoDups(tail) && subgroups[0] !in tail;
      BarEntriesKeepSubgroupOrder(tail, fields);
      var rest := BarEntries(tail, fields);
      if Truthy(fields, subgroups[0]) {
        InListOrderCons(subgroups, BarEntry(subgroups[0], fields[subgroups[0]]), rest);
      } else {
        InListOrderPastHead(subgroups, rest);
      }
    }
  }

  /** Over a duplicate-free category list, no category gets two entries. */
  lemma BarEntriesDistinct(subgroups: seq<string>, fields: map<string, real>)
    requires NoDups(subgroups)
    ensures NoDups(Keys(BarEntries(subgroups, fields)))
  {
    var r := BarEntries(subgroups, fields);
    BarEntriesKeepSubgroupOrder(subgroups, fields);
    forall n, n' | 0 <= n < n' < |r|
      ensures r[n].key != r[n'].key
    {
      assert FirstIndex(subgroups, r[n].key) < FirstIndex(subgroups, r[n'].key);
    }
  }
}
