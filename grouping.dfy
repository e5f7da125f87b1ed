/**
 * The export's grouping pass: one walk over the kept rows that groups them by
 * plate/name in the order names are first seen, collecting for each group its
 * dates, its summed hours and amount, and its rows in order.
 *
 * Python's `dict` keeps insertion order; here the dictionary is the pair of
 * its key order (`keys`) and its map from key to group.
 */
module Grouping {
  import opened Records

  /** One entry of the grouped dictionary: the key and its `dates`, `total_hours`, `amount`, `records`. */
  datatype Group = Group(name: string, dates: set<string>, totalHours: real, amount: real, records: seq<Row>)

  /** Which of a row's numbers a sum is over. */
  datatype Measure = Hours | Amount

  function MeasureOf(r: Row, m: Measure): real {
    match m
    case Hours => r.totalHours
    case Amount => r.amount
  }

  /** Sum of one measure over rows, added in order. */
  function SumOf(rows: seq<Row>, m: Measure): real {
    if rows == [] then 0.0 else SumOf(rows[..|rows| - 1], m) + MeasureOf(rows[|rows| - 1], m)
  }

  /** The set of the rows' dates. */
  function DatesOf(rows: seq<Row>): set<string> {
    if rows == [] then {} else DatesOf(rows[..|rows| - 1]) + {rows[|rows| - 1].date}
  }

  /** The distinct names of `s` in the order each is first seen. */
  function Keys(s: seq<Row>): seq<string> {
    if s == [] then []
    else
      var ks := Keys(s[..|s| - 1]);
      if s[|s| - 1].plateName in ks then ks else ks + [s[|s| - 1].plateName]
  }

  /** The rows of `s` with name `n`, in their original order. */
  function RowsOf(s: seq<Row>, n: string): seq<Row> {
    if s == [] then []
    else RowsOf(s[..|s| - 1], n) + (if s[|s| - 1].plateName == n then [s[|s| - 1]] else [])
  }

  /** What the grouping builds for name `n`. */
  function GroupOf(s: seq<Row>, n: string): Group {
    var rows := RowsOf(s, n);
    Group(n, DatesOf(rows), SumOf(rows, Hours), SumOf(rows, Amount), rows)
  }

  /** The grouped dictionary's items, in key order. */
  function Groups(s: seq<Row>): (gs: seq<Group>)
    ensures |gs| == |Keys(s)|
    ensures forall i :: 0 <= i < |gs| ==> gs[i] == GroupOf(s, Keys(s)[i])
  {
    seq(|Keys(s)|, i requires 0 <= i < |Keys(s)| => GroupOf(s, Keys(s)[i]))
  }

  /** The items of an ordered dictionary, in key order. */
  function Items(keys: seq<string>, groups: map<string, Group>): (gs: seq<Group>)
    requires forall i :: 0 <= i < |keys| ==> keys[i] in groups
    ensures |gs| == |keys|
    ensures forall i :: 0 <= i < |keys| ==> gs[i] == groups[keys[i]]
  {
    seq(|keys|, i requires 0 <= i < |keys| => groups[keys[i]])
  }

  /** `sum(info[...] for info in grouped_data.values())` for one measure. */
  function GroupsSum(gs: seq<Group>, m: Measure): real {
    if gs == [] then 0.0
    else GroupsSum(gs[..|gs| - 1], m) + (match m case Hours => gs[|gs| - 1].totalHours case Amount => gs[|gs| - 1].amount)
  }

  /** The rows of all groups, one group after another. */
  function Concat(gs: seq<Group>): seq<Row> {
    if gs == [] then [] else Concat(gs[..|gs| - 1]) + gs[|gs| - 1].records
  }

  /** The groups' date sets united. */
  function UnionDates(gs: seq<Group>): set<string> {
    if gs == [] then {} else UnionDates(gs[..|gs| - 1]) + gs[|gs| - 1].dates
  }

  /** The sum of the sizes of the groups' date sets. */
  function SumDateCounts(gs: seq<Group>): nat {
    if gs == [] then 0 else SumDateCounts(gs[..|gs| - 1]) + |gs[|gs| - 1].dates|
  }

  /** `keys` and `groups` are the grouped dictionary of the rows `s`. */
  ghost predicate Grouped(s: seq<Row>, keys: seq<string>, groups: map<string, Group>) {
    && keys == Keys(s)
    && (forall n :: n in groups <==> n in keys)
    && (forall n :: n in groups ==> groups[n] == GroupOf(s, n))
  }

  /**
   * The grouping loop: `keys` is the dictionary's key order and `groups` maps
   * each key to its group, exactly as specified by `Keys` and `GroupOf`.
   */
  method GroupRows(data: seq<Row>) returns (keys: seq<string>, groups: map<string, Group>)
    ensures keys == Keys(data)
    ensures forall n :: n in groups <==> n in keys
    ensures forall n :: n in groups ==> groups[n] == GroupOf(data, n)
  {
    keys, groups := [], map[];
    for i := 0 to |data|
      invariant Grouped(data[..i], keys, groups)
    {
      var item := data[i];
      var name := item.plateName;
      ghost var keys0, groups0 := keys, groups;
      if name !in groups {
        groups := groups[name := Group(name, {}, 0.0, 0.0, [])];
        keys := keys + [name];
      }
      var g := groups[name];
      groups := groups[name := g.(dates := g.dates + {item.date},
                                  totalHours := g.totalHours + item.totalHours,
                                  amount := g.amount + item.amount,
                                  records := g.records + [item])];
      PrefixSnoc(data, i);
      GroupStep(data[..i], item, keys0, groups0, keys, groups);
    }
    assert data[..|data|] == data;
  }

  /** One pass of the grouping loop, over row `x`, keeps `keys` and `groups` the grouped dictionary of the rows seen. */
  lemma {:induction false} GroupStep(s: seq<Row>, x: Row, keys0: seq<string>, groups0: map<string, Group>,
                  keys: seq<string>, groups: map<string, Group>)
    requires Grouped(s, keys0, groups0)
    requires keys == if x.plateName in groups0 then keys0 else keys0 + [x.plateName]
    requires groups.Keys == groups0.Keys + {x.plateName}
    requires forall n :: n in groups0 && n != x.plateName ==> groups[n] == groups0[n]
    requires var g := if x.plateName in groups0 then groups0[x.plateName] else Group(x.plateName, {}, 0.0, 0.0, []);
      groups[x.plateName] == g.(dates := g.dates + {x.date}, totalHours := g.totalHours + x.totalHours,
                                amount := g.amount + x.amount, records := g.records + [x])
    ensures Grouped(s + [x], keys, groups)
  {
    StepKeys(s, x, keys0, groups0, keys);
    StepGroups(s, x, keys0, groups0, groups);
  }

  /** The key order after a row: unchanged for a name already seen, the name appended for a new one. */
  lemma {:induction false} StepKeys(s: seq<Row>, x: Row, keys0: seq<string>, groups0: map<string, Group>, keys: seq<string>)
    requires keys0 == Keys(s) && (forall n :: n in groups0 <==> n in keys0)
    requires keys == if x.plateName in groups0 then keys0 else keys0 + [x.plateName]
    ensures keys == Keys(s + [x])
  {
    assert (s + [x])[..|s|] == s;
  }

  /** The groups after a row: its own group grows by the row, every other group stays. */
  lemma {:induction false} StepGroups(s: seq<Row>, x: Row, keys0: seq<string>, groups0: map<string, Group>, groups: map<string, Group>)
    requires Grouped(s, keys0, groups0)
    requires groups.Keys == groups0.Keys + {x.plateName}
    requires forall n :: n in groups0 && n != x.plateName ==> groups[n] == groups0[n]
    requires var g := if x.plateName in groups0 then groups0[x.plateName] else Group(x.plateName, {}, 0.0, 0.0, []);
      groups[x.plateName] == g.(dates := g.dates + {x.date}, totalHours := g.totalHours + x.totalHours,
                                amount := g.amount + x.amount, records := g.records + [x])
    ensures forall n :: n in groups ==> groups[n] == GroupOf(s + [x], n)
  {
    forall n | n in groups ensures groups[n] == GroupOf(s + [x], n) {
      if n == x.plateName {
        StepOwnGroup(s, x, keys0, groups0, groups[n]);
      } else {
        GroupOfSnocOther(s, x, n);
      }
    }
  }

  /** The row's own group, new or existing, becomes the group of its name over the longer prefix. */
  lemma {:induction false} StepOwnGroup(s: seq<Row>, x: Row, keys0: seq<string>, groups0: map<string, Group>, g1: Group)
    requires Grouped(s, keys0, groups0)
    requires var g := if x.plateName in groups0 then groups0[x.plateName] else Group(x.plateName, {}, 0.0, 0.0, []);
      g1 == g.(dates := g.dates + {x.date}, totalHours := g.totalHours + x.totalHours,
               amount := g.amount + x.amount, records := g.records + [x])
    ensures g1 == GroupOf(s + [x], x.plateName)
  {
    if x.plateName !in groups0 {
      KeysAreNames(s);
      RowsOfAbsent(s, x.plateName);
    }
    GroupOfSnocSame(s, x);
  }

  /** A prefix one longer is the prefix and the next element. */
  lemma {:induction false} PrefixSnoc(s: seq<Row>, i: nat)
    requires i < |s|
    ensures s[..i + 1] == s[..i] + [s[i]]
  {
  }

  lemma {:induction false} RowsOfSnoc(s: seq<Row>, x: Row, n: string)
    ensures RowsOf(s + [x], n) == RowsOf(s, n) + (if x.plateName == n then [x] else [])
  {
    assert (s + [x])[..|s|] == s;
  }

  /** One more row leaves every group not named after it as it was. */
  lemma {:induction false} GroupOfSnocOther(s: seq<Row>, x: Row, n: string)
    requires x.plateName != n
    ensures GroupOf(s + [x], n) == GroupOf(s, n)
  {
    RowsOfSnoc(s, x, n);
    assert RowsOf(s + [x], n) == RowsOf(s, n);
  }

  /** One more row joins the group named after it: its date, its hours, its amount and the row itself. */
  lemma {:induction false} GroupOfSnocSame(s: seq<Row>, x: Row)
    ensures var g := GroupOf(s, x.plateName);
      GroupOf(s + [x], x.plateName) == Group(x.plateName, g.dates + {x.date}, g.totalHours + x.totalHours,
                                             g.amount + x.amount, g.records + [x])
  {
    RowsOfSnoc(s, x, x.plateName);
    var rows := RowsOf(s, x.plateName);
    SumSnoc(rows, x, Hours);
    SumSnoc(rows, x, Amount);
    DatesSnoc(rows, x);
  }

  lemma {:induction false} SumSnoc(rows: seq<Row>, x: Row, m: Measure)
    ensures SumOf(rows + [x], m) == SumOf(rows, m) + MeasureOf(x, m)
  {
    assert (rows + [x])[..|rows|] == rows;
  }

  lemma {:induction false} DatesSnoc(rows: seq<Row>, x: Row)
    ensures DatesOf(rows + [x]) == DatesOf(rows) + {x.date}
  {
    assert (rows + [x])[..|rows|] == rows;
  }

  // ---------------------------------------------------------------------------
  // The keys are the distinct names, in first-seen order.

  /** A name is a key exactly when some row carries it. */
  lemma {:induction false} KeysAreNames(s: seq<Row>)
    ensures forall n :: n in Keys(s) <==> exists i :: 0 <= i < |s| && s[i].plateName == n
  {
    if s != [] {
      var init := s[..|s| - 1];
      KeysAreNames(init);
      assert forall i :: 0 <= i < |init| ==> init[i] == s[i];
    }
  }

  /** No name is a key twice. */
  lemma {:induction false} KeysDistinct(s: seq<Row>)
    ensures forall i, j :: 0 <= i < j < |Keys(s)| ==> Keys(s)[i] != Keys(s)[j]
  {
    if s != [] {
      KeysDistinct(s[..|s| - 1]);
    }
  }

  /** Key `a` before key `b` means name `a` occurs in the rows before name `b` first does. */
  lemma {:induction false} KeysInFirstSeenOrder(s: seq<Row>, a: nat, b: nat)
    requires a < b < |Keys(s)|
    ensures exists p :: 0 <= p < |s| && s[p].plateName == Keys(s)[a]
                        && forall q :: 0 <= q <= p ==> s[q].plateName != Keys(s)[b]
  {
    var init := s[..|s| - 1];
    assert forall i :: 0 <= i < |init| ==> init[i] == s[i];
    if b < |Keys(init)| {
      KeysInFirstSeenOrder(init, a, b);
      var p :| 0 <= p < |init| && init[p].plateName == Keys(init)[a]
               && forall q :: 0 <= q <= p ==> init[q].plateName != Keys(init)[b];
      assert s[p].plateName == Keys(s)[a];
    } else {
      KeysAreNames(init);
      var n := Keys(s)[b];
      assert n !in Keys(init);
      assert Keys(init)[a] in Keys(init);
      var p :| 0 <= p < |init| && init[p].plateName == Keys(init)[a];
      assert s[p].plateName == Keys(s)[a];
      assert forall q :: 0 <= q <= p ==> s[q].plateName != n by {
        forall q | 0 <= q <= p ensures s[q].plateName != n {
          assert init[q] == s[q];
        }
      }
    }
  }

  /** The `"{N}人"` count: the number of keys is the number of distinct names. */
  lemma {:induction false} KeyCount(s: seq<Row>)
    ensures |Keys(s)| == |set i | 0 <= i < |s| :: s[i].plateName|
  {
    KeysAreNames(s);
    KeysDistinct(s);
    var names := set i | 0 <= i < |s| :: s[i].plateName;
    assert forall n :: n in names <==> n in Keys(s);
    DistinctCard(Keys(s), names);
  }

  /** A sequence without repetitions has as many elements as the set of its elements. */
  lemma {:induction false} DistinctCard(ks: seq<string>, names: set<string>)
    requires forall i, j :: 0 <= i < j < |ks| ==> ks[i] != ks[j]
    requires forall n :: n in names <==> n in ks
    ensures |names| == |ks|
  {
    if ks != [] {
      var init := ks[..|ks| - 1];
      var last := ks[|ks| - 1];
      assert forall j :: 0 <= j < |init| ==> init[j] == ks[j];
      assert last !in init;
      assert forall n :: n in names - {last} <==> n in init by {
        forall n ensures n in names - {last} <==> n in init {
          if n in ks && n != last {
            var j :| 0 <= j < |ks| && ks[j] == n;
            assert j < |ks| - 1 && init[j] == n;
          }
        }
      }
      DistinctCard(init, names - {last});
    }
  }

  // ---------------------------------------------------------------------------
  // Each group's rows are exactly the rows with its name, in order.

  lemma {:induction false} RowsOfAbsent(s: seq<Row>, n: string)
    requires forall i :: 0 <= i < |s| ==> s[i].plateName != n
    ensures RowsOf(s, n) == []
  {
    if s != [] {
      RowsOfAbsent(s[..|s| - 1], n);
    }
  }

  /** Every row of group `n` has name `n`, and each row with name `n` occurs in it as often as in the data. */
  lemma {:induction false} RowsOfExact(s: seq<Row>, n: string)
    ensures forall r :: r in RowsOf(s, n) ==> r.plateName == n
    ensures forall r: Row :: r.plateName == n ==> multiset(RowsOf(s, n))[r] == multiset(s)[r]
  {
    if s != [] {
      var init := s[..|s| - 1];
      RowsOfExact(init, n);
      assert s == init + [s[|s| - 1]];
    }
  }

  // ---------------------------------------------------------------------------
  // The groups partition the data.

  /** The group rows of the names `ks`, concatenated. */
  function CatRows(ks: seq<string>, s: seq<Row>): seq<Row> {
    if ks == [] then [] else CatRows(ks[..|ks| - 1], s) + RowsOf(s, ks[|ks| - 1])
  }

  lemma {:induction false} ConcatGroups(s: seq<Row>, k: nat)
    requires k <= |Keys(s)|
    ensures Concat(Groups(s)[..k]) == CatRows(Keys(s)[..k], s)
  {
    if k > 0 {
      ConcatGroups(s, k - 1);
      assert Groups(s)[..k][..k - 1] == Groups(s)[..k - 1];
      assert Keys(s)[..k][..k - 1] == Keys(s)[..k - 1];
    }
  }

  /** Adding row `x` at the end of the data adds it to the one group named like it, if that name is listed. */
  lemma {:induction false} CatRowsSnoc(ks: seq<string>, s: seq<Row>, x: Row)
    requires forall i, j :: 0 <= i < j < |ks| ==> ks[i] != ks[j]
    ensures multiset(CatRows(ks, s + [x])) == multiset(CatRows(ks, s)) + (if x.plateName in ks then multiset{x} else multiset{})
  {
    if ks != [] {
      var init, k := ks[..|ks| - 1], ks[|ks| - 1];
      assert forall j :: 0 <= j < |init| ==> init[j] == ks[j];
      CatRowsSnoc(init, s, x);
      assert ks == init + [k];
      CatRowsStep(init, k, s, x);
    }
  }

  /** The step of `CatRowsSnoc`: one more listed name, distinct from the others. */
  lemma {:induction false} CatRowsStep(init: seq<string>, k: string, s: seq<Row>, x: Row)
    requires k !in init
    requires multiset(CatRows(init, s + [x])) == multiset(CatRows(init, s)) + (if x.plateName in init then multiset{x} else multiset{})
    ensures multiset(CatRows(init + [k], s + [x])) ==
            multiset(CatRows(init + [k], s)) + (if x.plateName in init + [k] then multiset{x} else multiset{})
  {
    assert (init + [k])[..|init|] == init;
    RowsOfSnoc(s, x, k);
  }

  lemma {:induction false} CatRowsOutside(ks: seq<string>, s: seq<Row>, x: Row)
    requires x.plateName !in ks
    ensures CatRows(ks, s + [x]) == CatRows(ks, s)
  {
    if ks != [] {
      CatRowsOutside(ks[..|ks| - 1], s, x);
      assert (s + [x])[..|s + [x]| - 1] == s;
    }
  }

  lemma {:induction false} CatRowsPartition(s: seq<Row>)
    ensures multiset(CatRows(Keys(s), s)) == multiset(s)
  {
    if s != [] {
      var init := s[..|s| - 1];
      var x := s[|s| - 1];
      assert s == init + [x];
      CatRowsPartition(init);
      KeysDistinct(init);
      CatRowsSnoc(Keys(init), init, x);
      if x.plateName !in Keys(init) {
        KeysAreNames(init);
        RowsOfAbsent(init, x.plateName);
        assert Keys(s) == Keys(init) + [x.plateName];
        assert Keys(s)[..|Keys(s)| - 1] == Keys(init);
        assert RowsOf(s, x.plateName) == [x];
      }
    }
  }

  /** Concatenating the groups' rows gives back the data, up to order. */
  lemma {:induction false} GroupsPartitionData(s: seq<Row>)
    ensures multiset(Concat(Groups(s))) == multiset(s)
  {
    ConcatGroups(s, |Keys(s)|);
    assert Groups(s)[..|Keys(s)|] == Groups(s);
    assert Keys(s)[..|Keys(s)|] == Keys(s);
    CatRowsPartition(s);
  }

  // ---------------------------------------------------------------------------
  // Sums and dates over a permutation.

  lemma {:induction false} SumConcat(a: seq<Row>, b: seq<Row>, m: Measure)
    ensures SumOf(a + b, m) == SumOf(a, m) + SumOf(b, m)
  {
    if b == [] {
      assert a + b == a;
    } else {
      assert (a + b)[..|a + b| - 1] == a + b[..|b| - 1];
      SumConcat(a, b[..|b| - 1], m);
    }
  }

  lemma {:induction false} RemoveAt(b: seq<Row>, j: nat)
    requires j < |b|
    ensures multiset(b) == multiset(b[..j] + b[j + 1..]) + multiset{b[j]}
  {
    assert b == b[..j] + [b[j]] + b[j + 1..];
  }

  lemma {:induction false} SumAt(b: seq<Row>, j: nat, m: Measure)
    requires j < |b|
    ensures SumOf(b, m) == SumOf(b[..j] + b[j + 1..], m) + MeasureOf(b[j], m)
  {
    assert b == (b[..j] + [b[j]]) + b[j + 1..];
    SumConcat(b[..j] + [b[j]], b[j + 1..], m);
    SumConcat(b[..j], [b[j]], m);
    SumConcat(b[..j], b[j + 1..], m);
    assert [b[j]][..0] == [];
  }

  /** Sums do not depend on the order of the rows. */
  lemma {:induction false} SumPermutation(a: seq<Row>, b: seq<Row>, m: Measure)
    requires multiset(a) == multiset(b)
    ensures SumOf(a, m) == SumOf(b, m)
  {
    if a == [] {
      assert |multiset(b)| == 0;
    } else {
      var j := PickLast(a, b);
      SumPermutation(a[..|a| - 1], b[..j] + b[j + 1..], m);
      SumAt(b, j, m);
    }
  }

  /** The last row of `a` is somewhere in its permutation `b`; the rest of each are permutations too. */
  lemma {:induction false} PickLast(a: seq<Row>, b: seq<Row>) returns (j: nat)
    requires a != [] && multiset(a) == multiset(b)
    ensures j < |b| && b[j] == a[|a| - 1]
    ensures multiset(a[..|a| - 1]) == multiset(b[..j] + b[j + 1..])
  {
    var init := a[..|a| - 1];
    var x := a[|a| - 1];
    assert a == init + [x];
    assert multiset(a) == multiset(init) + multiset{x};
    assert x in multiset(b);
    j :| 0 <= j < |b| && b[j] == x;
    RemoveAt(b, j);
    assert multiset(init) == multiset(a) - multiset{x};
    assert multiset(b[..j] + b[j + 1..]) == multiset(b) - multiset{x};
  }

  /** The dates of some rows are the dates of the rows they contain. */
  lemma {:induction false} DatesAreRowDates(rows: seq<Row>)
    ensures forall d :: d in DatesOf(rows) <==> exists r :: r in rows && r.date == d
  {
    if rows != [] {
      DatesAreRowDates(rows[..|rows| - 1]);
      assert rows == rows[..|rows| - 1] + [rows[|rows| - 1]];
    }
  }

  lemma {:induction false} DatesPermutation(a: seq<Row>, b: seq<Row>)
    requires multiset(a) == multiset(b)
    ensures DatesOf(a) == DatesOf(b)
  {
    DatesAreRowDates(a);
    DatesAreRowDates(b);
    assert forall r :: r in a <==> r in b by {
      forall r ensures r in a <==> r in b {
        assert r in a <==> r in multiset(a);
        assert r in b <==> r in multiset(b);
      }
    }
  }

  lemma {:induction false} GroupsSumConcat(gs: seq<Group>, m: Measure)
    requires forall i :: 0 <= i < |gs| ==>
               gs[i].totalHours == SumOf(gs[i].records, Hours) && gs[i].amount == SumOf(gs[i].records, Amount)
    ensures GroupsSum(gs, m) == SumOf(Concat(gs), m)
  {
    if gs != [] {
      GroupsSumConcat(gs[..|gs| - 1], m);
      SumConcat(Concat(gs[..|gs| - 1]), gs[|gs| - 1].records, m);
    }
  }

  lemma {:induction false} UnionDatesConcat(gs: seq<Group>)
    requires forall i :: 0 <= i < |gs| ==> gs[i].dates == DatesOf(gs[i].records)
    ensures UnionDates(gs) == DatesOf(Concat(gs))
  {
    if gs != [] {
      UnionDatesConcat(gs[..|gs| - 1]);
      var a, b := Concat(gs[..|gs| - 1]), gs[|gs| - 1].records;
      DatesAreRowDates(a);
      DatesAreRowDates(b);
      DatesAreRowDates(a + b);
    }
  }

  /** The grand totals (sums over the groups) are the sums over every kept row. */
  lemma {:induction false} GrandTotals(s: seq<Row>)
    ensures GroupsSum(Groups(s), Hours) == SumOf(s, Hours)
    ensures GroupsSum(Groups(s), Amount) == SumOf(s, Amount)
  {
    GroupsPartitionData(s);
    GroupsSumConcat(Groups(s), Hours);
    GroupsSumConcat(Groups(s), Amount);
    SumPermutation(Concat(Groups(s)), s, Hours);
    SumPermutation(Concat(Groups(s)), s, Amount);
  }

  /** The groups' dates together are the dates of all kept rows. */
  lemma {:induction false} AllDates(s: seq<Row>)
    ensures UnionDates(Groups(s)) == DatesOf(s)
  {
    GroupsPartitionData(s);
    UnionDatesConcat(Groups(s));
    DatesPermutation(Concat(Groups(s)), s);
  }

  lemma {:induction false} UnionDatesBounds(gs: seq<Group>)
    ensures |UnionDates(gs)| <= SumDateCounts(gs)
    ensures forall i :: 0 <= i < |gs| ==> gs[i].dates <= UnionDates(gs)
  {
    if gs != [] {
      var init := gs[..|gs| - 1];
      UnionDatesBounds(init);
      var a, b := UnionDates(init), gs[|gs| - 1].dates;
      assert |a + b| <= |a| + |b| by {
        assert a + b == a + (b - a);
        assert |a + (b - a)| == |a| + |b - a|;
        assert |b - a| <= |b| by { assert b - a <= b; }
      }
      assert forall i :: 0 <= i < |init| ==> gs[i] == init[i];
    }
  }

  /**
   * The number of distinct days of all kept rows is at least any one group's
   * count of days and at most the sum of the groups' counts.
   */
  lemma {:induction false} DistinctDayBounds(s: seq<Row>, i: nat)
    requires i < |Groups(s)|
    ensures |Groups(s)[i].dates| <= |DatesOf(s)| <= SumDateCounts(Groups(s))
  {
    AllDates(s);
    UnionDatesBounds(Groups(s));
    SubsetCard(Groups(s)[i].dates, DatesOf(s));
  }

  lemma {:induction false} SubsetCard(a: set<string>, b: set<string>)
    requires a <= b
    ensures |a| <= |b|
  {
    assert b == a + (b - a);
  }
}
