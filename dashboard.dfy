/** The dashboard metrics: all-time counts and sums of customer-side and
    supplier-side invoices, per-month statistics of the current year's
    customer-side invoices, and the all-time profit. */
module Dashboard {
  import opened Wrappers
  import Text
  import opened Models

  type SupplierId = nat

  /** An invoice row as the dashboard queries see it: customer-side when the
      supplier is unset, supplier-side when the customer is unset. */
  datatype Row = Row(amount: int, date: DateTime, customer: Option<Customer>, supplier: Option<SupplierId>)

  /** The filters the queries use. */
  datatype Condition =
    | SupplierUnset                              // supplier__isnull=True
    | CustomerUnset                              // customer__isnull=True
    | SupplierUnsetIn(year: int, month: int)     // supplier__isnull=True, date in that month

  predicate Holds(c: Condition, r: Row)
  {
    match c
    case SupplierUnset => r.supplier.None?
    case CustomerUnset => r.customer.None?
    case SupplierUnsetIn(y, m) => r.supplier.None? && r.date.year == y && r.date.month == m
  }

  // ---------------------------------------------------------------------
  // Filtering, counting and summing
  // ---------------------------------------------------------------------

  /** The rows a condition selects, in table order. */
  function Filter(rows: seq<Row>, c: Condition): seq<Row>
  {
    if rows == [] then []
    else if Holds(c, rows[0]) then [rows[0]] + Filter(rows[1..], c)
    else Filter(rows[1..], c)
  }

  /** Reference count: the number of rows satisfying the condition. */
  function CountWhere(rows: seq<Row>, c: Condition): nat
  {
    if rows == [] then 0 else (if Holds(c, rows[0]) then 1 else 0) + CountWhere(rows[1..], c)
  }

  /** Reference sum: the total amount of the rows satisfying the condition. */
  function SumWhere(rows: seq<Row>, c: Condition): int
  {
    if rows == [] then 0 else (if Holds(c, rows[0]) then rows[0].amount else 0) + SumWhere(rows[1..], c)
  }

  function TotalAmount(rows: seq<Row>): int
  {
    if rows == [] then 0 else rows[0].amount + TotalAmount(rows[1..])
  }

  lemma {:induction false} FilterCountSum(rows: seq<Row>, c: Condition)
    ensures |Filter(rows, c)| == CountWhere(rows, c)
    ensures TotalAmount(Filter(rows, c)) == SumWhere(rows, c)
  {
    if rows != [] {
      FilterCountSum(rows[1..], c);
      if Holds(c, rows[0]) {
        assert ([rows[0]] + Filter(rows[1..], c))[1..] == Filter(rows[1..], c);
      }
    }
  }

  lemma {:induction false} CountWherePositive(rows: seq<Row>, c: Condition)
    ensures CountWhere(rows, c) > 0 <==> exists i :: 0 <= i < |rows| && Holds(c, rows[i])
  {
    if rows != [] {
      CountWherePositive(rows[1..], c);
      if Holds(c, rows[0]) {
      } else if CountWhere(rows, c) > 0 {
        var i :| 0 <= i < |rows[1..]| && Holds(c, rows[1..][i]);
        assert Holds(c, rows[i + 1]);
      } else {
        forall i | 0 <= i < |rows| ensures !Holds(c, rows[i]) {
          if i > 0 { assert rows[i] == rows[1..][i - 1]; }
        }
      }
    }
  }

  // ---------------------------------------------------------------------
  // All-time statistics
  // ---------------------------------------------------------------------

  /** `{count, sum}` of an aggregate: SQL's SUM over no rows is NULL. */
  datatype Totals = Totals(count: nat, sum: Option<int>)

  /** The aggregate query: the number of rows and the summed amount. */
  function Aggregate(rows: seq<Row>): Totals
  {
    Totals(|rows|, if rows == [] then None else Some(TotalAmount(rows)))
  }

  /** The all-time customer-side statistics. */
  function AlltimeStats(rows: seq<Row>): (t: Totals)
    ensures t.count == CountWhere(rows, SupplierUnset)
    ensures t.sum.None? <==> t.count == 0
    ensures t.sum.Some? ==> t.sum.value == SumWhere(rows, SupplierUnset)
  {
    FilterCountSum(rows, SupplierUnset);
    Aggregate(Filter(rows, SupplierUnset))
  }

  /** The all-time supplier-side statistics. */
  function AlltimeSupplierStats(rows: seq<Row>): (t: Totals)
    ensures t.count == CountWhere(rows, CustomerUnset)
    ensures t.sum.None? <==> t.count == 0
    ensures t.sum.Some? ==> t.sum.value == SumWhere(rows, CustomerUnset)
  {
    FilterCountSum(rows, CustomerUnset);
    Aggregate(Filter(rows, CustomerUnset))
  }

  // ---------------------------------------------------------------------
  // Monthly statistics of the current year
  // ---------------------------------------------------------------------

  /** One row of the grouped query: the month (truncated date), count, sum and average. */
  datatype MonthGroup = MonthGroup(month: DateTime, count: nat, total: int, average: real)

  /** The mean of `count` amounts totalling `total`, times `count`, is `total`. */
  lemma AverageTimesCount(total: int, count: nat)
    requires count > 0
    ensures (total as real / count as real) * (count as real) == total as real
  {
  }

  /** The group of one month of one year, over the customer-side rows. */
  function GroupOf(rows: seq<Row>, year: int, month: int): (g: MonthGroup)
    ensures g.month == DateTime(year, month, 1, 0)
    ensures g.count == CountWhere(rows, SupplierUnsetIn(year, month))
    ensures g.total == SumWhere(rows, SupplierUnsetIn(year, month))
    ensures g.count > 0 ==> g.average * (g.count as real) == g.total as real
  {
    var sel := Filter(rows, SupplierUnsetIn(year, month));
    FilterCountSum(rows, SupplierUnsetIn(year, month));
    var total := TotalAmount(sel);
    var count := |sel|;
    if count == 0 then MonthGroup(DateTime(year, month, 1, 0), 0, total, 0.0)
    else
      AverageTimesCount(total, count);
      MonthGroup(DateTime(year, month, 1, 0), count, total, total as real / count as real)
  }

  /** The groups of the months `month`..12 that have at least one invoice. */
  function GroupsFrom(rows: seq<Row>, year: int, month: int): seq<MonthGroup>
    requires 1 <= month <= 13
    decreases 13 - month
  {
    if month == 13 then []
    else
      var g := GroupOf(rows, year, month);
      if g.count == 0 then GroupsFrom(rows, year, month + 1)
      else [g] + GroupsFrom(rows, year, month + 1)
  }

  /** `g` is the statistics row of the non-empty month `g.month` of `year`. */
  predicate IsMonthGroup(g: MonthGroup, rows: seq<Row>, year: int)
  {
    && g.month == DateTime(year, g.month.month, 1, 0)
    && g.count > 0
    && g.count == CountWhere(rows, SupplierUnsetIn(year, g.month.month))
    && g.total == SumWhere(rows, SupplierUnsetIn(year, g.month.month))
    && g.average * (g.count as real) == g.total as real
  }

  /** Every group is a non-empty month of `year` between `from` and December. */
  predicate GroupsOfMonths(gs: seq<MonthGroup>, rows: seq<Row>, year: int, from: int)
  {
    forall i :: 0 <= i < |gs| ==> from <= gs[i].month.month <= 12 && IsMonthGroup(gs[i], rows, year)
  }

  predicate AscendingMonths(gs: seq<MonthGroup>)
  {
    forall i, j :: 0 <= i < j < |gs| ==> gs[i].month.month < gs[j].month.month
  }

  /** Every month from `from` to December that has invoices has a group. */
  predicate CoversMonths(gs: seq<MonthGroup>, rows: seq<Row>, year: int, from: int)
  {
    forall m :: from <= m <= 12 && CountWhere(rows, SupplierUnsetIn(year, m)) > 0 ==>
      exists i :: 0 <= i < |gs| && gs[i].month.month == m
  }

  lemma {:induction false} GroupsFromBounds(rows: seq<Row>, year: int, month: int)
    requires 1 <= month <= 13
    ensures GroupsOfMonths(GroupsFrom(rows, year, month), rows, year, month)
    decreases 13 - month
  {
    if month < 13 {
      GroupsFromBounds(rows, year, month + 1);
      var g := GroupOf(rows, year, month);
      var rest := GroupsFrom(rows, year, month + 1);
      if g.count > 0 {
        var gs := [g] + rest;
        assert gs == GroupsFrom(rows, year, month);
        assert IsMonthGroup(g, rows, year) && g.month.month == month;
        forall i | 0 < i < |gs|
          ensures month < gs[i].month.month <= 12 && IsMonthGroup(gs[i], rows, year)
        {
          assert gs[i] == rest[i - 1];
        }
      } else {
        assert rest == GroupsFrom(rows, year, month);
      }
    }
  }

  lemma {:induction false} GroupsFromAscending(rows: seq<Row>, year: int, month: int)
    requires 1 <= month <= 13
    ensures AscendingMonths(GroupsFrom(rows, year, month))
    decreases 13 - month
  {
    if month < 13 {
      GroupsFromAscending(rows, year, month + 1);
      GroupsFromBounds(rows, year, month + 1);
      var g := GroupOf(rows, year, month);
      var rest := GroupsFrom(rows, year, month + 1);
      if g.count > 0 {
        var gs := [g] + rest;
        assert gs == GroupsFrom(rows, year, month);
        forall i, j | 0 <= i < j < |gs| ensures gs[i].month.month < gs[j].month.month {
          assert gs[j] == rest[j - 1];
          if i > 0 { assert gs[i] == rest[i - 1]; }
        }
      } else {
        assert rest == GroupsFrom(rows, year, month);
      }
    }
  }

  lemma {:induction false} GroupsFromCovers(rows: seq<Row>, year: int, month: int)
    requires 1 <= month <= 13
    ensures CoversMonths(GroupsFrom(rows, year, month), rows, year, month)
    decreases 13 - month
  {
    if month < 13 {
      GroupsFromCovers(rows, year, month + 1);
      var g := GroupOf(rows, year, month);
      var rest := GroupsFrom(rows, year, month + 1);
      if g.count > 0 {
        var gs := [g] + rest;
        assert gs == GroupsFrom(rows, year, month);
        forall m | month <= m <= 12 && CountWhere(rows, SupplierUnsetIn(year, m)) > 0
          ensures exists i :: 0 <= i < |gs| && gs[i].month.month == m
        {
          if m == month {
            assert gs[0].month.month == m;
          } else {
            var i :| 0 <= i < |rest| && rest[i].month.month == m;
            assert gs[i + 1] == rest[i];
          }
        }
      } else {
        assert rest == GroupsFrom(rows, year, month);
      }
    }
  }

  /** The grouped query: the customer-side invoices of `year` grouped by
      month, months without invoices absent, ordered by month. */
  function MonthlyQuery(rows: seq<Row>, year: int): seq<MonthGroup>
  {
    GroupsFrom(rows, year, 1)
  }

  /** The statistics stored under a month key. */
  datatype MonthStats = MonthStats(count: nat, sum: int, avg: real)

  function StatsOf(g: MonthGroup): MonthStats
  {
    MonthStats(g.count, g.total, g.average)
  }

  /** The month key: two-digit month, '-', the year. */
  function MonthKey(d: DateTime): (k: string)
    requires 1 <= d.month <= 12 && d.year >= 0
    ensures |k| >= 4 && k[2] == '-' && Text.AllDigits(k[..2]) && Text.ParseDecimal(k[..2]) == d.month
  {
    var k := Text.TwoDigits(d.month as nat) + "-" + Text.Decimal(d.year as nat);
    assert k[..2] == Text.TwoDigits(d.month as nat);
    assert Text.AllDigits(k[..2]);
    k
  }

  /** Reads a month key back into (month, year). */
  function ParseMonthKey(k: string): Option<(int, int)>
  {
    if |k| < 4 || k[2] != '-' || !Text.AllDigits(k[..2]) || !Text.AllDigits(k[3..]) then None
    else Some((Text.ParseDecimal(k[..2]), Text.ParseDecimal(k[3..])))
  }

  lemma MonthKeyRoundTrip(d: DateTime)
    requires 1 <= d.month <= 12 && d.year >= 0
    ensures ParseMonthKey(MonthKey(d)) == Some((d.month, d.year))
  {
    var k := MonthKey(d);
    assert k[3..] == Text.Decimal(d.year as nat);
    Text.ParseDecimalOfDecimal(d.year as nat);
  }

  /** Distinct months get distinct keys. */
  lemma MonthKeyInjective(a: DateTime, b: DateTime)
    requires 1 <= a.month <= 12 && a.year >= 0 && 1 <= b.month <= 12 && b.year >= 0
    requires MonthKey(a) == MonthKey(b)
    ensures a.month == b.month && a.year == b.year
  {
    MonthKeyRoundTrip(a);
    MonthKeyRoundTrip(b);
  }

  predicate KeyableGroups(groups: seq<MonthGroup>)
  {
    forall i :: 0 <= i < |groups| ==> 1 <= groups[i].month.month <= 12 && groups[i].month.year >= 0
  }

  /** A Python dict: keys in insertion order, and the mapping. */
  datatype Dict<K, V> = Dict(keys: seq<K>, values: map<K, V>)

  /** `d[k] = v`: a new key goes to the end; an existing key keeps its place. */
  function Put<K(==), V>(d: Dict<K, V>, k: K, v: V): Dict<K, V>
  {
    Dict(if k in d.values then d.keys else d.keys + [k], d.values[k := v])
  }

  /** The dict built by assigning the entries one after the other. */
  function DictOf<K(==), V>(entries: seq<(K, V)>): Dict<K, V>
  {
    if entries == [] then Dict([], map[])
    else
      var n := |entries| - 1;
      Put(DictOf(entries[..n]), entries[n].0, entries[n].1)
  }

  /** The (key, statistics) entry each group contributes. */
  function Entries(groups: seq<MonthGroup>): (es: seq<(string, MonthStats)>)
    requires KeyableGroups(groups)
    ensures |es| == |groups|
    ensures forall i :: 0 <= i < |groups| ==> es[i] == (MonthKey(groups[i].month), StatsOf(groups[i]))
  {
    if groups == [] then []
    else
      var n := |groups| - 1;
      Entries(groups[..n]) + [(MonthKey(groups[n].month), StatsOf(groups[n]))]
  }

  /** Keys listed once each, and listed exactly when they are mapped. */
  predicate WellFormed<K(==), V>(d: Dict<K, V>)
  {
    && (forall i, j :: 0 <= i < j < |d.keys| ==> d.keys[i] != d.keys[j])
    && (forall k :: k in d.values ==> k in d.keys)
    && (forall i :: 0 <= i < |d.keys| ==> d.keys[i] in d.values)
  }

  lemma PutWellFormed<K, V>(d: Dict<K, V>, k: K, v: V)
    requires WellFormed(d)
    ensures WellFormed(Put(d, k, v))
  {
    var e := Put(d, k, v);
    if k !in d.values {
      forall i, j | 0 <= i < j < |e.keys| ensures e.keys[i] != e.keys[j] {
        if j == |d.keys| {
          assert e.keys[i] == d.keys[i];
        }
      }
    }
  }

  /** Assigning one more entry extends the dict by one `Put`. */
  lemma DictOfSnoc<K, V>(entries: seq<(K, V)>, i: nat)
    requires i < |entries|
    ensures DictOf(entries[..i + 1]) == Put(DictOf(entries[..i]), entries[i].0, entries[i].1)
  {
    assert entries[..i + 1][..i] == entries[..i];
  }

  /** Every assigned key stays in the dict: assignments never remove one. */
  lemma {:induction false} KeyOfDictOf<K, V>(entries: seq<(K, V)>, i: nat)
    requires i < |entries|
    ensures entries[i].0 in DictOf(entries).values
  {
    var n := |entries| - 1;
    if i < n {
      KeyOfDictOf(entries[..n], i);
    }
  }

  /** `monthly_invoice_stats`, filled entry by entry from the grouped query. */
  method BuildMonthlyStats(groups: seq<MonthGroup>) returns (d: Dict<string, MonthStats>)
    requires KeyableGroups(groups)
    ensures d == DictOf(Entries(groups))
    ensures WellFormed(d)
  {
    ghost var es := Entries(groups);
    d := Dict([], map[]);
    var i := 0;
    while i < |groups|
      invariant 0 <= i <= |groups|
      invariant d == DictOf(es[..i])
      invariant WellFormed(d)
    {
      var stat := groups[i];
      var key := MonthKey(stat.month);
      var stats := MonthStats(stat.count, stat.total, stat.average);
      assert es[i] == (key, stats);
      DictOfSnoc(es, i);
      PutWellFormed(d, key, stats);
      d := Put(d, key, stats);
      i := i + 1;
    }
    assert es[..|groups|] == es;
  }

  predicate DistinctFirsts<K(==), V>(entries: seq<(K, V)>)
  {
    forall i, j :: 0 <= i < j < |entries| ==> entries[i].0 != entries[j].0
  }

  /** Every key of the dict was assigned by some entry. */
  lemma {:induction false} DictOfOnlyEntries<K, V>(entries: seq<(K, V)>)
    ensures forall k :: k in DictOf(entries).values ==> exists i :: 0 <= i < |entries| && k == entries[i].0
  {
    if entries != [] {
      var n := |entries| - 1;
      var init := entries[..n];
      DictOfOnlyEntries(init);
      forall k | k in DictOf(entries).values ensures exists i :: 0 <= i < |entries| && k == entries[i].0 {
        if k != entries[n].0 {
          assert k in DictOf(init).values;
          var i :| 0 <= i < n && k == init[i].0;
          assert entries[i] == init[i];
        }
      }
    }
  }

  /** With pairwise distinct keys the keys are listed in entry order, one per entry. */
  lemma {:induction false} DictOfKeys<K, V>(entries: seq<(K, V)>)
    requires DistinctFirsts(entries)
    ensures |DictOf(entries).keys| == |entries|
    ensures forall i :: 0 <= i < |entries| ==> DictOf(entries).keys[i] == entries[i].0
  {
    if entries != [] {
      var n := |entries| - 1;
      var init := entries[..n];
      assert forall i :: 0 <= i < n ==> init[i] == entries[i];
      DictOfKeys(init);
      DictOfOnlyEntries(init);
      assert entries[n].0 !in DictOf(init).values;
    }
  }

  /** With pairwise distinct keys each entry's value is the one stored. */
  lemma {:induction false} DictOfValues<K, V>(entries: seq<(K, V)>)
    requires DistinctFirsts(entries)
    ensures forall i :: 0 <= i < |entries| ==>
      entries[i].0 in DictOf(entries).values && DictOf(entries).values[entries[i].0] == entries[i].1
  {
    if entries != [] {
      var n := |entries| - 1;
      var init := entries[..n];
      assert forall i :: 0 <= i < n ==> init[i] == entries[i];
      DictOfValues(init);
    }
  }

  /** `monthly_invoice_stats` of the dashboard for the current year `year`. */
  function MonthlyStats(rows: seq<Row>, year: int): Dict<string, MonthStats>
    requires 1 <= year <= 9999
  {
    GroupsFromBounds(rows, year, 1);
    DictOf(Entries(MonthlyQuery(rows, year)))
  }

  /** The month a key names (0 for a string that is not a key). */
  function KeyMonth(k: string): int
  {
    match ParseMonthKey(k)
    case Some(p) => p.0
    case None => 0
  }

  /** The statistics `s` are those of the customer-side invoices of month `m`. */
  predicate StatsOfMonth(s: MonthStats, rows: seq<Row>, year: int, m: int)
  {
    && s.count == CountWhere(rows, SupplierUnsetIn(year, m))
    && s.sum == SumWhere(rows, SupplierUnsetIn(year, m))
    && s.avg * (s.count as real) == s.sum as real
  }

  /** The entries of the monthly query have distinct keys, one per group. */
  lemma MonthlyEntries(rows: seq<Row>, year: int)
    requires 1 <= year <= 9999
    ensures KeyableGroups(MonthlyQuery(rows, year))
    ensures DistinctFirsts(Entries(MonthlyQuery(rows, year)))
  {
    var groups := MonthlyQuery(rows, year);
    GroupsFromBounds(rows, year, 1);
    GroupsFromAscending(rows, year, 1);
    var es := Entries(groups);
    forall i, j | 0 <= i < j < |es| ensures es[i].0 != es[j].0 {
      if es[i].0 == es[j].0 {
        MonthKeyInjective(groups[i].month, groups[j].month);
      }
    }
  }

  /** A month with customer-side invoices has a key in the monthly mapping. */
  lemma MonthKeyIfInvoices(rows: seq<Row>, year: int, m: int)
    requires 1 <= year <= 9999 && 1 <= m <= 12
    requires CountWhere(rows, SupplierUnsetIn(year, m)) > 0
    ensures MonthKey(DateTime(year, m, 1, 0)) in MonthlyStats(rows, year).values
  {
    var groups := MonthlyQuery(rows, year);
    GroupsFromCovers(rows, year, 1);
    GroupsFromBounds(rows, year, 1);
    var es := Entries(groups);
    var i :| 0 <= i < |groups| && groups[i].month.month == m;
    assert groups[i].month == DateTime(year, m, 1, 0);
    KeyOfDictOf(es, i);
  }

  /** A month with a key in the monthly mapping has customer-side invoices. */
  lemma InvoicesIfMonthKey(rows: seq<Row>, year: int, m: int)
    requires 1 <= year <= 9999 && 1 <= m <= 12
    requires MonthKey(DateTime(year, m, 1, 0)) in MonthlyStats(rows, year).values
    ensures CountWhere(rows, SupplierUnsetIn(year, m)) > 0
  {
    var groups := MonthlyQuery(rows, year);
    MonthlyEntries(rows, year);
    var es := Entries(groups);
    DictOfOnlyEntries(es);
    var i :| 0 <= i < |es| && MonthKey(DateTime(year, m, 1, 0)) == es[i].0;
    GroupsFromBounds(rows, year, 1);
    MonthKeyInjective(groups[i].month, DateTime(year, m, 1, 0));
    assert IsMonthGroup(groups[i], rows, year);
  }

  /** Every key of the monthly mapping is the key of a month of `year`. */
  lemma MonthlyStatsOnlyMonthKeys(rows: seq<Row>, year: int)
    requires 1 <= year <= 9999
    ensures forall k :: k in MonthlyStats(rows, year).values ==>
      exists m :: 1 <= m <= 12 && k == MonthKey(DateTime(year, m, 1, 0))
  {
    var groups := MonthlyQuery(rows, year);
    MonthlyEntries(rows, year);
    GroupsFromBounds(rows, year, 1);
    var es := Entries(groups);
    DictOfOnlyEntries(es);
    var d := MonthlyStats(rows, year);
    forall k | k in d.values ensures exists m :: 1 <= m <= 12 && k == MonthKey(DateTime(year, m, 1, 0)) {
      var i :| 0 <= i < |es| && k == es[i].0;
      assert groups[i].month == DateTime(year, groups[i].month.month, 1, 0);
    }
  }

  /** The monthly mapping has a key exactly for each month of `year` with
      customer-side invoices, and no other key. */
  lemma MonthlyStatsKeys(rows: seq<Row>, year: int)
    requires 1 <= year <= 9999
    ensures forall m :: 1 <= m <= 12 ==>
      (MonthKey(DateTime(year, m, 1, 0)) in MonthlyStats(rows, year).values <==> CountWhere(rows, SupplierUnsetIn(year, m)) > 0)
    ensures forall k :: k in MonthlyStats(rows, year).values ==>
      exists m :: 1 <= m <= 12 && k == MonthKey(DateTime(year, m, 1, 0))
  {
    forall m | 1 <= m <= 12
      ensures MonthKey(DateTime(year, m, 1, 0)) in MonthlyStats(rows, year).values <==> CountWhere(rows, SupplierUnsetIn(year, m)) > 0
    {
      if CountWhere(rows, SupplierUnsetIn(year, m)) > 0 {
        MonthKeyIfInvoices(rows, year, m);
      }
      if MonthKey(DateTime(year, m, 1, 0)) in MonthlyStats(rows, year).values {
        InvoicesIfMonthKey(rows, year, m);
      }
    }
    MonthlyStatsOnlyMonthKeys(rows, year);
  }

  lemma StatsOfGroup(g: MonthGroup, rows: seq<Row>, year: int)
    requires IsMonthGroup(g, rows, year)
    ensures StatsOfMonth(StatsOf(g), rows, year, g.month.month)
  {
  }

  /** The statistics stored under the key of month `m`. */
  lemma MonthValue(rows: seq<Row>, year: int, m: int)
    requires 1 <= year <= 9999 && 1 <= m <= 12
    requires MonthKey(DateTime(year, m, 1, 0)) in MonthlyStats(rows, year).values
    ensures StatsOfMonth(MonthlyStats(rows, year).values[MonthKey(DateTime(year, m, 1, 0))], rows, year, m)
  {
    var groups := MonthlyQuery(rows, year);
    MonthlyEntries(rows, year);
    GroupsFromBounds(rows, year, 1);
    var es := Entries(groups);
    DictOfOnlyEntries(es);
    var key := MonthKey(DateTime(year, m, 1, 0));
    var i :| 0 <= i < |es| && key == es[i].0;
    MonthKeyInjective(groups[i].month, DateTime(year, m, 1, 0));
    DictOfValues(es);
    StatsOfGroup(groups[i], rows, year);
  }

  /** Under each key: the count, the sum and an average with `avg * count == sum`. */
  lemma MonthlyStatsValues(rows: seq<Row>, year: int)
    requires 1 <= year <= 9999
    ensures forall m :: 1 <= m <= 12 && MonthKey(DateTime(year, m, 1, 0)) in MonthlyStats(rows, year).values ==>
      StatsOfMonth(MonthlyStats(rows, year).values[MonthKey(DateTime(year, m, 1, 0))], rows, year, m)
  {
    forall m | 1 <= m <= 12 && MonthKey(DateTime(year, m, 1, 0)) in MonthlyStats(rows, year).values
      ensures StatsOfMonth(MonthlyStats(rows, year).values[MonthKey(DateTime(year, m, 1, 0))], rows, year, m)
    {
      MonthValue(rows, year, m);
    }
  }

  /** The keys are inserted in ascending month order. */
  lemma MonthlyStatsOrder(rows: seq<Row>, year: int)
    requires 1 <= year <= 9999
    ensures forall i, j :: 0 <= i < j < |MonthlyStats(rows, year).keys| ==>
      KeyMonth(MonthlyStats(rows, year).keys[i]) < KeyMonth(MonthlyStats(rows, year).keys[j])
  {
    var groups := MonthlyQuery(rows, year);
    MonthlyEntries(rows, year);
    GroupsFromAscending(rows, year, 1);
    var es := Entries(groups);
    DictOfKeys(es);
    var d := MonthlyStats(rows, year);
    forall i | 0 <= i < |d.keys| ensures KeyMonth(d.keys[i]) == groups[i].month.month {
      MonthKeyRoundTrip(groups[i].month);
    }
  }

  // ---------------------------------------------------------------------
  // Profit and the whole payload
  // ---------------------------------------------------------------------

  /** Subtracting a NULL sum raises a TypeError. */
  datatype DashboardError = SumIsNone

  /** The profit: the customer-side sum less the supplier-side sum; a missing
      sum on either side is an error. */
  function Profit(customerSide: Totals, supplierSide: Totals): Result<int, DashboardError>
  {
    if customerSide.sum.None? || supplierSide.sum.None? then Err(SumIsNone)
    else Ok(customerSide.sum.value - supplierSide.sum.value)
  }

  /** The profit over a table: it exists exactly when there is at least one
      customer-side and one supplier-side invoice, and it is then the
      customer-side total less the supplier-side total. */
  lemma ProfitOfTable(rows: seq<Row>)
    ensures Profit(AlltimeStats(rows), AlltimeSupplierStats(rows)).Ok? <==>
      (exists i :: 0 <= i < |rows| && rows[i].supplier.None?) && (exists i :: 0 <= i < |rows| && rows[i].customer.None?)
    ensures Profit(AlltimeStats(rows), AlltimeSupplierStats(rows)).Ok? ==>
      Profit(AlltimeStats(rows), AlltimeSupplierStats(rows)).value == SumWhere(rows, SupplierUnset) - SumWhere(rows, CustomerUnset)
    ensures Profit(AlltimeStats(rows), AlltimeSupplierStats(rows)).Err? ==>
      Profit(AlltimeStats(rows), AlltimeSupplierStats(rows)).error == SumIsNone
  {
    CountWherePositive(rows, SupplierUnset);
    CountWherePositive(rows, CustomerUnset);
  }

  datatype Payload = Payload(monthlyInvoiceStats: Dict<string, MonthStats>, alltimeStats: Totals,
                             alltimeSupplierStats: Totals, alltimeProfit: int)

  /** `Dashboard.get` over the invoice table `rows`, with `year` the current year.
      Succeeds exactly when there is at least one customer-side and one
      supplier-side invoice; otherwise the profit subtraction fails. */
  method Get(rows: seq<Row>, year: int) returns (res: Result<Payload, DashboardError>)
    requires 1 <= year <= 9999
    ensures res.Ok? <==>
      (exists i :: 0 <= i < |rows| && rows[i].supplier.None?) && (exists i :: 0 <= i < |rows| && rows[i].customer.None?)
    ensures res.Ok? ==> res.value.alltimeProfit == SumWhere(rows, SupplierUnset) - SumWhere(rows, CustomerUnset)
    ensures res.Ok? ==>
      && res.value.alltimeStats == AlltimeStats(rows)
      && res.value.alltimeSupplierStats == AlltimeSupplierStats(rows)
      && res.value.monthlyInvoiceStats == MonthlyStats(rows, year)
    ensures res.Err? ==> res.error == SumIsNone
  {
    var alltime := AlltimeStats(rows);
    var supplierSide := AlltimeSupplierStats(rows);
    var groups := MonthlyQuery(rows, year);
    GroupsFromBounds(rows, year, 1);
    var monthly := BuildMonthlyStats(groups);
    ProfitOfTable(rows);
    match Profit(alltime, supplierSide)
    case Err(e) =>
      res := Err(e);
    case Ok(p) =>
      res := Ok(Payload(monthly, alltime, supplierSide, p));
  }

  /** Over a table in which every invoice has a customer, no row is
      supplier-side, so the supplier-side sum is NULL and the profit
      computation fails. */
  lemma {:induction false} ProfitFailsWhenEveryInvoiceHasCustomer(rows: seq<Row>)
    requires forall i :: 0 <= i < |rows| ==> rows[i].customer.Some?
    ensures Profit(AlltimeStats(rows), AlltimeSupplierStats(rows)).Err?
  {
    CountWherePositive(rows, CustomerUnset);
  }

  /** Three customer-side invoices of 10.00, 20.00 and 30.00 in one month. */
  lemma ThreeInvoicesInOneMonth(c: Customer, d: DateTime)
    ensures var rows := [Row(1000, d, Some(c), None), Row(2000, d, Some(c), None), Row(3000, d, Some(c), None)];
      var g := GroupOf(rows, d.year, d.month);
      g.count == 3 && g.total == 6000 && g.average == 2000.0
  {
    var rows := [Row(1000, d, Some(c), None), Row(2000, d, Some(c), None), Row(3000, d, Some(c), None)];
    var cond := SupplierUnsetIn(d.year, d.month);
    assert rows[1..][1..] == rows[2..] && rows[2..][1..] == [];
    assert CountWhere(rows[2..], cond) == 1 && SumWhere(rows[2..], cond) == 3000;
    assert CountWhere(rows, cond) == 3 && SumWhere(rows, cond) == 6000;
    var g := GroupOf(rows, d.year, d.month);
    assert g.average * 3.0 == 6000.0;
  }

  /** One customer invoice of 50 and one supplier invoice of 30 give a profit of 20. */
  lemma ProfitOfOnePair(c: Customer, s: SupplierId, d: DateTime)
    ensures var rows := [Row(5000, d, Some(c), None), Row(3000, d, None, Some(s))];
      Profit(AlltimeStats(rows), AlltimeSupplierStats(rows)) == Ok(2000)
  {
    var rows := [Row(5000, d, Some(c), None), Row(3000, d, None, Some(s))];
    var tail := [Row(3000, d, None, Some(s))];
    assert rows[1..] == tail && tail[1..] == [];
    assert CountWhere(tail[1..], CustomerUnset) == 0 && SumWhere(tail[1..], CustomerUnset) == 0;
    assert CountWhere(tail[1..], SupplierUnset) == 0 && SumWhere(tail[1..], SupplierUnset) == 0;
    assert SumWhere(tail, SupplierUnset) == 0 && CountWhere(tail, SupplierUnset) == 0;
    assert SumWhere(tail, CustomerUnset) == 3000 && CountWhere(tail, CustomerUnset) == 1;
    assert SumWhere(rows, SupplierUnset) == 5000 && CountWhere(rows, SupplierUnset) == 1;
    assert SumWhere(rows, CustomerUnset) == 3000 && CountWhere(rows, CustomerUnset) == 1;
  }

  /** With no invoices at all both sums are absent and the profit fails. */
  lemma NoInvoices()
    ensures AlltimeStats([]) == Totals(0, None) && AlltimeSupplierStats([]) == Totals(0, None)
    ensures Profit(AlltimeStats([]), AlltimeSupplierStats([])) == Err(SumIsNone)
  {
  }
}
