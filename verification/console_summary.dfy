/**
 * The console summary: aggregate unit counts, the overall utilization, and
 * the low-utilization rows listed by unused units, largest first.
 */
module ConsoleSummary {
  import opened Wrappers
  import opened Records
  import opened Analyzer

  /** Total purchased units over all rows. */
  function SumTotal(rows: seq<Row>): int
  {
    if |rows| == 0 then 0 else rows[0].totalLicenses + SumTotal(rows[1..])
  }

  /** Total assigned units over all rows. */
  function SumAssigned(rows: seq<Row>): int
  {
    if |rows| == 0 then 0 else rows[0].assignedUnits + SumAssigned(rows[1..])
  }

  /** Total unused units over all rows. */
  function SumAvailable(rows: seq<Row>): int
  {
    if |rows| == 0 then 0 else rows[0].available + SumAvailable(rows[1..])
  }

  /** On balanced rows the unused total is the purchased total minus the assigned total. */
  lemma {:induction false} AvailableTotalBalances(rows: seq<Row>)
    requires forall i :: 0 <= i < |rows| ==> Balanced(rows[i])
    ensures SumAvailable(rows) == SumTotal(rows) - SumAssigned(rows)
  {
    if |rows| > 0 {
      assert forall i :: 0 <= i < |rows| - 1 ==> rows[1..][i] == rows[i + 1];
      AvailableTotalBalances(rows[1..]);
    }
  }

  /** The only failure of the summary: the overall utilization divides by zero. */
  datatype SummaryError = DivisionByZero

  /**
   * The overall utilization over the totals; fails exactly when the purchased
   * total is zero, otherwise `u * total == assigned * 100`.
   */
  function OverallUtilization(rows: seq<Row>): (r: Result<real, SummaryError>)
    ensures r.Failure? <==> SumTotal(rows) == 0
    ensures r.Success? ==> r.value * (SumTotal(rows) as real) == (SumAssigned(rows) as real) * 100.0
  {
    var total := SumTotal(rows);
    if total == 0 then Failure(DivisionByZero)
    else Success((SumAssigned(rows) as real) / (total as real) * 100.0)
  }

  /** A row worth flagging: some units purchased and utilization below 70 percent. */
  predicate IsLowUtilization(r: Row)
  {
    r.utilizationPct < 70.0 && r.totalLicenses > 0
  }

  /**
   * The low-utilization rows, in input order: each row occurs as often as in
   * `rows` when it is low and not at all otherwise.
   */
  function LowUtilization(rows: seq<Row>): (low: seq<Row>)
    ensures forall x :: multiset(low)[x] == if IsLowUtilization(x) then multiset(rows)[x] else 0
  {
    if |rows| == 0 then []
    else
      var rest := LowUtilization(rows[1..]);
      assert rows == [rows[0]] + rows[1..];
      if IsLowUtilization(rows[0]) then [rows[0]] + rest else rest
  }

  /** The rows of `s` with `available == k`, in order. */
  function WithAvailable(s: seq<Row>, k: int): seq<Row>
  {
    if |s| == 0 then []
    else (if s[0].available == k then [s[0]] else []) + WithAvailable(s[1..], k)
  }

  /** Non-increasing by unused units. */
  predicate SortedByAvailableDesc(s: seq<Row>)
  {
    forall i, j :: 0 <= i < j < |s| ==> s[i].available >= s[j].available
  }

  /**
   * Inserts `x` before the first row with at most as many unused units, so
   * after every row with more and ahead of the rows that share its key.
   */
  function InsertByAvailable(x: Row, t: seq<Row>): (r: seq<Row>)
    ensures multiset(r) == multiset(t) + multiset{x}
  {
    if |t| == 0 || x.available >= t[0].available then [x] + t
    else
      assert t == [t[0]] + t[1..];
      [t[0]] + InsertByAvailable(x, t[1..])
  }

  /** Inserting `x` adds it in front of the rows with its key and leaves every other key's rows alone. */
  lemma {:induction false} InsertByAvailableKeys(x: Row, t: seq<Row>, k: int)
    ensures WithAvailable(InsertByAvailable(x, t), k) == (if x.available == k then [x] else []) + WithAvailable(t, k)
  {
    if |t| == 0 || x.available >= t[0].available {
      assert ([x] + t)[1..] == t;
    } else {
      var r := InsertByAvailable(x, t);
      InsertByAvailableKeys(x, t[1..], k);
      assert r[0] == t[0] && r[1..] == InsertByAvailable(x, t[1..]);
    }
  }

  /** Inserting a row with at most `b` unused units among such rows keeps every row at most `b`. */
  lemma {:induction false} InsertByAvailableBounded(x: Row, t: seq<Row>, b: int)
    requires x.available <= b
    requires forall i :: 0 <= i < |t| ==> t[i].available <= b
    ensures forall i :: 0 <= i < |InsertByAvailable(x, t)| ==> InsertByAvailable(x, t)[i].available <= b
  {
    if |t| > 0 && x.available < t[0].available {
      InsertByAvailableBounded(x, t[1..], b);
    }
  }

  /** Inserting into a sorted sequence keeps it sorted. */
  lemma {:induction false} InsertByAvailableSorted(x: Row, t: seq<Row>)
    requires SortedByAvailableDesc(t)
    ensures SortedByAvailableDesc(InsertByAvailable(x, t))
  {
    if |t| > 0 && x.available < t[0].available {
      var r := InsertByAvailable(x, t);
      var rest := InsertByAvailable(x, t[1..]);
      InsertByAvailableSorted(x, t[1..]);
      InsertByAvailableBounded(x, t[1..], t[0].available);
      assert r == [t[0]] + rest;
      forall i, j | 0 <= i < j < |r|
        ensures r[i].available >= r[j].available
      {
        assert r[j] == rest[j - 1];
        if i > 0 {
          assert r[i] == rest[i - 1];
        }
      }
    }
  }

  /**
   * Sorting by unused units, largest first, stably: Python's `sorted` with
   * `reverse=True` keeps rows with equal keys in their input order.
   */
  function SortByAvailableDesc(s: seq<Row>): (r: seq<Row>)
    ensures SortedByAvailableDesc(r)
    ensures multiset(r) == multiset(s)
    ensures forall k :: WithAvailable(r, k) == WithAvailable(s, k)
  {
    if |s| == 0 then []
    else
      var rest := SortByAvailableDesc(s[1..]);
      assert s == [s[0]] + s[1..];
      InsertByAvailableSorted(s[0], rest);
      assert forall k :: WithAvailable(InsertByAvailable(s[0], rest), k) == WithAvailable(s, k) by {
        forall k ensures WithAvailable(InsertByAvailable(s[0], rest), k) == WithAvailable(s, k) {
          InsertByAvailableKeys(s[0], rest, k);
        }
      }
      InsertByAvailable(s[0], rest)
  }

  /** In a sorted sequence no row has more unused units than the first, so larger keys select nothing. */
  lemma {:induction false} WithAvailableAboveHead(s: seq<Row>, k: int)
    requires forall i :: 0 <= i < |s| ==> s[i].available < k
    ensures WithAvailable(s, k) == []
  {
    if |s| > 0 {
      WithAvailableAboveHead(s[1..], k);
    }
  }

  /** Dropping the first row drops it from its own key's selection only. */
  lemma WithAvailableOfTail(s: seq<Row>, k: int)
    requires |s| > 0
    ensures WithAvailable(s[1..], k) ==
            if s[0].available == k then WithAvailable(s, k)[1..] else WithAvailable(s, k)
  {
    var head := if s[0].available == k then [s[0]] else [];
    assert WithAvailable(s, k) == head + WithAvailable(s[1..], k);
    if s[0].available == k {
      assert (head + WithAvailable(s[1..], k))[1..] == WithAvailable(s[1..], k);
    } else {
      assert head + WithAvailable(s[1..], k) == WithAvailable(s[1..], k);
    }
  }

  /** A nonempty sorted sequence has its largest key first; its tail is sorted too. */
  lemma SortedHead(s: seq<Row>)
    requires SortedByAvailableDesc(s) && |s| > 0
    ensures forall i :: 0 <= i < |s| ==> s[i].available <= s[0].available
    ensures SortedByAvailableDesc(s[1..])
  {
    assert forall i :: 0 < i < |s| ==> s[1..][i - 1] == s[i];
  }

  /** Two sorted sequences that agree on every key's rows share their first key, or are both empty. */
  lemma {:induction false} SortedByKeysSameHeadKey(a: seq<Row>, b: seq<Row>)
    requires SortedByAvailableDesc(a) && SortedByAvailableDesc(b)
    requires forall k :: WithAvailable(a, k) == WithAvailable(b, k)
    ensures |a| == 0 <==> |b| == 0
    ensures |a| > 0 ==> a[0].available == b[0].available
  {
    if |a| > 0 {
      SortedHead(a);
      assert WithAvailable(a, a[0].available) != [];
      if |b| > 0 {
        SortedHead(b);
        assert WithAvailable(b, b[0].available) != [];
        if a[0].available < b[0].available {
          WithAvailableAboveHead(a, b[0].available);
        } else if b[0].available < a[0].available {
          WithAvailableAboveHead(b, a[0].available);
        }
      }
    }
  }

  /**
   * Sorted order plus the per-key selections determine a sequence: any
   * sorted `a` and `b` that agree on every key's rows are equal. So the
   * contract of SortByAvailableDesc describes exactly one result.
   */
  lemma {:induction false} SortedByKeysUnique(a: seq<Row>, b: seq<Row>)
    requires SortedByAvailableDesc(a) && SortedByAvailableDesc(b)
    requires forall k :: WithAvailable(a, k) == WithAvailable(b, k)
    ensures a == b
    decreases |a|
  {
    SortedByKeysSameHeadKey(a, b);
    if |a| > 0 {
      var m := a[0].available;
      assert WithAvailable(a, m)[0] == a[0];
      assert WithAvailable(b, m)[0] == b[0];
      forall k ensures WithAvailable(a[1..], k) == WithAvailable(b[1..], k) {
        WithAvailableOfTail(a, k);
        WithAvailableOfTail(b, k);
      }
      SortedHead(a);
      SortedHead(b);
      SortedByKeysUnique(a[1..], b[1..]);
      assert a == [a[0]] + a[1..] && b == [b[0]] + b[1..];
    }
  }

  /** The stable descending sort is the only sorted arrangement that keeps each key's rows in input order. */
  lemma SortByAvailableDescIsTheStableSort(s: seq<Row>, r: seq<Row>)
    requires SortedByAvailableDesc(r)
    requires forall k :: WithAvailable(r, k) == WithAvailable(s, k)
    ensures r == SortByAvailableDesc(s)
  {
    SortedByKeysUnique(r, SortByAvailableDesc(s));
  }

  /** The summary printed on the console. */
  datatype Summary = Summary(totalLicenses: int, totalAssigned: int, totalAvailable: int,
                             overallUtilizationPct: real, lowUtilization: seq<Row>)

  /**
   * The console summary of `rows`. It fails, before anything is listed, when
   * the purchased total is zero. Otherwise it carries the three totals, the
   * overall utilization, and exactly the low-utilization rows sorted by
   * unused units, largest first, rows with equal unused units in input order.
   */
  function Summarize(rows: seq<Row>): (r: Result<Summary, SummaryError>)
    ensures r.Failure? <==> SumTotal(rows) == 0
    ensures r.Success? ==>
              && r.value.totalLicenses == SumTotal(rows)
              && r.value.totalAssigned == SumAssigned(rows)
              && r.value.totalAvailable == SumAvailable(rows)
              && r.value.overallUtilizationPct * (SumTotal(rows) as real) == (SumAssigned(rows) as real) * 100.0
    ensures r.Success? ==> SortedByAvailableDesc(r.value.lowUtilization)
    ensures r.Success? ==> forall x ::
              multiset(r.value.lowUtilization)[x] == if IsLowUtilization(x) then multiset(rows)[x] else 0
    ensures r.Success? ==> forall k ::
              WithAvailable(r.value.lowUtilization, k) == LowUtilization(WithAvailable(rows, k))
  {
    match OverallUtilization(rows)
    case Failure(e) => Failure(e)
    case Success(overall) =>
      var low := LowUtilization(rows);
      LowUtilizationCommutes(rows);
      Success(Summary(SumTotal(rows), SumAssigned(rows), SumAvailable(rows), overall,
                      SortByAvailableDesc(low)))
  }

  /** Filtering the low rows and selecting a key commute. */
  lemma {:induction false} LowUtilizationCommutes(rows: seq<Row>)
    ensures forall k :: WithAvailable(LowUtilization(rows), k) == LowUtilization(WithAvailable(rows, k))
  {
    if |rows| > 0 {
      LowUtilizationCommutes(rows[1..]);
      forall k
        ensures WithAvailable(LowUtilization(rows), k) == LowUtilization(WithAvailable(rows, k))
      {
        var head := if rows[0].available == k then [rows[0]] else [];
        assert WithAvailable(rows, k) == head + WithAvailable(rows[1..], k);
        LowUtilizationOfConcat(head, WithAvailable(rows[1..], k));
      }
    }
  }

  /** Filtering the low rows distributes over concatenation. */
  lemma {:induction false} LowUtilizationOfConcat(a: seq<Row>, b: seq<Row>)
    ensures LowUtilization(a + b) == LowUtilization(a) + LowUtilization(b)
  {
    if |a| > 0 {
      assert (a + b)[1..] == a[1..] + b;
      LowUtilizationOfConcat(a[1..], b);
    } else {
      assert a + b == b;
    }
  }

  /**
   * For an analyzed SKU the low-utilization test is a test on unit counts:
   * some units enabled and consumed * 100 < 70 * enabled.
   */
  lemma LowUtilizationByCounts(sku: Sku, users: seq<User>)
    ensures IsLowUtilization(ReportRow(sku, users)) <==>
            sku.prepaidEnabled > 0 && sku.consumedUnits * 100 < 70 * sku.prepaidEnabled
  {
    if sku.prepaidEnabled > 0 {
      UtilizationBelow(sku.prepaidEnabled, sku.consumedUnits, 70);
    }
  }

  /** Over an analysis the summary's unused total is its purchased total minus its assigned total. */
  lemma AnalyzedTotalsBalance(skus: seq<Sku>, users: seq<User>)
    ensures var rows := Analyze(skus, users);
            Summarize(rows).Success? ==>
              Summarize(rows).value.totalAvailable
                == Summarize(rows).value.totalLicenses - Summarize(rows).value.totalAssigned
  {
    var rows := Analyze(skus, users);
    AnalyzedRowsBalanced(skus, users);
    AvailableTotalBalances(rows);
  }
}
