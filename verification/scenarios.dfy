/** Fixed inputs to the analysis and the console summary, and what they yield. */
module Scenarios {
  import opened Wrappers
  import opened Records
  import Namer
  import opened Analyzer
  import opened ExcelReport
  import opened ConsoleSummary

  /**
   * One Microsoft 365 E3 SKU with 40 of 100 units consumed, held by Alice
   * and not by Bob: a single red row of 60 unused units that the summary
   * lists as low utilization.
   */
  lemma SingleSkuReport()
    ensures var skus := [Sku("A", "SPE_E3", 100, 40)];
            var users := [User("Alice", "alice@contoso.com", Some([AssignedLicense("A")])),
                          User("Bob", "bob@contoso.com", Some([]))];
            var rows := Analyze(skus, users);
            && rows == [Row("Microsoft 365 E3", "SPE_E3", 100, 40, 60, 40.0, ["Alice"])]
            && BandOf(rows[0].utilizationPct) == Red
            && Summarize(rows) == Success(Summary(100, 40, 60, 40.0, rows))
  {
    var skus := [Sku("A", "SPE_E3", 100, 40)];
    var alice := User("Alice", "alice@contoso.com", Some([AssignedLicense("A")]));
    var bob := User("Bob", "bob@contoso.com", Some([]));
    var users := [alice, bob];
    assert Holds(alice, "A") && !Holds(bob, "A");
    assert users[..1] == [alice] && [alice][..0] == [];
    assert Holders([alice], "A") == ["Alice"];
    assert Holders(users, "A") == ["Alice"];
    assert skus[..0] == [];
    Namer.KnownMicrosoft365Codes();
    var row := Row("Microsoft 365 E3", "SPE_E3", 100, 40, 60, 40.0, ["Alice"]);
    assert Utilization(100, 40) == 40.0;
    assert ReportRow(skus[0], users) == row;
    assert Analyze(skus[..0], users) == [];
    var rows := Analyze(skus, users);
    assert rows == [row];
    assert rows[1..] == [];
    assert LowUtilization(rows) == rows;
    assert SortByAvailableDesc(rows) == rows;
    assert SumTotal(rows) == 100 && SumAssigned(rows) == 40 && SumAvailable(rows) == 60;
    assert OverallUtilization(rows) == Success(40.0);
  }

  /** A SKU with no enabled units has utilization 0 but is never listed as low utilization. */
  lemma ZeroEnabledNotListed(sku: Sku, users: seq<User>)
    requires sku.prepaidEnabled == 0
    ensures ReportRow(sku, users).utilizationPct == 0.0
    ensures !IsLowUtilization(ReportRow(sku, users))
  {
  }

  /**
   * Two rows of 100/40 and 50/50 units total 150 purchased, 90 assigned and
   * 60 unused, at 60 percent overall.
   */
  lemma TwoRowTotals()
    ensures var rows := [Row("X", "X", 100, 40, 60, 40.0, []), Row("Y", "Y", 50, 50, 0, 100.0, [])];
            && SumTotal(rows) == 150 && SumAssigned(rows) == 90 && SumAvailable(rows) == 60
            && OverallUtilization(rows) == Success(60.0)
  {
    var rows := [Row("X", "X", 100, 40, 60, 40.0, []), Row("Y", "Y", 50, 50, 0, 100.0, [])];
    assert rows[1..][1..] == [];
  }
}
