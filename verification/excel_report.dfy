/**
 * The decisions the spreadsheet writer makes: the fill colour of each
 * utilization cell on the summary sheet, and the (license, user) rows of the
 * user-assignment sheet. Cell styling and the file itself are not modelled.
 */
module ExcelReport {
  import opened Records
  import opened Analyzer

  /** The fill of a utilization cell: red, yellow or green. */
  datatype Band = Red | Yellow | Green

  /**
   * The colour band of a utilization percentage. The thresholds are
   * half-open, so 50 is yellow and 80 is green.
   */
  function BandOf(u: real): (b: Band)
    ensures b == Red <==> u < 50.0
    ensures b == Yellow <==> 50.0 <= u < 80.0
    ensures b == Green <==> 80.0 <= u
  {
    if u < 50.0 then Red
    else if u < 80.0 then Yellow
    else Green
  }

  /** Bands ordered from red to green. */
  function Rank(b: Band): nat
  {
    match b
    case Red => 0
    case Yellow => 1
    case Green => 2
  }

  /** A higher utilization never gets a lower band. */
  lemma BandMonotone(u: real, v: real)
    requires u <= v
    ensures Rank(BandOf(u)) <= Rank(BandOf(v))
  {
  }

  /**
   * The band of an analyzed SKU, in unit counts: red when nothing is enabled;
   * otherwise red iff consumed * 100 < 50 * enabled and green iff
   * consumed * 100 >= 80 * enabled.
   */
  lemma BandOfCounts(enabled: int, consumed: int)
    ensures enabled <= 0 ==> BandOf(Utilization(enabled, consumed)) == Red
    ensures enabled > 0 ==>
              (BandOf(Utilization(enabled, consumed)) == Red <==> consumed * 100 < 50 * enabled)
    ensures enabled > 0 ==>
              (BandOf(Utilization(enabled, consumed)) == Green <==> consumed * 100 >= 80 * enabled)
  {
    if enabled > 0 {
      UtilizationBelow(enabled, consumed, 50);
      UtilizationBelow(enabled, consumed, 80);
    }
  }

  /**
   * The colouring loop over the data rows of the summary sheet: the
   * utilization cell of data row i (sheet row i + 2) gets the band of row i.
   */
  method ColourUtilization(rows: seq<Row>, fills: array<Band>)
    requires fills.Length == |rows|
    modifies fills
    ensures forall i :: 0 <= i < |rows| ==> fills[i] == BandOf(rows[i].utilizationPct)
  {
    var row := 2;
    while row < |rows| + 2
      invariant 2 <= row <= |rows| + 2
      invariant forall i :: 0 <= i < row - 2 ==> fills[i] == BandOf(rows[i].utilizationPct)
    {
      var utilValue := rows[row - 2].utilizationPct;
      if utilValue < 50.0 {
        fills[row - 2] := Red;
      } else if utilValue < 80.0 {
        fills[row - 2] := Yellow;
      } else {
        fills[row - 2] := Green;
      }
      row := row + 1;
    }
  }

  /** One row of the user-assignment sheet: license type and user name. */
  datatype DetailRow = DetailRow(licenseType: string, userName: string)

  /** The detail rows of one report row: its license name paired with each user. */
  function PairsOf(r: Row): (d: seq<DetailRow>)
    ensures |d| == |r.users|
  {
    seq(|r.users|, k requires 0 <= k < |r.users| => DetailRow(r.licenseName, r.users[k]))
  }

  /** The detail rows of all report rows, in row order then user order. */
  function Flatten(rows: seq<Row>): seq<DetailRow>
  {
    if |rows| == 0 then []
    else Flatten(rows[..|rows| - 1]) + PairsOf(rows[|rows| - 1])
  }

  /** The total length of the user lists of `rows`. */
  function UserCount(rows: seq<Row>): nat
  {
    if |rows| == 0 then 0
    else UserCount(rows[..|rows| - 1]) + |rows[|rows| - 1].users|
  }

  /** The detail sheet has one row per (report row, user) pair. */
  lemma {:induction false} FlattenLength(rows: seq<Row>)
    ensures |Flatten(rows)| == UserCount(rows)
  {
    if |rows| > 0 {
      FlattenLength(rows[..|rows| - 1]);
    }
  }

  /**
   * User k of report row i lands at position UserCount(rows[..i]) + k of the
   * detail sheet, paired with the license name of row i: the blocks of the
   * report rows follow each other in row order, each block in user order.
   */
  lemma {:induction false} FlattenAt(rows: seq<Row>, i: nat, k: nat)
    requires i < |rows| && k < |rows[i].users|
    ensures UserCount(rows[..i]) + k < |Flatten(rows)|
    ensures Flatten(rows)[UserCount(rows[..i]) + k] == DetailRow(rows[i].licenseName, rows[i].users[k])
  {
    var n := |rows| - 1;
    var front := rows[..n];
    FlattenLength(rows);
    FlattenLength(front);
    if i == n {
      assert rows[..i] == front;
    } else {
      FlattenAt(front, i, k);
      assert front[..i] == rows[..i];
      assert front[i] == rows[i];
    }
  }

  /** The detail-sheet loop: one appended row per user of each report row. */
  method UserAssignmentRows(rows: seq<Row>) returns (detail: seq<DetailRow>)
    ensures detail == Flatten(rows)
  {
    detail := [];
    var i := 0;
    while i < |rows|
      invariant 0 <= i <= |rows|
      invariant detail == Flatten(rows[..i])
    {
      var lic := rows[i];
      var k := 0;
      while k < |lic.users|
        invariant 0 <= k <= |lic.users|
        invariant detail == Flatten(rows[..i]) + PairsOf(lic)[..k]
      {
        detail := detail + [DetailRow(lic.licenseName, lic.users[k])];
        assert PairsOf(lic)[..k + 1] == PairsOf(lic)[..k] + [PairsOf(lic)[k]];
        k := k + 1;
      }
      assert PairsOf(lic)[..k] == PairsOf(lic);
      assert rows[..i + 1][..i] == rows[..i] && rows[..i + 1][i] == lic;
      i := i + 1;
    }
    assert rows[..i] == rows;
  }
}
