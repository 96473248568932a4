/**
 * The analyzer: joins the SKUs against the users and builds one report row
 * per SKU, in the order the SKUs were returned.
 */
module Analyzer {
  import opened Records
  import opened Namer

  /**
   * Utilization percentage of `consumed` out of `enabled` units, exact: zero
   * when nothing is enabled, otherwise the real number `u` with
   * `u * enabled == consumed * 100`.
   */
  function Utilization(enabled: int, consumed: int): (u: real)
    ensures enabled <= 0 ==> u == 0.0
    ensures enabled > 0 ==> u * (enabled as real) == (consumed as real) * 100.0
  {
    if enabled > 0 then (consumed as real) / (enabled as real) * 100.0 else 0.0
  }

  /**
   * For positive `enabled`, comparing the utilization with a whole
   * percentage is comparing unit counts: `u < t` iff `consumed * 100 < t * enabled`.
   */
  lemma UtilizationBelow(enabled: int, consumed: int, t: int)
    requires enabled > 0
    ensures Utilization(enabled, consumed) < t as real <==> consumed * 100 < t * enabled
  {
  }

  /** Whether some entry of `licenses` names `skuId` (the short-circuit `any` of the scan). */
  function AnyAssigned(licenses: seq<AssignedLicense>, skuId: string): (b: bool)
    ensures b <==> exists k :: 0 <= k < |licenses| && licenses[k].skuId == skuId
  {
    if |licenses| == 0 then false
    else if licenses[0].skuId == skuId then true
    else
      var b := AnyAssigned(licenses[1..], skuId);
      assert forall k :: 0 < k < |licenses| ==> licenses[k] == licenses[1..][k - 1];
      b
  }

  /** Whether user `u` holds the SKU `skuId`; a user without an assignment list holds nothing. */
  predicate Holds(u: User, skuId: string)
  {
    AnyAssigned(LicensesOf(u), skuId)
  }

  /** The display names of the users holding `skuId`, in user order (built by appending). */
  function Holders(users: seq<User>, skuId: string): seq<string>
  {
    if |users| == 0 then []
    else
      var last := users[|users| - 1];
      Holders(users[..|users| - 1], skuId) + (if Holds(last, skuId) then [last.displayName] else [])
  }

  /** The positions in `users` of the users holding `skuId`, in increasing order. */
  ghost function HolderIndices(users: seq<User>, skuId: string): seq<nat>
  {
    if |users| == 0 then []
    else
      HolderIndices(users[..|users| - 1], skuId)
        + (if Holds(users[|users| - 1], skuId) then [|users| - 1] else [])
  }

  /** The holder positions are valid positions of holding users, strictly increasing. */
  lemma {:induction false} HolderIndicesIncreasing(users: seq<User>, skuId: string)
    ensures forall k :: 0 <= k < |HolderIndices(users, skuId)| ==>
              HolderIndices(users, skuId)[k] < |users| && Holds(users[HolderIndices(users, skuId)[k]], skuId)
    ensures forall k, l :: 0 <= k < l < |HolderIndices(users, skuId)| ==>
              HolderIndices(users, skuId)[k] < HolderIndices(users, skuId)[l]
  {
    if |users| > 0 {
      var n := |users| - 1;
      var front := users[..n];
      HolderIndicesIncreasing(front, skuId);
      var idx := HolderIndices(front, skuId);
      assert forall j :: 0 <= j < n ==> front[j] == users[j];
      assert forall k :: 0 <= k < |idx| ==> idx[k] < n;
    }
  }

  /** Every holding user's position is among the holder positions. */
  lemma {:induction false} HolderIndicesComplete(users: seq<User>, skuId: string)
    ensures forall j :: 0 <= j < |users| && Holds(users[j], skuId) ==> j in HolderIndices(users, skuId)
  {
    if |users| > 0 {
      var n := |users| - 1;
      var front := users[..n];
      HolderIndicesComplete(front, skuId);
      assert forall j :: 0 <= j < n ==> front[j] == users[j];
    }
  }

  /** The k-th holder name is the display name of the user at the k-th holder position. */
  lemma {:induction false} HoldersAtIndices(users: seq<User>, skuId: string)
    ensures |Holders(users, skuId)| == |HolderIndices(users, skuId)|
    ensures forall k :: 0 <= k < |HolderIndices(users, skuId)| ==>
              HolderIndices(users, skuId)[k] < |users| &&
              Holders(users, skuId)[k] == users[HolderIndices(users, skuId)[k]].displayName
  {
    if |users| > 0 {
      var n := |users| - 1;
      var front := users[..n];
      HoldersAtIndices(front, skuId);
      assert forall j :: 0 <= j < n ==> front[j] == users[j];
    }
  }

  /**
   * The user list of a SKU is exactly the display names of the holding users,
   * taken once each, in the order of the user sequence: the k-th name belongs
   * to the user at the k-th holding position, the positions strictly increase,
   * and every holding user's position is among them.
   */
  lemma {:induction false} HoldersSelectInOrder(users: seq<User>, skuId: string)
    ensures |Holders(users, skuId)| == |HolderIndices(users, skuId)|
    ensures forall k :: 0 <= k < |HolderIndices(users, skuId)| ==>
              var j := HolderIndices(users, skuId)[k];
              j < |users| && Holds(users[j], skuId) && Holders(users, skuId)[k] == users[j].displayName
    ensures forall k, l :: 0 <= k < l < |HolderIndices(users, skuId)| ==>
              HolderIndices(users, skuId)[k] < HolderIndices(users, skuId)[l]
    ensures forall j :: 0 <= j < |users| && Holds(users[j], skuId) ==> j in HolderIndices(users, skuId)
  {
    HolderIndicesIncreasing(users, skuId);
    HolderIndicesComplete(users, skuId);
    HoldersAtIndices(users, skuId);
  }

  /**
   * A name is in the user list of `skuId` iff some user with that display
   * name holds `skuId`.
   */
  lemma {:induction false} HolderMembership(users: seq<User>, skuId: string, name: string)
    ensures name in Holders(users, skuId) <==>
            exists j :: 0 <= j < |users| && Holds(users[j], skuId) && users[j].displayName == name
  {
    HoldersSelectInOrder(users, skuId);
    var names, idx := Holders(users, skuId), HolderIndices(users, skuId);
    if name in names {
      var k :| 0 <= k < |names| && names[k] == name;
      assert Holds(users[idx[k]], skuId);
    }
    if j :| 0 <= j < |users| && Holds(users[j], skuId) && users[j].displayName == name {
      assert j in idx;
      var k :| 0 <= k < |idx| && idx[k] == j;
      assert names[k] == name;
    }
  }

  /** A user record without an assignment list appears in no user list. */
  lemma MissingAssignmentsHoldNothing(u: User, skuId: string)
    requires u.assignedLicenses.None?
    ensures !Holds(u, skuId)
  {
  }

  /** The report row of one SKU. */
  function ReportRow(sku: Sku, users: seq<User>): Row
  {
    Row(FriendlyName(sku.skuPartNumber), sku.skuPartNumber, sku.prepaidEnabled,
        sku.consumedUnits, sku.prepaidEnabled - sku.consumedUnits,
        Utilization(sku.prepaidEnabled, sku.consumedUnits), Holders(users, sku.skuId))
  }

  /** The report rows of `skus`, built by appending one row per SKU. */
  function Analyze(skus: seq<Sku>, users: seq<User>): seq<Row>
  {
    if |skus| == 0 then []
    else Analyze(skus[..|skus| - 1], users) + [ReportRow(skus[|skus| - 1], users)]
  }

  /**
   * One row per SKU, in SKU order; row i names SKU i, copies its purchased
   * and consumed counts, leaves the unused count unclamped, and lists the
   * holders of SKU i.
   */
  lemma {:induction false} AnalyzeOneRowPerSku(skus: seq<Sku>, users: seq<User>)
    ensures |Analyze(skus, users)| == |skus|
    ensures forall i :: 0 <= i < |skus| ==>
              var r, sku := Analyze(skus, users)[i], skus[i];
              && r.skuCode == sku.skuPartNumber
              && r.licenseName == FriendlyName(sku.skuPartNumber)
              && r.totalLicenses == sku.prepaidEnabled
              && r.assignedUnits == sku.consumedUnits
              && r.available == sku.prepaidEnabled - sku.consumedUnits
              && r.utilizationPct == Utilization(sku.prepaidEnabled, sku.consumedUnits)
              && r.users == Holders(users, sku.skuId)
  {
    if |skus| > 0 {
      var front := skus[..|skus| - 1];
      AnalyzeOneRowPerSku(front, users);
      assert forall i :: 0 <= i < |front| ==> front[i] == skus[i];
    }
  }

  /** Every analyzed row is balanced: available == total - assigned, even when negative. */
  lemma {:induction false} AnalyzedRowsBalanced(skus: seq<Sku>, users: seq<User>)
    ensures forall r :: r in Analyze(skus, users) ==> Balanced(r)
  {
    AnalyzeOneRowPerSku(skus, users);
  }

  /**
   * The analysis loop: for each SKU, scan every user and collect the display
   * names of those holding it, then append the SKU's row.
   */
  method AnalyzeLicenses(skus: seq<Sku>, users: seq<User>) returns (rows: seq<Row>)
    ensures rows == Analyze(skus, users)
  {
    rows := [];
    var i := 0;
    while i < |skus|
      invariant 0 <= i <= |skus|
      invariant rows == Analyze(skus[..i], users)
    {
      var sku := skus[i];
      var enabled := sku.prepaidEnabled;
      var consumed := sku.consumedUnits;
      var holders: seq<string> := [];
      var j := 0;
      while j < |users|
        invariant 0 <= j <= |users|
        invariant holders == Holders(users[..j], sku.skuId)
      {
        if AnyAssigned(LicensesOf(users[j]), sku.skuId) {
          holders := holders + [users[j].displayName];
        }
        assert users[..j + 1][..j] == users[..j] && users[..j + 1][j] == users[j];
        j := j + 1;
      }
      assert users[..j] == users;
      var pct := if enabled > 0 then (consumed as real) / (enabled as real) * 100.0 else 0.0;
      var row := Row(FriendlyName(sku.skuPartNumber), sku.skuPartNumber, enabled, consumed,
                     enabled - consumed, pct, holders);
      assert row == ReportRow(sku, users);
      rows := rows + [row];
      assert skus[..i + 1][..i] == skus[..i] && skus[..i + 1][i] == sku;
      i := i + 1;
    }
    assert skus[..i] == skus;
  }

  /**
   * A name is in the user list of row i of an analysis iff some user with
   * that display name has an assignment naming SKU i.
   */
  lemma AnalyzedUserListMembership(skus: seq<Sku>, users: seq<User>, i: nat, name: string)
    requires i < |skus|
    ensures i < |Analyze(skus, users)|
    ensures name in Analyze(skus, users)[i].users <==>
            exists j, k :: 0 <= j < |users| && users[j].displayName == name
                           && 0 <= k < |LicensesOf(users[j])| && LicensesOf(users[j])[k].skuId == skus[i].skuId
  {
    AnalyzeOneRowPerSku(skus, users);
    HolderMembership(users, skus[i].skuId, name);
  }
}
