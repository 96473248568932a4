/**
 * The records the report works on: the subscribed SKUs and the users
 * returned by the directory (their JSON shapes reduced to the fields the
 * analysis reads), and the report row the analysis derives per SKU.
 */
module Records {
  datatype Option<+T> = None | Some(value: T)

  /** One subscribed SKU: `skuId`, `skuPartNumber`, `prepaidUnits.enabled`, `consumedUnits`. */
  datatype Sku = Sku(skuId: string, skuPartNumber: string, prepaidEnabled: int, consumedUnits: int)

  /** One entry of a user's `assignedLicenses` list. */
  datatype AssignedLicense = AssignedLicense(skuId: string)

  /** One directory user; `assignedLicenses` may be absent from the record. */
  datatype User = User(displayName: string, userPrincipalName: string,
                       assignedLicenses: Option<seq<AssignedLicense>>)

  /** The assigned licenses of `u`, an absent list read as the empty list. */
  function LicensesOf(u: User): seq<AssignedLicense>
  {
    match u.assignedLicenses
    case None => []
    case Some(ls) => ls
  }

  /** One report row per SKU, as built by the analysis. */
  datatype Row = Row(licenseName: string, skuCode: string, totalLicenses: int,
                     assignedUnits: int, available: int, utilizationPct: real,
                     users: seq<string>)

  /** The unused-unit count of a row is its purchased minus its assigned units. */
  predicate Balanced(r: Row)
  {
    r.available == r.totalLicenses - r.assignedUnits
  }
}
