/** The license namer: SKU part numbers to friendly product names. */
module Namer {

  /** The fixed table of known Microsoft SKU part numbers. */
  const LicenseNames: map<string, string> := map[
    "ENTERPRISEPACK" := "Office 365 E3",
    "ENTERPRISEPREMIUM" := "Office 365 E5",
    "SPE_E3" := "Microsoft 365 E3",
    "SPE_E5" := "Microsoft 365 E5",
    "STANDARDPACK" := "Office 365 E1",
    "DESKLESSPACK" := "Office 365 F3",
    "EXCHANGESTANDARD" := "Exchange Online (Plan 1)",
    "EXCHANGEENTERPRISE" := "Exchange Online (Plan 2)",
    "SHAREPOINTSTANDARD" := "SharePoint Online (Plan 1)",
    "SHAREPOINTENTERPRISE" := "SharePoint Online (Plan 2)",
    "POWER_BI_STANDARD" := "Power BI (Free)",
    "POWER_BI_PRO" := "Power BI Pro",
    "PROJECTPROFESSIONAL" := "Project Plan 3",
    "VISIOCLIENT" := "Visio Plan 2",
    "TEAMS_EXPLORATORY" := "Microsoft Teams Exploratory",
    "FLOW_FREE" := "Power Automate Free",
    "POWERAPPS_VIRAL" := "Power Apps Trial"
  ]

  /**
   * Total lookup: a known code gets its table name, which is never itself a
   * code of the table; any other string passes through unchanged.
   */
  function FriendlyName(code: string): (name: string)
    ensures code !in LicenseNames ==> name == code
    ensures code in LicenseNames ==> name == LicenseNames[code] && name != code && name !in LicenseNames
  {
    if code in LicenseNames then LicenseNames[code] else code
  }

  /** The Office 365 codes map to their Office 365 plan names. */
  lemma KnownOfficeCodes()
    ensures FriendlyName("ENTERPRISEPACK") == "Office 365 E3"
    ensures FriendlyName("ENTERPRISEPREMIUM") == "Office 365 E5"
    ensures FriendlyName("STANDARDPACK") == "Office 365 E1"
    ensures FriendlyName("DESKLESSPACK") == "Office 365 F3"
  {
  }

  /** The Microsoft 365 codes and the stand-alone client codes map to their product names. */
  lemma KnownMicrosoft365Codes()
    ensures FriendlyName("SPE_E3") == "Microsoft 365 E3"
    ensures FriendlyName("SPE_E5") == "Microsoft 365 E5"
    ensures FriendlyName("PROJECTPROFESSIONAL") == "Project Plan 3"
    ensures FriendlyName("VISIOCLIENT") == "Visio Plan 2"
    ensures FriendlyName("TEAMS_EXPLORATORY") == "Microsoft Teams Exploratory"
  {
  }

  /** The Exchange Online and SharePoint Online codes map to their plan names. */
  lemma KnownExchangeSharePointCodes()
    ensures FriendlyName("EXCHANGESTANDARD") == "Exchange Online (Plan 1)"
    ensures FriendlyName("EXCHANGEENTERPRISE") == "Exchange Online (Plan 2)"
    ensures FriendlyName("SHAREPOINTSTANDARD") == "SharePoint Online (Plan 1)"
    ensures FriendlyName("SHAREPOINTENTERPRISE") == "SharePoint Online (Plan 2)"
  {
  }

  /** The Power BI, Power Automate and Power Apps codes map to their product names. */
  lemma KnownPowerPlatformCodes()
    ensures FriendlyName("POWER_BI_STANDARD") == "Power BI (Free)"
    ensures FriendlyName("POWER_BI_PRO") == "Power BI Pro"
    ensures FriendlyName("FLOW_FREE") == "Power Automate Free"
    ensures FriendlyName("POWERAPPS_VIRAL") == "Power Apps Trial"
  {
  }

  /** Naming an already friendly name changes nothing. */
  lemma FriendlyNameIdempotent(code: string)
    ensures FriendlyName(FriendlyName(code)) == FriendlyName(code)
  {
  }
}
