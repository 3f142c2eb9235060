/** The configuration tables: the ABO/Rh donor-recipient compatibility matrix
    with its two lookups, the shared ledger constants, and the choice of an
    environment-specific configuration by name. */
module BloodConfig {
  import opened Records

  /** The eight blood types the matrix knows, in its row order. */
  const BloodTypes: seq<string> := ["O-", "O+", "A-", "A+", "B-", "B+", "AB-", "AB+"]

  /** Donor type to the recipient types it may give to. */
  const BloodCompatibility: map<string, seq<string>> := map[
    "O-" := ["O-", "O+", "A-", "A+", "B-", "B+", "AB-", "AB+"],
    "O+" := ["O+", "A+", "B+", "AB+"],
    "A-" := ["A-", "A+", "AB-", "AB+"],
    "A+" := ["A+", "AB+"],
    "B-" := ["B-", "B+", "AB-", "AB+"],
    "B+" := ["B+", "AB+"],
    "AB-" := ["AB-", "AB+"],
    "AB+" := ["AB+"]
  ]

  /** `BLOOD_COMPATIBILITY.get(donor, [])`: a known donor gives to someone,
      an unknown donor to nobody. */
  function GetCompatibleRecipients(donorType: string): (r: seq<string>)
    ensures r != [] <==> donorType in BloodTypes
  {
    if donorType in BloodCompatibility then BloodCompatibility[donorType] else []
  }

  /** `is_compatible`: the recipient is listed by `get_compatible_recipients`
      for the donor, so an unknown donor is compatible with nobody. */
  predicate IsCompatible(donorType: string, recipientType: string)
    ensures IsCompatible(donorType, recipientType) <==> recipientType in GetCompatibleRecipients(donorType)
  {
    donorType in BloodCompatibility && recipientType in BloodCompatibility[donorType]
  }

  lemma UniversalDonor()
    ensures |GetCompatibleRecipients("O-")| == 8
    ensures forall r :: IsCompatible("O-", r) <==> r in BloodTypes
  {
  }

  lemma DonatesToSelfAndToABPositive(t: string)
    requires t in BloodTypes
    ensures IsCompatible(t, t) && IsCompatible(t, "AB+")
  {
  }

  lemma KnownIncompatibilities()
    ensures !IsCompatible("A+", "B+")
    ensures !IsCompatible("AB+", "O+")
  {
  }

  /** The red-cell antigens a blood type carries. */
  datatype Antigen = AntigenA | AntigenB | RhD

  function Antigens(t: string): set<Antigen>
  {
    if t == "O-" then {}
    else if t == "O+" then {RhD}
    else if t == "A-" then {AntigenA}
    else if t == "A+" then {AntigenA, RhD}
    else if t == "B-" then {AntigenB}
    else if t == "B+" then {AntigenB, RhD}
    else if t == "AB-" then {AntigenA, AntigenB}
    else {AntigenA, AntigenB, RhD}
  }

  /** The matrix is exactly the immunological rule: a donor may give to a
      recipient whose cells carry every antigen the donor's cells carry. */
  lemma CompatibilityIsAntigenInclusion(donorType: string, recipientType: string)
    ensures IsCompatible(donorType, recipientType)
        <==> donorType in BloodTypes && recipientType in BloodTypes
             && Antigens(donorType) <= Antigens(recipientType)
  {
    if donorType in BloodTypes {
      RowIsAntigenInclusion(donorType, recipientType);
    } else {
      assert donorType !in BloodCompatibility;
    }
  }

  /** Every type the matrix lists is one of the eight known types. */
  lemma RowsListKnownTypes(donorType: string, recipientType: string)
    requires donorType in BloodCompatibility
    ensures recipientType in BloodCompatibility[donorType] ==> recipientType in BloodTypes
  {
  }

  /** One row of the matrix: the recipients listed are the known types that
      carry every antigen of the donor. */
  lemma RowIsAntigenInclusion(donorType: string, recipientType: string)
    requires donorType in BloodTypes
    ensures donorType in BloodCompatibility
    ensures recipientType in BloodCompatibility[donorType]
        <==> recipientType in BloodTypes && Antigens(donorType) <= Antigens(recipientType)
  {
    if recipientType !in BloodTypes {
      RowsListKnownTypes(donorType, recipientType);
    } else if donorType in BloodTypes[..4] {
      GroupORowsAndA(donorType, recipientType);
    } else {
      assert donorType in BloodTypes[4..];
      GroupBRowsAndAB(donorType, recipientType);
    }
  }

  /** The rows of the O and A donors. */
  lemma GroupORowsAndA(donorType: string, recipientType: string)
    requires donorType in BloodTypes[..4] && recipientType in BloodTypes
    ensures donorType in BloodCompatibility
    ensures recipientType in BloodCompatibility[donorType] <==> Antigens(donorType) <= Antigens(recipientType)
  {
    if donorType == "O-" {
    } else if donorType == "O+" {
    } else if donorType == "A-" {
    } else {
      assert donorType == "A+";
    }
  }

  /** The rows of the B and AB donors. */
  lemma GroupBRowsAndAB(donorType: string, recipientType: string)
    requires donorType in BloodTypes[4..] && recipientType in BloodTypes
    ensures donorType in BloodCompatibility
    ensures recipientType in BloodCompatibility[donorType] <==> Antigens(donorType) <= Antigens(recipientType)
  {
    if donorType == "B-" {
    } else if donorType == "B+" {
    } else if donorType == "AB-" {
    } else {
      assert donorType == "AB+";
    }
  }

  /** The environment-specific configuration classes. */
  datatype Environment = Development | Production | Testing

  datatype Settings = Settings(
    environment: Environment,
    miningDifficulty: nat,
    useTls: bool,
    logLevel: string)

  function SettingsFor(e: Environment): Settings
  {
    match e
    case Development => Settings(Development, 2, false, "DEBUG")
    case Production => Settings(Production, 6, true, "WARNING")
    case Testing => Settings(Testing, 1, false, "DEBUG")
  }

  /** `get_config(env)`. An empty or absent `env` is falsy and falls back to the
      value of FLASK_ENV, passed in as `flaskEnv`, or to "development" when that
      variable is unset. */
  function GetConfig(env: string, flaskEnv: Option<string>): (s: Settings)
    ensures s == SettingsFor(s.environment)
  {
    var name := if env != "" then env else if flaskEnv.Some? then flaskEnv.value else "development";
    if name == "production" then SettingsFor(Production)
    else if name == "testing" then SettingsFor(Testing)
    else SettingsFor(Development)
  }

  lemma EnvironmentSwitch(env: string, flaskEnv: Option<string>)
    requires env != ""
    ensures env == "production" ==> GetConfig(env, flaskEnv).miningDifficulty == 6 && GetConfig(env, flaskEnv).useTls
    ensures env == "testing" ==> GetConfig(env, flaskEnv).miningDifficulty == 1 && !GetConfig(env, flaskEnv).useTls
    ensures env != "production" && env != "testing"
            ==> GetConfig(env, flaskEnv) == Settings(Development, 2, false, "DEBUG")
  {
  }

  lemma DefaultIsDevelopment()
    ensures GetConfig("", None).environment == Development
    ensures GetConfig("", None).miningDifficulty == 2
  {
  }
}
