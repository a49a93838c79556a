/**
  The registry's value types: the enumerations, the record shapes the matching
  engine reads (donor rows, emergency cases) and writes (match rows), and the
  blood-group compatibility table.
 */
module Database {
  import opened Wrappers

  // ---------------------------------------------------------------------------
  // Enumerations
  // ---------------------------------------------------------------------------

  datatype BloodGroup = APos | ANeg | BPos | BNeg | ABPos | ABNeg | OPos | ONeg {
    /** The enum value of the group ("A+", "O-", ...). */
    function Label(): string {
      match this
      case APos => "A+"
      case ANeg => "A-"
      case BPos => "B+"
      case BNeg => "B-"
      case ABPos => "AB+"
      case ABNeg => "AB-"
      case OPos => "O+"
      case ONeg => "O-"
    }
  }

  datatype OrganType = Kidney | Liver | Heart | Lung | Pancreas | Cornea | Intestine | BoneMarrow

  datatype ApprovalStatus = Pending | Approved | Rejected

  datatype DonorType = Living | Deceased

  datatype UrgencyLevel = Low | Medium | High | Critical | Emergency {
    /** The integer value of the level, 1 (low) to 5 (emergency). */
    function Value(): (n: int)
      ensures 1 <= n <= 5
    {
      match this
      case Low => 1
      case Medium => 2
      case High => 3
      case Critical => 4
      case Emergency => 5
    }
  }

  const AllBloodGroups: seq<BloodGroup> := [APos, ANeg, BPos, BNeg, ABPos, ABNeg, OPos, ONeg]

  /** Looks a group up by its enum value; any other string names no group. */
  function ParseBloodGroup(s: string): (r: Option<BloodGroup>)
    ensures r.Some? ==> r.value.Label() == s
  {
    if s == "A+" then Some(APos)
    else if s == "A-" then Some(ANeg)
    else if s == "B+" then Some(BPos)
    else if s == "B-" then Some(BNeg)
    else if s == "AB+" then Some(ABPos)
    else if s == "AB-" then Some(ABNeg)
    else if s == "O+" then Some(OPos)
    else if s == "O-" then Some(ONeg)
    else None
  }

  /** Looking up a group's enum value gives the group back, so the values are distinct. */
  lemma BloodGroupLabelRoundTrip(g: BloodGroup)
    ensures ParseBloodGroup(g.Label()) == Some(g)
  {
  }

  /** The urgency level with a given integer value, if there is one. */
  function UrgencyFromValue(n: int): (r: Option<UrgencyLevel>)
    ensures r.Some? <==> 1 <= n <= 5
    ensures r.Some? ==> r.value.Value() == n
  {
    if n == 1 then Some(Low)
    else if n == 2 then Some(Medium)
    else if n == 3 then Some(High)
    else if n == 4 then Some(Critical)
    else if n == 5 then Some(Emergency)
    else None
  }

  lemma UrgencyValueRoundTrip(u: UrgencyLevel)
    ensures UrgencyFromValue(u.Value()) == Some(u)
  {
  }

  // ---------------------------------------------------------------------------
  // Records (only the columns the matching engine reads or writes)
  // ---------------------------------------------------------------------------

  /** A row of the donor registry; nullable columns are options. */
  datatype Donor = Donor(
    id: int,
    hospitalId: int,
    donorType: DonorType,
    age: int,
    bloodGroup: BloodGroup,
    organType: OrganType,
    availabilityStatus: bool,
    city: Option<string>,
    state: Option<string>,
    approvalStatus: ApprovalStatus,
    reliabilityScore: Option<real>)

  /** A row of the emergency-case table. */
  datatype SOSCase = SOSCase(
    id: int,
    userId: int,
    patientName: string,
    patientAge: int,
    bloodGroup: BloodGroup,
    organRequired: OrganType,
    urgencyLevel: int,
    city: Option<string>,
    state: Option<string>,
    status: string,
    approvalStatus: ApprovalStatus)

  /** A persisted match row, written by the ranking engine for a case. */
  datatype Match = Match(
    sosCaseId: int,
    donorId: int,
    compatibilityScore: real,
    distanceKm: Option<nat>,
    matchProbability: real,
    urgencyWeight: real,
    finalScore: real,
    bloodCompatible: bool,
    organMatch: bool,
    ageCompatible: bool,
    status: string)

  // ---------------------------------------------------------------------------
  // Blood-group compatibility table
  // ---------------------------------------------------------------------------

  /**
    The list stored in the table under key `g`. The table is written as
    "donor group -> groups it can give to"; a key that is not a blood group
    (Python `None`, or any other value) yields the empty list.
   */
  function CompatibleGroups(g: Option<BloodGroup>): (r: seq<BloodGroup>)
    ensures g.None? ==> r == []
    ensures g.Some? ==> g.value in r && ABPos in r
  {
    match g
    case None => []
    case Some(k) =>
      match k
      case ONeg => [ONeg, OPos, ANeg, APos, BNeg, BPos, ABNeg, ABPos]
      case OPos => [OPos, APos, BPos, ABPos]
      case ANeg => [ANeg, APos, ABNeg, ABPos]
      case APos => [APos, ABPos]
      case BNeg => [BNeg, BPos, ABNeg, ABPos]
      case BPos => [BPos, ABPos]
      case ABNeg => [ABNeg, ABPos]
      case ABPos => [ABPos]
  }

  /** The relation the table encodes: `y` is listed under key `x`. */
  predicate Listed(x: BloodGroup, y: BloodGroup) {
    y in CompatibleGroups(Some(x))
  }

  /** Red-cell antigens of the ABO and RhD systems. */
  datatype Antigen = AntigenA | AntigenB | AntigenRhD

  function Antigens(g: BloodGroup): set<Antigen> {
    match g
    case ONeg => {}
    case OPos => {AntigenRhD}
    case ANeg => {AntigenA}
    case APos => {AntigenA, AntigenRhD}
    case BNeg => {AntigenB}
    case BPos => {AntigenB, AntigenRhD}
    case ABNeg => {AntigenA, AntigenB}
    case ABPos => {AntigenA, AntigenB, AntigenRhD}
  }

  /**
    Independent characterisation of the table: `y` is listed under `x` exactly
    when every antigen of `x` is also an antigen of `y` (the standard
    donor-to-recipient rule, read with `x` as the donor).
   */
  lemma ListedIffAntigenInclusion(x: BloodGroup, y: BloodGroup)
    ensures Listed(x, y) <==> Antigens(x) <= Antigens(y)
  {
    match x
    case ONeg =>
    case OPos =>
      assert AntigenRhD in Antigens(x);
    case ANeg =>
      assert AntigenA in Antigens(x);
    case APos =>
      assert AntigenA in Antigens(x) && AntigenRhD in Antigens(x);
    case BNeg =>
      assert AntigenB in Antigens(x);
    case BPos =>
      assert AntigenB in Antigens(x) && AntigenRhD in Antigens(x);
    case ABNeg =>
      assert AntigenA in Antigens(x) && AntigenB in Antigens(x);
    case ABPos =>
      assert AntigenA in Antigens(x) && AntigenB in Antigens(x) && AntigenRhD in Antigens(x);
  }

  /** Every list in the table is free of repetitions. */
  lemma CompatibleGroupsNoDuplicates(g: Option<BloodGroup>)
    ensures forall i, j :: 0 <= i < j < |CompatibleGroups(g)| ==> CompatibleGroups(g)[i] != CompatibleGroups(g)[j]
  {
    match g
    case None =>
    case Some(k) =>
      match k
      case ONeg =>
      case OPos =>
      case ANeg =>
      case APos =>
      case BNeg =>
      case BPos =>
      case ABNeg =>
      case ABPos =>
  }

  /** O-negative is at the top: its list holds all eight groups. */
  lemma ONegListsEveryGroup()
    ensures forall y: BloodGroup :: y in CompatibleGroups(Some(ONeg))
    ensures |CompatibleGroups(Some(ONeg))| == |AllBloodGroups| == 8
  {
    forall y: BloodGroup
      ensures y in CompatibleGroups(Some(ONeg))
    {
      match y
      case APos => assert CompatibleGroups(Some(ONeg))[3] == y;
      case ANeg => assert CompatibleGroups(Some(ONeg))[2] == y;
      case BPos => assert CompatibleGroups(Some(ONeg))[5] == y;
      case BNeg => assert CompatibleGroups(Some(ONeg))[4] == y;
      case ABPos => assert CompatibleGroups(Some(ONeg))[7] == y;
      case ABNeg => assert CompatibleGroups(Some(ONeg))[6] == y;
      case OPos => assert CompatibleGroups(Some(ONeg))[1] == y;
      case ONeg => assert CompatibleGroups(Some(ONeg))[0] == y;
    }
  }

  /** AB-positive is at the bottom: its list is exactly itself. */
  lemma ABPosListsOnlyItself()
    ensures CompatibleGroups(Some(ABPos)) == [ABPos]
    ensures forall x: BloodGroup :: Listed(x, ABPos)
  {
  }

  /** The relation is reflexive. */
  lemma ListedReflexive(x: BloodGroup)
    ensures Listed(x, x)
  {
    ListedIffAntigenInclusion(x, x);
  }

  /** The relation is transitive. */
  lemma ListedTransitive(x: BloodGroup, y: BloodGroup, z: BloodGroup)
    requires Listed(x, y) && Listed(y, z)
    ensures Listed(x, z)
  {
    ListedIffAntigenInclusion(x, y);
    ListedIffAntigenInclusion(y, z);
    ListedIffAntigenInclusion(x, z);
  }

  /** The relation is antisymmetric, so together with the two lemmas above it is a partial order. */
  lemma ListedAntisymmetric(x: BloodGroup, y: BloodGroup)
    requires Listed(x, y) && Listed(y, x)
    ensures x == y
  {
    ListedIffAntigenInclusion(x, y);
    ListedIffAntigenInclusion(y, x);
    assert Antigens(x) == Antigens(y);
  }
}
