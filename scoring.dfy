/**
  The per-candidate formulas of the matching engine: the age window, the
  three-tier location heuristic, the rule-based compatibility score, the
  feature vector handed to the learned model, the hybrid final score, and the
  three-decimal rounding applied to reported scores.
 */
module Scoring {
  import opened Wrappers
  import opened Text

  // ---------------------------------------------------------------------------
  // Age
  // ---------------------------------------------------------------------------

  const AgeWindowYears: nat := 20

  function Abs(x: int): nat {
    if x < 0 then -x else x
  }

  /** Donor and patient ages are at most twenty years apart. */
  function AgeCompatible(donorAge: int, patientAge: int): (r: bool)
    ensures r <==> patientAge - 20 <= donorAge <= patientAge + 20
  {
    Abs(donorAge - patientAge) <= AgeWindowYears
  }

  /** The age test does not depend on which side is the donor. */
  lemma AgeCompatibleSymmetric(a: int, b: int)
    ensures AgeCompatible(a, b) == AgeCompatible(b, a)
  {
  }

  // ---------------------------------------------------------------------------
  // Location
  // ---------------------------------------------------------------------------

  /** Python truthiness of a nullable text column: neither None nor empty. */
  predicate Truthy(s: Option<string>) {
    s.Some? && s.value != ""
  }

  /** A location score together with its approximate distance (None: unknown). */
  datatype Location = Location(score: real, distanceKm: Option<nat>)

  const SameCity := Location(1.0, Some(0))
  const SameState := Location(0.7, Some(100))
  const Elsewhere := Location(0.3, Some(300))
  const Unknown := Location(0.5, None)

  predicate IsTier(l: Location) {
    l == SameCity || l == SameState || l == Elsewhere || l == Unknown
  }

  /**
    The three-tier heuristic: same city (ignoring case), else same state
    (ignoring case), else elsewhere; unknown when either city is missing.
   */
  function LocationTier(donorCity: Option<string>, donorState: Option<string>,
                        patientCity: Option<string>, patientState: Option<string>): (r: Location)
    ensures IsTier(r)
    ensures r.distanceKm.None? <==> !(Truthy(donorCity) && Truthy(patientCity))
  {
    if Truthy(donorCity) && Truthy(patientCity) then
      if EqualIgnoringCase(donorCity.value, patientCity.value) then SameCity
      else if Truthy(donorState) && Truthy(patientState) && EqualIgnoringCase(donorState.value, patientState.value) then SameState
      else Elsewhere
    else Unknown
  }

  /** The four outcomes of the location heuristic, case by case. */
  lemma LocationTiers(dc: Option<string>, ds: Option<string>, pc: Option<string>, ps: Option<string>)
    ensures !(Truthy(dc) && Truthy(pc)) ==> LocationTier(dc, ds, pc, ps) == Location(0.5, None)
    ensures Truthy(dc) && Truthy(pc) && Lower(dc.value) == Lower(pc.value) ==>
      LocationTier(dc, ds, pc, ps) == Location(1.0, Some(0))
    ensures (Truthy(dc) && Truthy(pc) && Lower(dc.value) != Lower(pc.value) &&
             Truthy(ds) && Truthy(ps) && Lower(ds.value) == Lower(ps.value)) ==>
      LocationTier(dc, ds, pc, ps) == Location(0.7, Some(100))
    ensures (Truthy(dc) && Truthy(pc) && Lower(dc.value) != Lower(pc.value) &&
             !(Truthy(ds) && Truthy(ps) && Lower(ds.value) == Lower(ps.value))) ==>
      LocationTier(dc, ds, pc, ps) == Location(0.3, Some(300))
  {
  }

  /** Swapping donor and patient gives the same tier. */
  lemma LocationTierSymmetric(dc: Option<string>, ds: Option<string>, pc: Option<string>, ps: Option<string>)
    ensures LocationTier(dc, ds, pc, ps) == LocationTier(pc, ps, dc, ds)
  {
  }

  /** Among tiers with a known distance, a nearer tier always scores higher. */
  lemma NearerTierScoresHigher(a: Location, b: Location)
    requires IsTier(a) && IsTier(b) && a.distanceKm.Some? && b.distanceKm.Some?
    ensures a.distanceKm.value < b.distanceKm.value <==> a.score > b.score
  {
  }

  /** A candidate is dropped when its distance is known, non-zero and beyond the radius. */
  function ExcludedByRadius(distanceKm: Option<nat>, radiusKm: real): (r: bool)
    ensures distanceKm.None? || distanceKm == Some(0) ==> !r
    ensures r ==> distanceKm.Some? && distanceKm.value as real > radiusKm
  {
    distanceKm.Some? && distanceKm.value != 0 && distanceKm.value as real > radiusKm
  }

  /** With the default 500 km radius no tier is ever dropped; a radius under 100 km drops every known non-zero one. */
  lemma RadiusAgainstTiers(l: Location, radiusKm: real)
    requires IsTier(l)
    ensures radiusKm >= 300.0 ==> !ExcludedByRadius(l.distanceKm, radiusKm)
    ensures radiusKm < 100.0 && l.distanceKm.Some? && l.distanceKm.value != 0 ==> ExcludedByRadius(l.distanceKm, radiusKm)
  {
  }

  // ---------------------------------------------------------------------------
  // Rule-based compatibility score
  // ---------------------------------------------------------------------------

  function Indicator(b: bool): real {
    if b then 1.0 else 0.0
  }

  /** 0.4 blood + 0.3 organ + 0.2 age (half credit when incompatible) + 0.1 location. */
  function CompatibilityScore(bloodCompatible: bool, organMatch: bool, ageCompatible: bool, locationScore: real): (r: real)
    ensures 0.0 <= locationScore <= 1.0 ==> 0.0 <= r <= 1.0
    ensures locationScore <= 1.0 ==> (r == 1.0 <==> bloodCompatible && organMatch && ageCompatible && locationScore == 1.0)
  {
    Indicator(bloodCompatible) * 0.4 +
    Indicator(organMatch) * 0.3 +
    (if ageCompatible then 1.0 else 0.5) * 0.2 +
    locationScore * 0.1
  }

  /**
    An age mismatch is a soft penalty of exactly 0.1, never an exclusion, and
    it never outweighs a blood-group or an organ match.
   */
  lemma AgeMismatchPenalty(blood: bool, organ: bool, loc: real)
    ensures CompatibilityScore(blood, organ, true, loc) - CompatibilityScore(blood, organ, false, loc) == 0.1
    ensures CompatibilityScore(true, organ, false, loc) > CompatibilityScore(false, organ, true, loc)
    ensures CompatibilityScore(blood, true, false, loc) > CompatibilityScore(blood, false, true, loc)
    ensures CompatibilityScore(blood, organ, false, loc) > CompatibilityScore(false, false, false, loc)
      || (!blood && !organ)
  {
  }

  /** The score never decreases when a signal improves. */
  lemma CompatibilityScoreMonotone(b1: bool, o1: bool, a1: bool, l1: real, b2: bool, o2: bool, a2: bool, l2: real)
    requires (b1 ==> b2) && (o1 ==> o2) && (a1 ==> a2) && l1 <= l2
    ensures CompatibilityScore(b1, o1, a1, l1) <= CompatibilityScore(b2, o2, a2, l2)
  {
  }

  // ---------------------------------------------------------------------------
  // Secondary signals
  // ---------------------------------------------------------------------------

  /** Urgency on the 1..5 scale, divided by five. */
  function UrgencyWeight(level: int): (r: real)
    ensures r * 5.0 == level as real
    ensures 1 <= level <= 5 ==> 0.2 <= r <= 1.0
  {
    level as real / 5.0
  }

  /** The donor's reliability, with None and 0.0 both read as 0.5 (both are falsy in Python). */
  function Reliability(score: Option<real>): (r: real)
    ensures r != 0.0
    ensures r == 0.5 || score == Some(r)
    ensures score.Some? && score.value != 0.0 ==> r == score.value
  {
    if score.Some? && score.value != 0.0 then score.value else 0.5
  }

  /** Linear decay over a year of listing age, floored at 0.5. */
  function Freshness(daysSinceRegistration: int): (r: real)
    ensures r >= 0.5
    ensures daysSinceRegistration >= 0 ==> r <= 1.0
    ensures r == 0.5 <==> 2 * daysSinceRegistration >= 365
  {
    var decayed := 1.0 - daysSinceRegistration as real / 365.0;
    if decayed > 0.5 then decayed else 0.5
  }

  /** An older listing is never fresher. */
  lemma FreshnessNonIncreasing(d1: int, d2: int)
    requires d1 <= d2
    ensures Freshness(d1) >= Freshness(d2)
  {
  }

  /**
    Distance over the search radius, capped at 1.0; 0.5 when the distance is
    unknown or zero (zero is falsy in Python). Only computed for candidates
    inside the radius, which is why the cap never applies.
   */
  function DistanceNormalized(distanceKm: Option<nat>, radiusKm: real): (r: real)
    requires !ExcludedByRadius(distanceKm, radiusKm)
    ensures 0.0 <= r <= 1.0
    ensures distanceKm.Some? && distanceKm.value != 0 ==> r * radiusKm == distanceKm.value as real
    ensures distanceKm.None? || distanceKm == Some(0) ==> r == 0.5
  {
    if distanceKm.Some? && distanceKm.value != 0 then
      var ratio := distanceKm.value as real / radiusKm;
      if ratio < 1.0 then ratio else 1.0
    else 0.5
  }

  // ---------------------------------------------------------------------------
  // Feature vector
  // ---------------------------------------------------------------------------

  /** The schema the learned model was trained against, in order. */
  const FeatureNames: seq<string> := [
    "blood_compatible", "organ_match", "age_compatible", "distance_normalized",
    "urgency_weight", "reliability_score", "freshness_score", "compatibility_score"]

  datatype Features = Features(
    bloodCompatible: real,
    organMatch: real,
    ageCompatible: real,
    distanceNormalized: real,
    urgencyWeight: real,
    reliabilityScore: real,
    freshnessScore: real,
    compatibilityScore: real)
  {
    /** The value stored under a feature name. */
    function Get(name: string): Option<real> {
      if name == "blood_compatible" then Some(bloodCompatible)
      else if name == "organ_match" then Some(organMatch)
      else if name == "age_compatible" then Some(ageCompatible)
      else if name == "distance_normalized" then Some(distanceNormalized)
      else if name == "urgency_weight" then Some(urgencyWeight)
      else if name == "reliability_score" then Some(reliabilityScore)
      else if name == "freshness_score" then Some(freshnessScore)
      else if name == "compatibility_score" then Some(compatibilityScore)
      else None
    }

    /** The ordered vector handed to the model. */
    function ToVector(): (v: seq<real>)
      ensures |v| == |FeatureNames|
    {
      [bloodCompatible, organMatch, ageCompatible, distanceNormalized,
       urgencyWeight, reliabilityScore, freshnessScore, compatibilityScore]
    }
  }

  /** Position i of the vector holds the feature named FeatureNames[i], and only names in the schema have values. */
  lemma VectorFollowsSchema(f: Features)
    ensures forall i :: 0 <= i < |FeatureNames| ==> f.Get(FeatureNames[i]) == Some(f.ToVector()[i])
    ensures forall name :: name !in FeatureNames ==> f.Get(name).None?
  {
  }

  /** The eight features of a candidate. */
  function BuildFeatures(bloodCompatible: bool, organMatch: bool, ageCompatible: bool,
                         distanceKm: Option<nat>, radiusKm: real, urgencyWeight: real,
                         reliability: real, freshness: real, compatibilityScore: real): (f: Features)
    requires !ExcludedByRadius(distanceKm, radiusKm)
    ensures f.ageCompatible == Indicator(ageCompatible)
    ensures 0.0 <= f.distanceNormalized <= 1.0
    ensures f.ToVector()[7] == compatibilityScore
  {
    Features(Indicator(bloodCompatible), Indicator(organMatch), Indicator(ageCompatible),
             DistanceNormalized(distanceKm, radiusKm), urgencyWeight, reliability, freshness,
             compatibilityScore)
  }

  // ---------------------------------------------------------------------------
  // Learned probability and hybrid score
  // ---------------------------------------------------------------------------

  /** The outcome of asking the learned model: a probability, or an exception. */
  datatype Prediction = Predicted(probability: real) | PredictionFailed

  type Predictor = seq<real> -> Prediction

  /**
    0.5 when no model is loaded; the model's probability when it answers; the
    rule score when it raises.
   */
  function MatchProbability(model: Option<Predictor>, f: Features): (r: real)
    ensures model.None? ==> r == 0.5
    ensures model.Some? && model.value(f.ToVector()).PredictionFailed? ==> r == f.compatibilityScore
    ensures model.Some? && model.value(f.ToVector()).Predicted? ==> r == model.value(f.ToVector()).probability
  {
    match model
    case None => 0.5
    case Some(predict) =>
      match predict(f.ToVector())
      case Predicted(p) => p
      case PredictionFailed => f.compatibilityScore
  }

  predicate InUnit(x: real) { 0.0 <= x <= 1.0 }

  /** The probability is a unit value whenever the model's answers and the rule score are. */
  lemma MatchProbabilityInUnit(model: Option<Predictor>, f: Features)
    requires InUnit(f.compatibilityScore)
    requires model.Some? && model.value(f.ToVector()).Predicted? ==> InUnit(model.value(f.ToVector()).probability)
    ensures InUnit(MatchProbability(model, f))
  {
  }

  /** 0.4 compatibility + 0.3 probability + 0.2 urgency + 0.1 reliability. */
  function FinalScore(compatibility: real, probability: real, urgencyWeight: real, reliability: real): (r: real)
    ensures InUnit(compatibility) && InUnit(probability) && InUnit(urgencyWeight) && InUnit(reliability) ==> InUnit(r)
    ensures compatibility == probability == urgencyWeight == reliability ==> r == compatibility
  {
    compatibility * 0.4 + probability * 0.3 + urgencyWeight * 0.2 + reliability * 0.1
  }

  /** The final score never decreases when any of its inputs grows. */
  lemma FinalScoreMonotone(c1: real, p1: real, u1: real, r1: real, c2: real, p2: real, u2: real, r2: real)
    requires c1 <= c2 && p1 <= p2 && u1 <= u2 && r1 <= r2
    ensures FinalScore(c1, p1, u1, r1) <= FinalScore(c2, p2, u2, r2)
  {
  }

  // ---------------------------------------------------------------------------
  // Rounding of reported scores
  // ---------------------------------------------------------------------------

  /** Rounding to three decimals, halves upward. */
  function Round3(x: real): (r: real)
    ensures x - 0.0005 < r <= x + 0.0005
  {
    (x * 1000.0 + 0.5).Floor as real / 1000.0
  }

  /** Rounding preserves order (not strictly) and keeps unit values in the unit interval. */
  lemma Round3Monotone(x: real, y: real)
    requires x <= y
    ensures Round3(x) <= Round3(y)
  {
    assert (x * 1000.0 + 0.5).Floor <= (y * 1000.0 + 0.5).Floor;
  }

  lemma Round3InUnit(x: real)
    requires InUnit(x)
    ensures InUnit(Round3(x))
  {
    assert 0 <= (x * 1000.0 + 0.5).Floor <= 1000;
  }

  /** Rounding a rounded value changes nothing. */
  lemma Round3Idempotent(x: real)
    ensures Round3(Round3(x)) == Round3(x)
  {
    var k := (x * 1000.0 + 0.5).Floor;
    assert Round3(x) * 1000.0 + 0.5 == k as real + 0.5;
    assert (k as real + 0.5).Floor == k;
  }
}
