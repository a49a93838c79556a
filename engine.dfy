/**
  The ranking engine: resolve the patient (from an emergency case or from
  directly supplied details), query the candidate donors, score each one,
  sort by the rounded final score, keep the first `maxResults`, and record the
  matches against the case when the call is bound to one.
 */
module Engine {
  import opened Wrappers
  import opened Database
  import opened Text
  import opened Scoring
  import opened Ranking

  // ---------------------------------------------------------------------------
  // Inputs and results
  // ---------------------------------------------------------------------------

  /**
    Patient details supplied directly instead of a case id; a None field is a
    key missing from the details.
   */
  datatype PatientData = PatientData(
    bloodGroup: Option<BloodGroup>,
    organType: Option<OrganType>,
    urgencyLevel: Option<int>,
    age: Option<int>,
    city: Option<string>,
    state: Option<string>)

  /** The patient as the engine sees it once resolved. */
  datatype Patient = Patient(
    bloodGroup: Option<BloodGroup>,
    organRequired: Option<OrganType>,
    urgencyLevel: int,
    age: Option<int>,
    city: Option<string>,
    state: Option<string>)

  /** One ranked candidate: rounded scores, the three flags, and the unrounded features. */
  datatype MatchData = MatchData(
    donor: Donor,
    compatibilityScore: real,
    distanceKm: Option<nat>,
    matchProbability: real,
    urgencyWeight: real,
    finalScore: real,
    bloodCompatible: bool,
    organMatch: bool,
    ageCompatible: bool,
    features: Features)

  function FinalKey(m: MatchData): real { m.finalScore }

  function DonorId(m: MatchData): int { m.donor.id }

  function RowId(d: Donor): int { d.id }

  /** A case id counts only when it is present and non-zero (Python truthiness). */
  predicate CaseBound(caseId: Option<int>) {
    caseId.Some? && caseId.value != 0
  }

  /** A case always names the blood group, the organ and the age (non-nullable columns). */
  function FromCase(c: SOSCase): (r: Patient)
    ensures r.bloodGroup == Some(c.bloodGroup) && r.organRequired == Some(c.organRequired)
    ensures r.age == Some(c.patientAge) && r.urgencyLevel == c.urgencyLevel
    ensures r.city == c.city && r.state == c.state
  {
    Patient(Some(c.bloodGroup), Some(c.organRequired), c.urgencyLevel, Some(c.patientAge), c.city, c.state)
  }

  /** Missing urgency defaults to 3; every other missing key stays missing. */
  function FromData(d: PatientData): (r: Patient)
    ensures r.urgencyLevel == if d.urgencyLevel.Some? then d.urgencyLevel.value else 3
    ensures r.bloodGroup == d.bloodGroup && r.organRequired == d.organType && r.age == d.age
    ensures r.city == d.city && r.state == d.state
  {
    Patient(d.bloodGroup, d.organType, d.urgencyLevel.GetOr(3), d.age, d.city, d.state)
  }

  /** The case's patient when the call is case-bound, else the supplied details, else nothing. */
  function ResolvePatient(cases: map<int, SOSCase>, caseId: Option<int>, data: Option<PatientData>): (r: Option<Patient>)
    ensures CaseBound(caseId) ==> (r.Some? <==> caseId.value in cases)
    ensures !CaseBound(caseId) ==> (r.Some? <==> data.Some?)
    ensures CaseBound(caseId) && caseId.value in cases ==> r == Some(FromCase(cases[caseId.value]))
    ensures !CaseBound(caseId) && data.Some? ==> r == Some(FromData(data.value))
  {
    if CaseBound(caseId) then
      if caseId.value in cases then Some(FromCase(cases[caseId.value])) else None
    else if data.Some? then Some(FromData(data.value))
    else None
  }

  // ---------------------------------------------------------------------------
  // Candidate query
  // ---------------------------------------------------------------------------

  /** The registry filter: requested organ, available, approved, acceptable blood group. */
  predicate IsCandidate(d: Donor, organ: Option<OrganType>, compatible: seq<BloodGroup>) {
    organ == Some(d.organType) && d.availabilityStatus && d.approvalStatus == Approved && d.bloodGroup in compatible
  }

  /** The rows of the donor table that pass the filter, in table order. */
  function Candidates(table: seq<Donor>, organ: Option<OrganType>, compatible: seq<BloodGroup>): (r: seq<Donor>)
    ensures |r| <= |table|
  {
    if table == [] then []
    else if IsCandidate(table[0], organ, compatible) then [table[0]] + Candidates(table[1..], organ, compatible)
    else Candidates(table[1..], organ, compatible)
  }

  /** The query returns exactly the rows that pass the filter. */
  lemma {:induction false} CandidatesExact(table: seq<Donor>, organ: Option<OrganType>, compatible: seq<BloodGroup>)
    ensures forall d :: d in Candidates(table, organ, compatible) <==> d in table && IsCandidate(d, organ, compatible)
  {
    if table != [] {
      CandidatesExact(table[1..], organ, compatible);
      assert table == [table[0]] + table[1..];
    }
  }

  /** Filtering keeps primary keys distinct. */
  lemma {:induction false} CandidatesDistinct(table: seq<Donor>, organ: Option<OrganType>, compatible: seq<BloodGroup>)
    requires Distinct(table, RowId)
    ensures Distinct(Candidates(table, organ, compatible), RowId)
  {
    if table != [] {
      assert Distinct(table[1..], RowId) by {
        forall i, j | 0 <= i < j < |table[1..]| ensures RowId(table[1..][i]) != RowId(table[1..][j]) {
          assert table[1..][i] == table[i + 1] && table[1..][j] == table[j + 1];
        }
      }
      CandidatesDistinct(table[1..], organ, compatible);
      CandidatesExact(table[1..], organ, compatible);
      var rest := Candidates(table[1..], organ, compatible);
      if IsCandidate(table[0], organ, compatible) {
        var r := [table[0]] + rest;
        forall i, j | 0 <= i < j < |r| ensures RowId(r[i]) != RowId(r[j]) {
          if i == 0 {
            assert r[j] == rest[j - 1];
            assert r[j] in table[1..];
            var m :| 0 <= m < |table[1..]| && table[1..][m] == r[j];
            assert table[m + 1] == r[j];
          } else {
            assert r[i] == rest[i - 1] && r[j] == rest[j - 1];
          }
        }
      }
    }
  }

  /** Without an organ, or with an empty list of acceptable groups, nothing passes the filter. */
  lemma {:induction false} NoCandidates(table: seq<Donor>, organ: Option<OrganType>, compatible: seq<BloodGroup>)
    requires organ.None? || compatible == []
    ensures Candidates(table, organ, compatible) == []
  {
    if table != [] {
      NoCandidates(table[1..], organ, compatible);
    }
  }

  // ---------------------------------------------------------------------------
  // Scoring one candidate
  // ---------------------------------------------------------------------------

  /** What happens to one candidate: it is scored, skipped as too far, or an exception aborts the call. */
  datatype Evaluation = Scored(m: MatchData) | OutOfRadius | Raised

  /**
    The loop body for one donor. A missing patient age makes the age
    difference raise before anything else; an unknown registration age makes
    the freshness computation raise, but only for donors inside the radius.
   */
  function Evaluate(model: Option<Predictor>, p: Patient, compatible: seq<BloodGroup>, d: Donor,
                    radiusKm: real, days: Option<int>): (r: Evaluation)
    ensures p.age.None? ==> r == Raised
    ensures r.OutOfRadius? ==> ExcludedByRadius(LocationTier(d.city, d.state, p.city, p.state).distanceKm, radiusKm)
    ensures r.Scored? ==> r.m.donor == d && days.Some?
  {
    var bloodCompatible := d.bloodGroup in compatible;
    var organMatch := p.organRequired == Some(d.organType);
    if p.age.None? then Raised
    else
      var ageCompatible := AgeCompatible(d.age, p.age.value);
      var location := LocationTier(d.city, d.state, p.city, p.state);
      if ExcludedByRadius(location.distanceKm, radiusKm) then OutOfRadius
      else
        var compatibility := CompatibilityScore(bloodCompatible, organMatch, ageCompatible, location.score);
        var urgency := UrgencyWeight(p.urgencyLevel);
        var reliability := Reliability(d.reliabilityScore);
        if days.None? then Raised
        else
          var freshness := Freshness(days.value);
          var f := BuildFeatures(bloodCompatible, organMatch, ageCompatible, location.distanceKm, radiusKm,
                                 urgency, reliability, freshness, compatibility);
          var probability := MatchProbability(model, f);
          var final := FinalScore(compatibility, probability, urgency, reliability);
          Scored(MatchData(d, Round3(compatibility), location.distanceKm, Round3(probability), Round3(urgency),
                           Round3(final), bloodCompatible, organMatch, ageCompatible, f))
  }

  /** What a scored candidate's record says, in terms of the donor and the patient. */
  lemma EvaluateScored(model: Option<Predictor>, p: Patient, compatible: seq<BloodGroup>, d: Donor,
                       radiusKm: real, days: Option<int>)
    requires Evaluate(model, p, compatible, d, radiusKm, days).Scored?
    ensures var m := Evaluate(model, p, compatible, d, radiusKm, days).m;
      && m.donor == d
      && p.age.Some? && days.Some?
      && m.bloodCompatible == (d.bloodGroup in compatible)
      && m.organMatch == (p.organRequired == Some(d.organType))
      && (m.ageCompatible <==> p.age.value - 20 <= d.age <= p.age.value + 20)
      && m.distanceKm == LocationTier(d.city, d.state, p.city, p.state).distanceKm
      && !ExcludedByRadius(m.distanceKm, radiusKm)
      && InUnit(m.features.compatibilityScore) && InUnit(m.compatibilityScore)
      && (model.None? ==> m.matchProbability == 0.5)
      && (model.Some? && model.value(m.features.ToVector()).PredictionFailed? ==> m.matchProbability == m.compatibilityScore)
      && m.features.freshnessScore >= 0.5
      && m.features.reliabilityScore != 0.0
  {
    var m := Evaluate(model, p, compatible, d, radiusKm, days).m;
    Round3InUnit(m.features.compatibilityScore);
    assert Round3(0.5) == 0.5;
  }

  /** A donor that passed the filter scores at least 0.83 on the rule score, and in [0, 1] on the final score when the inputs are unit values. */
  lemma EvaluateCandidateScores(model: Option<Predictor>, p: Patient, compatible: seq<BloodGroup>, d: Donor,
                                radiusKm: real, days: Option<int>)
    requires IsCandidate(d, p.organRequired, compatible)
    requires Evaluate(model, p, compatible, d, radiusKm, days).Scored?
    ensures var m := Evaluate(model, p, compatible, d, radiusKm, days).m;
      m.bloodCompatible && m.organMatch && m.features.compatibilityScore >= 0.83
    ensures var m := Evaluate(model, p, compatible, d, radiusKm, days).m;
      (1 <= p.urgencyLevel <= 5 && InUnit(m.features.reliabilityScore) &&
       (model.Some? && model.value(m.features.ToVector()).Predicted? ==> InUnit(model.value(m.features.ToVector()).probability)))
      ==> InUnit(m.finalScore)
  {
    var m := Evaluate(model, p, compatible, d, radiusKm, days).m;
    var f := m.features;
    var final := FinalScore(f.compatibilityScore, MatchProbability(model, f), f.urgencyWeight, f.reliabilityScore);
    if 1 <= p.urgencyLevel <= 5 && InUnit(f.reliabilityScore) &&
       (model.Some? && model.value(f.ToVector()).Predicted? ==> InUnit(model.value(f.ToVector()).probability)) {
      MatchProbabilityInUnit(model, f);
      assert InUnit(final);
      Round3InUnit(final);
    }
  }

  // ---------------------------------------------------------------------------
  // Scoring all candidates
  // ---------------------------------------------------------------------------

  /** The loop body of one call, as a function of the donor alone. */
  function EvaluateFor(model: Option<Predictor>, p: Patient, compatible: seq<BloodGroup>, radiusKm: real,
                       daysSince: Donor -> Option<int>): Donor -> Evaluation
  {
    d => Evaluate(model, p, compatible, d, radiusKm, daysSince(d))
  }

  /** The loop over the candidates in order: the scored ones, or None once any raises. */
  function ScoreAll(eval: Donor -> Evaluation, donors: seq<Donor>): (r: Option<seq<MatchData>>)
    ensures r.Some? ==> |r.value| <= |donors|
    decreases |donors|
  {
    if donors == [] then Some([])
    else
      match ScoreAll(eval, donors[..|donors| - 1])
      case None => None
      case Some(acc) =>
        match eval(donors[|donors| - 1])
        case Raised => None
        case OutOfRadius => Some(acc)
        case Scored(m) => Some(acc + [m])
  }

  /**
    The reference for the loop's output: each donor's record if it scores,
    read from the front, in the donors' order.
   */
  function ScoredInOrder(eval: Donor -> Evaluation, donors: seq<Donor>): (r: seq<MatchData>)
    ensures |r| <= |donors|
  {
    if donors == [] then []
    else (if eval(donors[0]).Scored? then [eval(donors[0]).m] else []) + ScoredInOrder(eval, donors[1..])
  }

  lemma {:induction false} ScoredInOrderAppend(eval: Donor -> Evaluation, donors: seq<Donor>, x: Donor)
    ensures ScoredInOrder(eval, donors + [x]) ==
      ScoredInOrder(eval, donors) + (if eval(x).Scored? then [eval(x).m] else [])
  {
    if donors != [] {
      assert (donors + [x])[1..] == donors[1..] + [x];
      ScoredInOrderAppend(eval, donors[1..], x);
    } else {
      assert [] + [x] == [x];
    }
  }

  /** When the loop succeeds it keeps exactly one record per scoring donor, in the donors' order. */
  lemma {:induction false} ScoreAllInOrder(eval: Donor -> Evaluation, donors: seq<Donor>)
    requires ScoreAll(eval, donors).Some?
    ensures ScoreAll(eval, donors).value == ScoredInOrder(eval, donors)
    decreases |donors|
  {
    if donors != [] {
      var n := |donors| - 1;
      ScoreAllInOrder(eval, donors[..n]);
      ScoredInOrderAppend(eval, donors[..n], donors[n]);
      assert donors[..n] + [donors[n]] == donors;
    }
  }

  /** The loop fails exactly when some candidate raises. */
  lemma {:induction false} ScoreAllRaisesIff(eval: Donor -> Evaluation, donors: seq<Donor>)
    ensures ScoreAll(eval, donors).None? <==> exists i :: 0 <= i < |donors| && eval(donors[i]).Raised?
    decreases |donors|
  {
    if donors != [] {
      var n := |donors| - 1;
      var init := donors[..n];
      ScoreAllRaisesIff(eval, init);
      if exists i :: 0 <= i < |init| && eval(init[i]).Raised? {
        var i :| 0 <= i < |init| && eval(init[i]).Raised?;
        assert donors[i] == init[i];
      } else {
        forall i | 0 <= i < n ensures !eval(donors[i]).Raised? {
          assert donors[i] == init[i];
        }
      }
    }
  }

  /** Every scored record comes from a candidate, and every candidate that scores has its record there. */
  lemma {:induction false} ScoreAllExact(eval: Donor -> Evaluation, donors: seq<Donor>)
    requires ScoreAll(eval, donors).Some?
    ensures forall m :: m in ScoreAll(eval, donors).value ==>
      exists i :: 0 <= i < |donors| && eval(donors[i]) == Scored(m)
    ensures forall i :: 0 <= i < |donors| && eval(donors[i]).Scored? ==> eval(donors[i]).m in ScoreAll(eval, donors).value
    decreases |donors|
  {
    if donors != [] {
      var n := |donors| - 1;
      var init := donors[..n];
      ScoreAllExact(eval, init);
      var acc := ScoreAll(eval, init).value;
      var ms := ScoreAll(eval, donors).value;
      forall m | m in ms ensures exists i :: 0 <= i < |donors| && eval(donors[i]) == Scored(m) {
        if m in acc {
          var i :| 0 <= i < |init| && eval(init[i]) == Scored(m);
          assert donors[i] == init[i];
        } else {
          assert eval(donors[n]) == Scored(m);
        }
      }
      forall i | 0 <= i < |donors| && eval(donors[i]).Scored? ensures eval(donors[i]).m in ms {
        if i < n {
          assert donors[i] == init[i];
        }
      }
    }
  }

  /** When each record names the donor it was computed for, distinct donor ids stay distinct. */
  lemma {:induction false} ScoreAllDistinct(eval: Donor -> Evaluation, donors: seq<Donor>)
    requires Distinct(donors, RowId)
    requires forall i :: 0 <= i < |donors| && eval(donors[i]).Scored? ==> eval(donors[i]).m.donor == donors[i]
    requires ScoreAll(eval, donors).Some?
    ensures Distinct(ScoreAll(eval, donors).value, DonorId)
    decreases |donors|
  {
    if donors != [] {
      var n := |donors| - 1;
      var init := donors[..n];
      assert Distinct(init, RowId) by {
        forall i, j | 0 <= i < j < |init| ensures RowId(init[i]) != RowId(init[j]) {
          assert init[i] == donors[i] && init[j] == donors[j];
        }
      }
      forall i | 0 <= i < |init| && eval(init[i]).Scored? ensures eval(init[i]).m.donor == init[i] {
        assert init[i] == donors[i];
      }
      ScoreAllDistinct(eval, init);
      var acc := ScoreAll(eval, init).value;
      var e := eval(donors[n]);
      if e.Scored? {
        ScoreAllExact(eval, init);
        var r := acc + [e.m];
        forall i, j | 0 <= i < j < |r| ensures DonorId(r[i]) != DonorId(r[j]) {
          if j == |acc| {
            assert r[i] == acc[i] && r[i] in acc;
            var k :| 0 <= k < |init| && eval(init[k]) == Scored(r[i]);
            assert init[k] == donors[k];
          } else {
            assert r[i] == acc[i] && r[j] == acc[j];
          }
        }
      }
    }
  }

  /** A scored record of a call comes from one of its candidates, evaluated for that donor. */
  lemma ScoredFromCandidate(model: Option<Predictor>, p: Patient, compatible: seq<BloodGroup>, donors: seq<Donor>,
                            radiusKm: real, daysSince: Donor -> Option<int>, m: MatchData)
    requires ScoreAll(EvaluateFor(model, p, compatible, radiusKm, daysSince), donors).Some?
    requires m in ScoreAll(EvaluateFor(model, p, compatible, radiusKm, daysSince), donors).value
    ensures m.donor in donors && Evaluate(model, p, compatible, m.donor, radiusKm, daysSince(m.donor)) == Scored(m)
  {
    var eval := EvaluateFor(model, p, compatible, radiusKm, daysSince);
    ScoreAllExact(eval, donors);
    var i :| 0 <= i < |donors| && eval(donors[i]) == Scored(m);
    EvaluateScored(model, p, compatible, donors[i], radiusKm, daysSince(donors[i]));
  }

  // ---------------------------------------------------------------------------
  // The whole ranking call
  // ---------------------------------------------------------------------------

  /** The persisted row for a ranked candidate: its reported values, for the case, with status "pending". */
  function ToRecord(caseId: int, m: MatchData): (r: Match)
    ensures r.sosCaseId == caseId && r.donorId == m.donor.id && r.status == "pending"
    ensures r.compatibilityScore == m.compatibilityScore && r.matchProbability == m.matchProbability
    ensures r.urgencyWeight == m.urgencyWeight && r.finalScore == m.finalScore && r.distanceKm == m.distanceKm
    ensures r.bloodCompatible == m.bloodCompatible && r.organMatch == m.organMatch && r.ageCompatible == m.ageCompatible
  {
    Match(caseId, m.donor.id, m.compatibilityScore, m.distanceKm, m.matchProbability, m.urgencyWeight,
          m.finalScore, m.bloodCompatible, m.organMatch, m.ageCompatible, "pending")
  }

  /** One row per match, in order. */
  function Records(caseId: int, ms: seq<MatchData>): (r: seq<Match>)
    ensures |r| == |ms|
  {
    if ms == [] then [] else Records(caseId, ms[..|ms| - 1]) + [ToRecord(caseId, ms[|ms| - 1])]
  }

  /** Row i records match i of the list, for the given case, as pending. */
  lemma {:induction false} RecordsPointwise(caseId: int, ms: seq<MatchData>)
    ensures forall i :: 0 <= i < |ms| ==> Records(caseId, ms)[i] == ToRecord(caseId, ms[i])
  {
    if ms != [] {
      var init := ms[..|ms| - 1];
      RecordsPointwise(caseId, init);
      forall i | 0 <= i < |ms| ensures Records(caseId, ms)[i] == ToRecord(caseId, ms[i]) {
        if i < |init| {
          assert ms[i] == init[i];
        }
      }
    }
  }

  /** What a ranking call returns and what it appends to the match table. */
  datatype Outcome = Outcome(results: seq<MatchData>, persisted: seq<Match>)

  /** The scored candidates in registry order, or None when the call returns early or raises. */
  function ScoredCandidates(model: Option<Predictor>, cases: map<int, SOSCase>, table: seq<Donor>, caseId: Option<int>,
                  data: Option<PatientData>, radiusKm: real, daysSince: Donor -> Option<int>): (r: Option<seq<MatchData>>)
    ensures r.Some? ==> ResolvePatient(cases, caseId, data).Some? && |r.value| <= |table|
  {
    match ResolvePatient(cases, caseId, data)
    case None => None
    case Some(p) =>
      var compatible := CompatibleGroups(p.bloodGroup);
      var donors := Candidates(table, p.organRequired, compatible);
      if donors == [] then None
      else ScoreAll(EvaluateFor(model, p, compatible, radiusKm, daysSince), donors)
  }

  /** The ranked list of a call's scored candidates: sorted highest first, then cut to `maxResults`. */
  function Rank(scored: seq<MatchData>, maxResults: int): (r: seq<MatchData>)
    ensures |r| <= |scored| && (maxResults >= 0 ==> |r| <= maxResults)
  {
    Take(SortDesc(scored, FinalKey), maxResults)
  }

  /** What a ranking call returns and records, as a function of its inputs and the registry. */
  function FindMatchesSpec(model: Option<Predictor>, cases: map<int, SOSCase>, table: seq<Donor>,
                           caseId: Option<int>, data: Option<PatientData>, maxResults: int, radiusKm: real,
                           daysSince: Donor -> Option<int>): (r: Outcome)
    ensures !CaseBound(caseId) ==> r.persisted == []
    ensures CaseBound(caseId) ==> |r.persisted| == |r.results|
  {
    match ScoredCandidates(model, cases, table, caseId, data, radiusKm, daysSince)
    case None => Outcome([], [])
    case Some(scored) =>
      var ranked := Rank(scored, maxResults);
      Outcome(ranked, if CaseBound(caseId) then Records(caseId.value, ranked) else [])
  }

  // ---------------------------------------------------------------------------
  // Properties of a ranking call
  // ---------------------------------------------------------------------------

  /** The call returns nothing and records nothing on each early exit and on an exception. */
  lemma EmptyOutcomes(model: Option<Predictor>, cases: map<int, SOSCase>, table: seq<Donor>, caseId: Option<int>,
                      data: Option<PatientData>, maxResults: int, radiusKm: real, daysSince: Donor -> Option<int>)
    ensures CaseBound(caseId) && caseId.value !in cases ==>
      FindMatchesSpec(model, cases, table, caseId, data, maxResults, radiusKm, daysSince) == Outcome([], [])
    ensures !CaseBound(caseId) && data.None? ==>
      FindMatchesSpec(model, cases, table, caseId, data, maxResults, radiusKm, daysSince) == Outcome([], [])
    ensures (ResolvePatient(cases, caseId, data).Some? &&
             Candidates(table, ResolvePatient(cases, caseId, data).value.organRequired,
                        CompatibleGroups(ResolvePatient(cases, caseId, data).value.bloodGroup)) == []) ==>
      FindMatchesSpec(model, cases, table, caseId, data, maxResults, radiusKm, daysSince) == Outcome([], [])
    ensures (ResolvePatient(cases, caseId, data).Some? &&
             var p := ResolvePatient(cases, caseId, data).value;
             var compatible := CompatibleGroups(p.bloodGroup);
             var donors := Candidates(table, p.organRequired, compatible);
             exists i :: 0 <= i < |donors| && Evaluate(model, p, compatible, donors[i], radiusKm, daysSince(donors[i])).Raised?) ==>
      FindMatchesSpec(model, cases, table, caseId, data, maxResults, radiusKm, daysSince) == Outcome([], [])
  {
    match ResolvePatient(cases, caseId, data)
    case None =>
    case Some(p) =>
      var compatible := CompatibleGroups(p.bloodGroup);
      var donors := Candidates(table, p.organRequired, compatible);
      var eval := EvaluateFor(model, p, compatible, radiusKm, daysSince);
      ScoreAllRaisesIff(eval, donors);
      if exists i :: 0 <= i < |donors| && Evaluate(model, p, compatible, donors[i], radiusKm, daysSince(donors[i])).Raised? {
        var i :| 0 <= i < |donors| && Evaluate(model, p, compatible, donors[i], radiusKm, daysSince(donors[i])).Raised?;
        assert eval(donors[i]).Raised?;
      }
  }

  /** A patient without blood group, or whose details lack the organ, is never matched. */
  lemma MissingKeysMatchNothing(model: Option<Predictor>, cases: map<int, SOSCase>, table: seq<Donor>,
                                data: PatientData, maxResults: int, radiusKm: real, daysSince: Donor -> Option<int>)
    requires data.bloodGroup.None? || data.organType.None?
    ensures FindMatchesSpec(model, cases, table, None, Some(data), maxResults, radiusKm, daysSince) == Outcome([], [])
  {
    var p := ResolvePatient(cases, None, Some(data)).value;
    NoCandidates(table, p.organRequired, CompatibleGroups(p.bloodGroup));
  }

  /** Only candidates that pass every hard filter are returned, so both flags are always true. */
  lemma ResultsPassFilter(model: Option<Predictor>, cases: map<int, SOSCase>, table: seq<Donor>, caseId: Option<int>,
                          data: Option<PatientData>, maxResults: int, radiusKm: real, daysSince: Donor -> Option<int>)
    ensures var out := FindMatchesSpec(model, cases, table, caseId, data, maxResults, radiusKm, daysSince);
      out.results != [] ==> ResolvePatient(cases, caseId, data).Some?
    ensures var out := FindMatchesSpec(model, cases, table, caseId, data, maxResults, radiusKm, daysSince);
      forall m :: m in out.results ==>
        var p := ResolvePatient(cases, caseId, data).value;
        && m.donor in table
        && p.organRequired == Some(m.donor.organType)
        && m.donor.availabilityStatus
        && m.donor.approvalStatus == Approved
        && m.donor.bloodGroup in CompatibleGroups(p.bloodGroup)
        && m.bloodCompatible && m.organMatch
        && (m.ageCompatible <==> p.age.value - 20 <= m.donor.age <= p.age.value + 20)
        && m.distanceKm == LocationTier(m.donor.city, m.donor.state, p.city, p.state).distanceKm
        && !ExcludedByRadius(m.distanceKm, radiusKm)
        && m.features.compatibilityScore >= 0.83
  {
    var out := FindMatchesSpec(model, cases, table, caseId, data, maxResults, radiusKm, daysSince);
    forall m | m in out.results
      ensures ResolvePatient(cases, caseId, data).Some?
      ensures var p := ResolvePatient(cases, caseId, data).value;
        && m.donor in table
        && p.organRequired == Some(m.donor.organType)
        && m.donor.availabilityStatus
        && m.donor.approvalStatus == Approved
        && m.donor.bloodGroup in CompatibleGroups(p.bloodGroup)
        && m.bloodCompatible && m.organMatch
        && (m.ageCompatible <==> p.age.value - 20 <= m.donor.age <= p.age.value + 20)
        && m.distanceKm == LocationTier(m.donor.city, m.donor.state, p.city, p.state).distanceKm
        && !ExcludedByRadius(m.distanceKm, radiusKm)
        && m.features.compatibilityScore >= 0.83
    {
      ResultIsScored(model, cases, table, caseId, data, maxResults, radiusKm, daysSince, m);
      var p := ResolvePatient(cases, caseId, data).value;
      var compatible := CompatibleGroups(p.bloodGroup);
      var donors := Candidates(table, p.organRequired, compatible);
      ScoredFromCandidate(model, p, compatible, donors, radiusKm, daysSince, m);
      CandidatesExact(table, p.organRequired, compatible);
      EvaluateScored(model, p, compatible, m.donor, radiusKm, daysSince(m.donor));
      EvaluateCandidateScores(model, p, compatible, m.donor, radiusKm, daysSince(m.donor));
    }
    if out.results != [] {
      assert out.results[0] in out.results;
    }
  }

  /** A returned match is one of the scored candidates. */
  lemma ResultIsScored(model: Option<Predictor>, cases: map<int, SOSCase>, table: seq<Donor>, caseId: Option<int>,
                       data: Option<PatientData>, maxResults: int, radiusKm: real, daysSince: Donor -> Option<int>,
                       m: MatchData)
    requires m in FindMatchesSpec(model, cases, table, caseId, data, maxResults, radiusKm, daysSince).results
    ensures ScoredCandidates(model, cases, table, caseId, data, radiusKm, daysSince).Some?
    ensures m in ScoredCandidates(model, cases, table, caseId, data, radiusKm, daysSince).value
  {
    var s := ScoredCandidates(model, cases, table, caseId, data, radiusKm, daysSince).value;
    var sorted := SortDesc(s, FinalKey);
    SortDescPermutes(s, FinalKey);
    assert m in sorted;
    assert m in multiset(sorted);
  }

  /** The ranked list is sorted, bounded by the limit, drawn from the scored list, and keeps its best. */
  lemma RankProperties(scored: seq<MatchData>, maxResults: int)
    ensures SortedDesc(Rank(scored, maxResults), FinalKey)
    ensures maxResults >= 0 ==> |Rank(scored, maxResults)| <= maxResults
    ensures |Rank(scored, maxResults)| <= |scored|
    ensures multiset(Rank(scored, maxResults)) <= multiset(scored)
    ensures forall x, y :: x in scored && x !in Rank(scored, maxResults) && y in Rank(scored, maxResults) ==>
      x.finalScore <= y.finalScore
  {
    var r := Rank(scored, maxResults);
    TopOfSorted(scored, FinalKey, maxResults);
    TopKeepsBest(scored, FinalKey, maxResults);
    forall x, y | x in scored && x !in r && y in r ensures x.finalScore <= y.finalScore {
      assert FinalKey(x) <= FinalKey(y);
    }
  }

  /** A call that gets past the early exits returns the ranked scored candidates. */
  lemma ResultsAreRanked(model: Option<Predictor>, cases: map<int, SOSCase>, table: seq<Donor>, caseId: Option<int>,
                         data: Option<PatientData>, maxResults: int, radiusKm: real, daysSince: Donor -> Option<int>)
    ensures var scored := ScoredCandidates(model, cases, table, caseId, data, radiusKm, daysSince);
      FindMatchesSpec(model, cases, table, caseId, data, maxResults, radiusKm, daysSince).results ==
        if scored.Some? then Rank(scored.value, maxResults) else []
    ensures var scored := ScoredCandidates(model, cases, table, caseId, data, radiusKm, daysSince);
      scored.Some? ==> |scored.value| <= |table|
  {
    var scored := ScoredCandidates(model, cases, table, caseId, data, radiusKm, daysSince);
    if scored.Some? {
      var p := ResolvePatient(cases, caseId, data).value;
      var donors := Candidates(table, p.organRequired, CompatibleGroups(p.bloodGroup));
      assert |scored.value| <= |donors|;
    }
  }

  /**
    The results are sorted by final score, highest first; there are at most
    `maxResults` of them (for a non-negative limit) and never more than the
    registry rows; and no scored candidate left out scores above one kept.
   */
  lemma ResultsRanked(model: Option<Predictor>, cases: map<int, SOSCase>, table: seq<Donor>, caseId: Option<int>,
                      data: Option<PatientData>, maxResults: int, radiusKm: real, daysSince: Donor -> Option<int>)
    ensures var out := FindMatchesSpec(model, cases, table, caseId, data, maxResults, radiusKm, daysSince);
      SortedDesc(out.results, FinalKey)
    ensures var out := FindMatchesSpec(model, cases, table, caseId, data, maxResults, radiusKm, daysSince);
      (maxResults >= 0 ==> |out.results| <= maxResults) && |out.results| <= |table|
    ensures var out := FindMatchesSpec(model, cases, table, caseId, data, maxResults, radiusKm, daysSince);
      var scored := ScoredCandidates(model, cases, table, caseId, data, radiusKm, daysSince);
      scored.Some? ==>
        && multiset(out.results) <= multiset(scored.value)
        && forall x, y :: x in scored.value && x !in out.results && y in out.results ==> x.finalScore <= y.finalScore
  {
    ResultsAreRanked(model, cases, table, caseId, data, maxResults, radiusKm, daysSince);
    var scored := ScoredCandidates(model, cases, table, caseId, data, radiusKm, daysSince);
    if scored.Some? {
      RankProperties(scored.value, maxResults);
    }
  }

  /** The scored candidates of a call are the scoring candidates' records, in registry order. */
  lemma ScoredInRegistryOrder(model: Option<Predictor>, cases: map<int, SOSCase>, table: seq<Donor>, caseId: Option<int>,
                              data: Option<PatientData>, radiusKm: real, daysSince: Donor -> Option<int>)
    requires ScoredCandidates(model, cases, table, caseId, data, radiusKm, daysSince).Some?
    ensures var p := ResolvePatient(cases, caseId, data).value;
      var compatible := CompatibleGroups(p.bloodGroup);
      ScoredCandidates(model, cases, table, caseId, data, radiusKm, daysSince).value ==
        ScoredInOrder(EvaluateFor(model, p, compatible, radiusKm, daysSince), Candidates(table, p.organRequired, compatible))
  {
    var p := ResolvePatient(cases, caseId, data).value;
    var compatible := CompatibleGroups(p.bloodGroup);
    ScoreAllInOrder(EvaluateFor(model, p, compatible, radiusKm, daysSince), Candidates(table, p.organRequired, compatible));
  }

  /**
    Ties keep registry order: for every score value, the returned candidates
    with that score are the first ones with that score among the scoring
    candidates taken in registry order.
   */
  lemma ResultsKeepTieOrder(model: Option<Predictor>, cases: map<int, SOSCase>, table: seq<Donor>, caseId: Option<int>,
                            data: Option<PatientData>, maxResults: int, radiusKm: real,
                            daysSince: Donor -> Option<int>, k: real)
    requires ScoredCandidates(model, cases, table, caseId, data, radiusKm, daysSince).Some?
    ensures var p := ResolvePatient(cases, caseId, data).value;
      var compatible := CompatibleGroups(p.bloodGroup);
      var inRegistryOrder :=
        ScoredInOrder(EvaluateFor(model, p, compatible, radiusKm, daysSince), Candidates(table, p.organRequired, compatible));
      IsPrefix(WithKey(FindMatchesSpec(model, cases, table, caseId, data, maxResults, radiusKm, daysSince).results, FinalKey, k),
               WithKey(inRegistryOrder, FinalKey, k))
  {
    var s := ScoredCandidates(model, cases, table, caseId, data, radiusKm, daysSince).value;
    var sorted := SortDesc(s, FinalKey);
    ScoredInRegistryOrder(model, cases, table, caseId, data, radiusKm, daysSince);
    SortDescStable(s, FinalKey, k);
    PrefixWithKey(Rank(s, maxResults), sorted, FinalKey, k);
  }

  /** When every registry row has its own id, every donor appears at most once in the results. */
  lemma ResultsDistinctDonors(model: Option<Predictor>, cases: map<int, SOSCase>, table: seq<Donor>, caseId: Option<int>,
                              data: Option<PatientData>, maxResults: int, radiusKm: real, daysSince: Donor -> Option<int>)
    requires Distinct(table, RowId)
    ensures Distinct(FindMatchesSpec(model, cases, table, caseId, data, maxResults, radiusKm, daysSince).results, DonorId)
  {
    match ResolvePatient(cases, caseId, data)
    case None =>
    case Some(p) =>
      var compatible := CompatibleGroups(p.bloodGroup);
      var donors := Candidates(table, p.organRequired, compatible);
      var eval := EvaluateFor(model, p, compatible, radiusKm, daysSince);
      if donors != [] && ScoreAll(eval, donors).Some? {
        var s := ScoreAll(eval, donors).value;
        CandidatesDistinct(table, p.organRequired, compatible);
        forall i | 0 <= i < |donors| && eval(donors[i]).Scored? ensures eval(donors[i]).m.donor == donors[i] {
          EvaluateScored(model, p, compatible, donors[i], radiusKm, daysSince(donors[i]));
        }
        ScoreAllDistinct(eval, donors);
        SortDescDistinct(s, FinalKey, DonorId);
        PrefixDistinct(Rank(s, maxResults), SortDesc(s, FinalKey), DonorId);
      }
  }

  /** Exactly the returned matches are recorded, in order and as pending, and only for a case-bound call. */
  lemma PersistedAreResults(model: Option<Predictor>, cases: map<int, SOSCase>, table: seq<Donor>, caseId: Option<int>,
                            data: Option<PatientData>, maxResults: int, radiusKm: real, daysSince: Donor -> Option<int>)
    ensures var out := FindMatchesSpec(model, cases, table, caseId, data, maxResults, radiusKm, daysSince);
      !CaseBound(caseId) ==> out.persisted == []
    ensures var out := FindMatchesSpec(model, cases, table, caseId, data, maxResults, radiusKm, daysSince);
      CaseBound(caseId) ==>
        && |out.persisted| == |out.results|
        && forall i :: 0 <= i < |out.results| ==>
             && out.persisted[i].sosCaseId == caseId.value
             && out.persisted[i].donorId == out.results[i].donor.id
             && out.persisted[i].finalScore == out.results[i].finalScore
             && out.persisted[i].status == "pending"
    ensures var out := FindMatchesSpec(model, cases, table, caseId, data, maxResults, radiusKm, daysSince);
      CaseBound(caseId) ==> forall i :: 0 <= i < |out.results| ==> out.persisted[i] == ToRecord(caseId.value, out.results[i])
  {
    var out := FindMatchesSpec(model, cases, table, caseId, data, maxResults, radiusKm, daysSince);
    if CaseBound(caseId) {
      RecordsPointwise(caseId.value, out.results);
    }
  }

  /**
    Without a model every reported probability is 0.5; with a model that
    always raises, every reported probability equals the reported rule score.
   */
  lemma ProbabilityFallbacks(model: Option<Predictor>, cases: map<int, SOSCase>, table: seq<Donor>, caseId: Option<int>,
                             data: Option<PatientData>, maxResults: int, radiusKm: real, daysSince: Donor -> Option<int>)
    ensures var out := FindMatchesSpec(model, cases, table, caseId, data, maxResults, radiusKm, daysSince);
      model.None? ==> forall m :: m in out.results ==> m.matchProbability == 0.5
    ensures var out := FindMatchesSpec(model, cases, table, caseId, data, maxResults, radiusKm, daysSince);
      (model.Some? && forall v :: model.value(v) == PredictionFailed) ==>
        forall m :: m in out.results ==> m.matchProbability == m.compatibilityScore
  {
    var out := FindMatchesSpec(model, cases, table, caseId, data, maxResults, radiusKm, daysSince);
    forall m | m in out.results
      ensures model.None? ==> m.matchProbability == 0.5
      ensures (model.Some? && forall v :: model.value(v) == PredictionFailed) ==> m.matchProbability == m.compatibilityScore
    {
      ResultIsScored(model, cases, table, caseId, data, maxResults, radiusKm, daysSince, m);
      var p := ResolvePatient(cases, caseId, data).value;
      var compatible := CompatibleGroups(p.bloodGroup);
      var donors := Candidates(table, p.organRequired, compatible);
      ScoredFromCandidate(model, p, compatible, donors, radiusKm, daysSince, m);
      EvaluateScored(model, p, compatible, m.donor, radiusKm, daysSince(m.donor));
    }
  }

  // ---------------------------------------------------------------------------
  // Explanation text
  // ---------------------------------------------------------------------------

  const BloodOk: string := "\U{2713} Blood group compatible"
  const BloodBad: string := "\U{2717} Blood group incompatible"
  const OrganOk: string := "\U{2713} Organ type matches"
  const AgeOk: string := "\U{2713} Age compatible"
  const DistancePrefix: string := "\U{1F4CD} Distance: "
  const ScorePrefix: string := "\U{1F3AF} Match Score: "

  function DistanceClause(km: nat): string {
    DistancePrefix + FormatFixed(km as real, 1) + " km"
  }

  function ScoreClause(score: real): string {
    ScorePrefix + FormatFixed(score, 2) + "/1.0"
  }

  predicate StartsWith(s: string, prefix: string) {
    |prefix| <= |s| && s[..|prefix|] == prefix
  }

  /** The clauses of an explanation, in the order they are appended. */
  function ExplanationClauses(m: MatchData): (r: seq<string>)
    ensures |r| == 2 + (if m.organMatch then 1 else 0) + (if m.ageCompatible then 1 else 0) + (if m.distanceKm.Some? then 1 else 0)
  {
    BloodClauses(m) + OrganClauses(m) + AgeClauses(m) + DistanceClauses(m) + [ScoreClause(m.finalScore)]
  }

  function BloodClauses(m: MatchData): seq<string> {
    [if m.bloodCompatible then BloodOk else BloodBad]
  }

  function OrganClauses(m: MatchData): seq<string> {
    if m.organMatch then [OrganOk] else []
  }

  function AgeClauses(m: MatchData): seq<string> {
    if m.ageCompatible then [AgeOk] else []
  }

  function DistanceClauses(m: MatchData): seq<string> {
    if m.distanceKm.Some? then [DistanceClause(m.distanceKm.value)] else []
  }

  /** Every element of `s` satisfies `P`. */
  predicate All<T>(s: seq<T>, P: T -> bool) {
    forall i :: 0 <= i < |s| ==> P(s[i])
  }

  lemma AllConcat<T>(a: seq<T>, b: seq<T>, P: T -> bool)
    requires All(a, P) && All(b, P)
    ensures All(a + b, P)
  {
    forall i | 0 <= i < |a + b| ensures P((a + b)[i]) {
      if i >= |a| {
        assert (a + b)[i] == b[i - |a|];
      } else {
        assert (a + b)[i] == a[i];
      }
    }
  }

  predicate NotDistanceClause(c: string) {
    !StartsWith(c, DistancePrefix)
  }

  lemma HeadRulesOutDistance(c: string)
    requires |c| > 0 && c[0] != '\U{1F4CD}'
    ensures NotDistanceClause(c)
  {
  }

  lemma PrefixOfConcat(a: string, b: string, c: string)
    ensures StartsWith(a + b + c, a)
  {
    assert (a + b + c)[..|a|] == a;
  }

  /** Only the distance clause starts with the distance prefix. */
  lemma OtherClausesAreNotDistance(m: MatchData)
    ensures All(BloodClauses(m) + OrganClauses(m) + AgeClauses(m), NotDistanceClause)
    ensures NotDistanceClause(ScoreClause(m.finalScore))
  {
    HeadRulesOutDistance(BloodOk);
    HeadRulesOutDistance(BloodBad);
    HeadRulesOutDistance(OrganOk);
    HeadRulesOutDistance(AgeOk);
    var score := ScoreClause(m.finalScore);
    assert score[0] == ScorePrefix[0];
    HeadRulesOutDistance(score);
    AllConcat(BloodClauses(m), OrganClauses(m), NotDistanceClause);
    AllConcat(BloodClauses(m) + OrganClauses(m), AgeClauses(m), NotDistanceClause);
  }

  /** The first clause is about blood and the last is the score. */
  lemma ExplanationEnds(m: MatchData)
    ensures var cs := ExplanationClauses(m);
      && 2 <= |cs| <= 5
      && cs[0] == (if m.bloodCompatible then BloodOk else BloodBad)
      && cs[|cs| - 1] == ScoreClause(m.finalScore)
  {
    var cs := ExplanationClauses(m);
    var front := BloodClauses(m) + OrganClauses(m) + AgeClauses(m);
    assert cs == front + DistanceClauses(m) + [ScoreClause(m.finalScore)];
    assert cs[0] == front[0] == BloodClauses(m)[0];
  }

  /** A distance clause is present exactly when the distance is known. */
  lemma ExplanationMentionsDistance(m: MatchData)
    ensures var cs := ExplanationClauses(m);
      (exists i :: 0 <= i < |cs| && StartsWith(cs[i], DistancePrefix)) <==> m.distanceKm.Some?
  {
    if m.distanceKm.Some? {
      DistanceClauseListed(m);
    } else {
      NoDistanceClauseListed(m);
    }
  }

  lemma DistanceClauseListed(m: MatchData)
    requires m.distanceKm.Some?
    ensures StartsWith(ExplanationClauses(m)[|ExplanationClauses(m)| - 2], DistancePrefix)
  {
    var c := DistanceClause(m.distanceKm.value);
    var front := BloodClauses(m) + OrganClauses(m) + AgeClauses(m);
    var x := front + [c];
    assert DistanceClauses(m) == [c];
    LastButOne(x, ScoreClause(m.finalScore));
    PrefixOfConcat(DistancePrefix, FormatFixed(m.distanceKm.value as real, 1), " km");
  }

  lemma LastButOne<T>(x: seq<T>, y: T)
    requires x != []
    ensures (x + [y])[|x + [y]| - 2] == x[|x| - 1]
  {
  }

  lemma NoDistanceClauseListed(m: MatchData)
    requires m.distanceKm.None?
    ensures All(ExplanationClauses(m), NotDistanceClause)
  {
    var front := BloodClauses(m) + OrganClauses(m) + AgeClauses(m);
    var score := ScoreClause(m.finalScore);
    OtherClausesAreNotDistance(m);
    assert All([score], NotDistanceClause);
    AllConcat(front, [score], NotDistanceClause);
    assert ExplanationClauses(m) == front + [score];
  }

  lemma NoPipeConcat(a: string, b: string)
    requires NoPipe(a) && NoPipe(b)
    ensures NoPipe(a + b)
  {
    forall i | 0 <= i < |a + b| ensures (a + b)[i] != '|' {
      if i >= |a| {
        assert (a + b)[i] == b[i - |a|];
      }
    }
  }

  lemma ConstantsHaveNoPipe()
    ensures NoPipe(BloodOk) && NoPipe(BloodBad) && NoPipe(OrganOk) && NoPipe(AgeOk)
    ensures NoPipe(DistancePrefix) && NoPipe(ScorePrefix) && NoPipe(" km") && NoPipe("/1.0")
  {
  }

  /** No clause contains '|', so the separator cannot occur inside one. */
  lemma ClausesHaveNoPipe(m: MatchData)
    ensures All(ExplanationClauses(m), NoPipe)
  {
    ConstantsHaveNoPipe();
    if m.distanceKm.Some? {
      var num := FormatFixed(m.distanceKm.value as real, 1);
      NumeralHasNoPipe(num);
      NoPipeConcat(DistancePrefix, num);
      NoPipeConcat(DistancePrefix + num, " km");
    }
    var num := FormatFixed(m.finalScore, 2);
    NumeralHasNoPipe(num);
    NoPipeConcat(ScorePrefix, num);
    NoPipeConcat(ScorePrefix + num, "/1.0");
    var a := BloodClauses(m) + OrganClauses(m);
    AllConcat(BloodClauses(m), OrganClauses(m), NoPipe);
    AllConcat(a, AgeClauses(m), NoPipe);
    AllConcat(a + AgeClauses(m), DistanceClauses(m), NoPipe);
    AllConcat(a + AgeClauses(m) + DistanceClauses(m), [ScoreClause(m.finalScore)], NoPipe);
  }

  /** An explanation splits back into its clauses. */
  lemma ExplanationRoundTrip(m: MatchData)
    ensures Split(Join(ExplanationClauses(m), Separator)) == ExplanationClauses(m)
  {
    ClausesHaveNoPipe(m);
    SplitJoin(ExplanationClauses(m));
  }

  // ---------------------------------------------------------------------------
  // The engine object
  // ---------------------------------------------------------------------------

  class MatchingEngine {
    /** The learned model, when one was loaded at start-up. */
    const mlModel: Option<Predictor>
    /** The persisted match table; a ranking call only ever appends to it. */
    var matchTable: seq<Match>

    constructor (model: Option<Predictor>, existing: seq<Match>)
      ensures mlModel == model && matchTable == existing
    {
      mlModel := model;
      matchTable := existing;
    }

    /** The per-donor loop, proved to compute the scored list (or to raise when the specification raises). */
    method ScoreDonors(p: Patient, compatible: seq<BloodGroup>, donors: seq<Donor>, radiusKm: real,
                       daysSince: Donor -> Option<int>) returns (ok: bool, matches: seq<MatchData>)
      ensures ok <==> ScoreAll(EvaluateFor(mlModel, p, compatible, radiusKm, daysSince), donors).Some?
      ensures ok ==> matches == ScoreAll(EvaluateFor(mlModel, p, compatible, radiusKm, daysSince), donors).value
    {
      matches := [];
      for i := 0 to |donors|
        invariant ScoreAll(EvaluateFor(mlModel, p, compatible, radiusKm, daysSince), donors[..i]) == Some(matches)
      {
        var donor := donors[i];
        assert donors[..i + 1][..i] == donors[..i];
        var bloodCompatible := donor.bloodGroup in compatible;
        var organMatch := p.organRequired == Some(donor.organType);
        if p.age.None? {
          ScoreAllRaisesIff(EvaluateFor(mlModel, p, compatible, radiusKm, daysSince), donors);
          return false, [];
        }
        var ageCompatible := AgeCompatible(donor.age, p.age.value);
        var location := LocationTier(donor.city, donor.state, p.city, p.state);
        if ExcludedByRadius(location.distanceKm, radiusKm) {
          continue;
        }
        var compatibilityScore := CompatibilityScore(bloodCompatible, organMatch, ageCompatible, location.score);
        var urgencyWeight := UrgencyWeight(p.urgencyLevel);
        var reliability := Reliability(donor.reliabilityScore);
        var days := daysSince(donor);
        if days.None? {
          ScoreAllRaisesIff(EvaluateFor(mlModel, p, compatible, radiusKm, daysSince), donors);
          return false, [];
        }
        var freshnessScore := Freshness(days.value);
        var features := BuildFeatures(bloodCompatible, organMatch, ageCompatible, location.distanceKm, radiusKm,
                                      urgencyWeight, reliability, freshnessScore, compatibilityScore);
        var matchProbability := 0.5;
        if mlModel.Some? {
          match mlModel.value(features.ToVector()) {
            case Predicted(pr) => matchProbability := pr;
            case PredictionFailed => matchProbability := compatibilityScore;
          }
        }
        var finalScore := FinalScore(compatibilityScore, matchProbability, urgencyWeight, reliability);
        matches := matches + [MatchData(donor, Round3(compatibilityScore), location.distanceKm, Round3(matchProbability),
                                        Round3(urgencyWeight), Round3(finalScore), bloodCompatible, organMatch,
                                        ageCompatible, features)];
      }
      assert donors[..|donors|] == donors;
      ok := true;
    }

    /**
      Ranks the candidates for a case (or for directly supplied details) and,
      for a case-bound call, appends the ranked matches to the match table.
     */
    method FindMatches(cases: map<int, SOSCase>, table: seq<Donor>, caseId: Option<int>, data: Option<PatientData>,
                       maxResults: int, radiusKm: real, daysSince: Donor -> Option<int>)
      returns (result: seq<MatchData>)
      modifies this
      ensures result == FindMatchesSpec(mlModel, cases, table, caseId, data, maxResults, radiusKm, daysSince).results
      ensures matchTable ==
        old(matchTable) + FindMatchesSpec(mlModel, cases, table, caseId, data, maxResults, radiusKm, daysSince).persisted
    {
      var patient: Patient;
      if CaseBound(caseId) {
        if caseId.value !in cases {
          return [];
        }
        patient := FromCase(cases[caseId.value]);
      } else if data.Some? {
        patient := FromData(data.value);
      } else {
        return [];
      }
      var compatible := CompatibleGroups(patient.bloodGroup);
      var donors := Candidates(table, patient.organRequired, compatible);
      if donors == [] {
        return [];
      }
      assert ResolvePatient(cases, caseId, data) == Some(patient);
      var ok, scored := ScoreDonors(patient, compatible, donors, radiusKm, daysSince);
      if !ok {
        // The exception handler: roll back, return nothing.
        return [];
      }
      var matches := SortDesc(scored, FinalKey);
      matches := Take(matches, maxResults);
      assert ScoredCandidates(mlModel, cases, table, caseId, data, radiusKm, daysSince) == Some(scored);
      if CaseBound(caseId) {
        RecordMatches(caseId.value, matches);
      }
      result := matches;
    }

    /** Appends one pending row per match to the match table, in order. */
    method RecordMatches(caseId: int, matches: seq<MatchData>)
      modifies this
      ensures matchTable == old(matchTable) + Records(caseId, matches)
    {
      for i := 0 to |matches|
        invariant matchTable == old(matchTable) + Records(caseId, matches[..i])
      {
        assert matches[..i + 1][..i] == matches[..i];
        matchTable := matchTable + [ToRecord(caseId, matches[i])];
      }
      assert matches[..|matches|] == matches;
    }

    /** The human-readable explanation of a match: its clauses joined with " | ". */
    method GetMatchExplanation(m: MatchData) returns (text: string)
      ensures text == Join(ExplanationClauses(m), Separator)
      ensures Split(text) == ExplanationClauses(m)
    {
      var explanations: seq<string> := [];
      if m.bloodCompatible {
        explanations := explanations + [BloodOk];
      } else {
        explanations := explanations + [BloodBad];
      }
      assert explanations == BloodClauses(m);
      if m.organMatch {
        explanations := explanations + [OrganOk];
      }
      assert explanations == BloodClauses(m) + OrganClauses(m);
      if m.ageCompatible {
        explanations := explanations + [AgeOk];
      }
      assert explanations == BloodClauses(m) + OrganClauses(m) + AgeClauses(m);
      if m.distanceKm.Some? {
        explanations := explanations + [DistanceClause(m.distanceKm.value)];
      }
      assert explanations == BloodClauses(m) + OrganClauses(m) + AgeClauses(m) + DistanceClauses(m);
      explanations := explanations + [ScoreClause(m.finalScore)];
      ExplanationRoundTrip(m);
      text := Join(explanations, Separator);
    }
  }
}
