# Donor matching engine — a verified Dafny model

This project models the ranking core of an organ-donation platform. Given an
emergency (SOS) case, or patient details supplied directly, the engine does
the following:

- resolves the patient;
- looks up the blood groups it accepts in a fixed compatibility table;
- queries the donor registry for available, approved donors of the required
  organ in an accepted group;
- scores every candidate:
  - a rule-based compatibility score from the blood, organ, age and location
    signals;
  - an optional learned probability;
  - an urgency weight, a reliability score and a listing freshness;
  - a hybrid final score built from these;
- sorts the candidates by the rounded final score, highest first, and keeps
  the first `max_results`;
- when the call is bound to a case, appends one pending match row per kept
  candidate to the match table.

A second operation turns one match into a human-readable explanation whose
clauses are joined with `" | "`.

## Modules

- **`Wrappers`**: `Option`.
- **`Database`**: the enumerations, the donor, case and match rows, and the
  blood-group table.
- **`Text`**:
  - ASCII lower-casing;
  - `sep.join` and its inverse;
  - fixed-point formatting of numbers.
- **`Scoring`**: the per-candidate formulas.
- **`Ranking`**: the stable descending sort and Python's slice `s[:n]`.
- **`Engine`**:
  - the functional specification of a whole call (`FindMatchesSpec`) and its
    properties;
  - the class `MatchingEngine`, whose loop-based methods are proved equal to
    that specification.

## Inputs that stand in for the outside world

- **The registry.** It is an ordered sequence of donor rows plus a map from
  case ids to cases. The database query is modelled as a filter of the table
  in table order. An arbitrary table order covers any order the database
  might return.
- **The clock.** `daysSince: Donor -> Option<int>` gives a donor's listing age
  in days. `None` means the date subtraction raises, for example on a missing
  registration date.
  - The subtraction at matching_engine.py:135 takes a timezone-aware "now".
    SQLite hands back naive datetimes, so the subtraction plausibly raises for
    every donor inside the radius. The whole call would then return `[]`
    through the handler at matching_engine.py:222-225 (not executed). The model
    covers this case: `daysSince` returns `None` for every donor, and
    `EmptyOutcomes` gives the empty outcome.
- **The learned model.** It is `Option<Predictor>`, where a `Predictor` maps the
  eight-feature vector to `Predicted(p)` or `PredictionFailed`.
  - The model file is written by the training script. That file holds a
    LightGBM `Booster` (ml_model.py:132 trains it, ml_model.py:191 pickles it).
  - A `Booster` has no `predict_proba`, so with that file loaded every
    prediction takes the exception path. The engine then uses the rule score
    as the probability (`ProbabilityFallbacks` covers this case).

## How the engine's Python semantics are modelled

- **Truthiness.**
  - A case id of `0` behaves like no case id (`CaseBound`).
  - An empty city or state counts as missing (`Truthy`).
  - A reliability of `0.0` is replaced by 0.5 just as `None` is (`Reliability`).
  - A distance of `0` km (same city) is never radius-checked. Its normalised
    distance is 0.5 (`ExcludedByRadius`, `DistanceNormalized`).
- **Exceptions.** Any exception inside the call is caught. The session is
  rolled back and the result is the empty list, with nothing recorded. The
  model has two sources of exceptions:
  - a missing patient age, which raises before the radius check;
  - an unknown listing age, which raises only for donors inside the radius.
  `ScoreAll` yields `None` as soon as one candidate raises.
- **The sort.** `list.sort(key=..., reverse=True)` is stable. Candidates with
  equal rounded scores keep registry order, and no further tie-break on donor
  id exists (`SortDescStable`, `ResultsKeepTieOrder`).
- **The slice.** `s[:n]` with a negative `n` drops the last `-n` elements
  (`Take`).
- **Urgency.** Missing `urgency_level` in supplied details defaults to 3.
- **Lookup direction.** The table is written "donor group → groups it can give
  to", but the engine looks it up with the patient's group. The accepted donor
  groups are therefore those the patient could give to.
  - The model keeps this as written. `ListedIffAntigenInclusion` characterises
    the table independently: `y` is listed under `x` exactly when every antigen
    of `x` is an antigen of `y`.
  - For example, an O-negative patient accepts every group, and an AB-positive
    patient accepts only AB-positive donors.
- **Behaviour a reader might not expect.**
  - With no model loaded the probability is 0.5 (matching_engine.py:151), not
    the rule score.
  - Equal rounded scores keep registry order, with no tie-break on donor id
    (matching_engine.py:195).

## Model

| member | source | states |
|---|---|---|
| Database.UrgencyLevel.Value | database.py:48-53 | every urgency level has an integer value from 1 to 5 |
| Database.ParseBloodGroup | database.py:19-27 | looking a string up as an enum value (`BloodGroup(s)`) succeeds only on the value of the group it returns |
| Database.BloodGroupLabelRoundTrip | database.py:19-27 | looking up a group's enum value gives that group back, so the eight enum values are distinct |
| Database.UrgencyFromValue | database.py:48-53 | an integer names a level exactly when it is 1..5, and then that level's value is the integer |
| Database.UrgencyValueRoundTrip | database.py:48-53 | converting a level to its value and back gives the same level |
| Database.CompatibleGroups | database.py:305-318 | a key that is not a group gives the empty list; every group's list contains the group itself and AB+ |
| Database.ListedIffAntigenInclusion | database.py:305-318 | y is in x's list if and only if x's ABO/RhD antigens are a subset of y's |
| Database.CompatibleGroupsNoDuplicates | database.py:305-318 | no list in the table repeats a group |
| Database.ONegListsEveryGroup | database.py:308-309 | O- lists all eight groups |
| Database.ABPosListsOnlyItself | database.py:316 | AB+ lists only AB+, and AB+ is in every list |
| Database.ListedReflexive | database.py:305-318 | every group is listed under itself |
| Database.ListedTransitive | database.py:305-318 | the table's relation is transitive |
| Database.ListedAntisymmetric | database.py:305-318 | two groups each listed under the other are equal, so the relation is a partial order |
| Text.Lower | matching_engine.py:106 | the result has the same length, no capital letters, and differs from the input only by lower-casing capitals |
| Text.LowerIdempotent | matching_engine.py:106 | lower-casing twice equals lower-casing once |
| Text.EqualIgnoringCaseIsEquivalence | matching_engine.py:106-109 | the case-insensitive comparison of city and state names is an equivalence relation |
| Text.Join | matching_engine.py:249 | joining one part gives that part |
| Text.JoinEnds | matching_engine.py:249 | the joined text starts with the first part and ends with the last |
| Text.SplitJoin | matching_engine.py:249 | splitting on " \| " recovers the parts whenever no part contains '\|' |
| Text.Split | matching_engine.py:249 | splitting any text on " \| " gives at least one part (the inverse of the join, by SplitJoin) |
| Text.FormatFixed | matching_engine.py:245-247 | fixed-point output consists only of digits, a point and a minus sign |
| Text.FormatWholeNumber | matching_engine.py:245 | a whole number of km prints as its digits followed by ".0" |
| Text.NumeralHasNoPipe | matching_engine.py:245-247 | formatted numbers contain no '\|' |
| Scoring.AgeCompatible | matching_engine.py:97-98 | compatible exactly when the donor's age is within 20 years of the patient's, either way |
| Scoring.AgeCompatibleSymmetric | matching_engine.py:97-98 | the age test is symmetric in donor and patient |
| Scoring.LocationTier | matching_engine.py:101-114 | the result is one of the four tiers, and the distance is unknown exactly when either city is missing or empty |
| Scoring.LocationTiers | matching_engine.py:101-114 | each case gives its tier: unknown (0.5, none), same city (1.0, 0 km), same state (0.7, 100 km), elsewhere (0.3, 300 km) |
| Scoring.LocationTierSymmetric | matching_engine.py:101-114 | swapping donor and patient locations gives the same tier |
| Scoring.NearerTierScoresHigher | matching_engine.py:101-114 | among tiers with a known distance, a smaller distance means a larger score and conversely |
| Scoring.ExcludedByRadius | matching_engine.py:116-118 | an unknown or zero distance is never excluded; an excluded donor has a known distance beyond the radius |
| Scoring.RadiusAgainstTiers | matching_engine.py:101-118 | a radius of at least 300 km (the default is 500) keeps every tier; one under 100 km drops every known non-zero distance |
| Scoring.CompatibilityScore | matching_engine.py:121-126 | the score is in [0, 1] for a unit location score, and is 1 exactly when every signal is perfect |
| Scoring.AgeMismatchPenalty | matching_engine.py:122-124 | an age mismatch costs exactly 0.1; a blood match with an age mismatch outscores a blood mismatch with an age match, and likewise for the organ; a blood or organ match raises the score |
| Scoring.CompatibilityScoreMonotone | matching_engine.py:121-126 | improving any signal never lowers the score |
| Scoring.UrgencyWeight | matching_engine.py:129 | five times the weight is the level; levels 1..5 give weights in [0.2, 1] |
| Scoring.Reliability | matching_engine.py:132 | the result is never 0; it is the stored score when that is non-zero, else 0.5 |
| Scoring.Freshness | matching_engine.py:135-136 | freshness is at least 0.5, at most 1 for non-negative ages, and exactly 0.5 from half a year on |
| Scoring.FreshnessNonIncreasing | matching_engine.py:135-136 | an older listing is never fresher |
| Scoring.DistanceNormalized | matching_engine.py:143 | inside the radius the value is in [0, 1] and equals distance over radius for a non-zero distance; it is 0.5 for an unknown or zero distance |
| Scoring.Features.ToVector | matching_engine.py:154-163 | the vector has one entry per schema name |
| Scoring.VectorFollowsSchema | matching_engine.py:139-163 | position i of the vector is the feature stored under the i-th schema name, and no other name has a value |
| Scoring.BuildFeatures | matching_engine.py:139-148 | the age feature is the age indicator, the normalised distance is in [0, 1], and the last entry is the rule score |
| Scoring.MatchProbability | matching_engine.py:151-167 | the probability is 0.5 without a model, the model's answer when it answers, and the rule score when it raises |
| Scoring.MatchProbabilityInUnit | matching_engine.py:151-167 | the probability is in [0, 1] whenever the rule score and the model's answers are |
| Scoring.FinalScore | matching_engine.py:170-175 | unit inputs give a unit score; four equal inputs give that value |
| Scoring.FinalScoreMonotone | matching_engine.py:170-175 | raising any input never lowers the final score |
| Scoring.Round3 | matching_engine.py:181-185 | the rounded value is within half a thousandth of the input |
| Scoring.Round3Monotone | matching_engine.py:181-185 | rounding preserves order, so sorting rounded scores respects unrounded order |
| Scoring.Round3InUnit | matching_engine.py:181-185 | rounding keeps unit values in [0, 1] |
| Scoring.Round3Idempotent | matching_engine.py:181-185 | rounding a rounded value changes nothing |
| Ranking.SortDescSorted | matching_engine.py:195 | the sorted list is in descending key order |
| Ranking.SortDescPermutes | matching_engine.py:195 | the sorted list is a permutation of the input |
| Ranking.SortDescStable | matching_engine.py:195 | for every key value, the elements with that key keep their input order |
| Ranking.SortDescDistinct | matching_engine.py:195 | sorting keeps distinct ids distinct |
| Ranking.Insert | matching_engine.py:195 | inserting adds exactly one element (one step of the sort) |
| Ranking.SortDesc | matching_engine.py:195 | the sort keeps the length; sortedness, permutation and stability are the three lemmas above |
| Ranking.Take | matching_engine.py:198 | the result is a prefix of length min(n, len) for n >= 0, and of length max(len + n, 0) for n < 0 |
| Ranking.PrefixWithKey | matching_engine.py:198 | cutting a list keeps, for every key value, a prefix of the elements with that key |
| Ranking.TopOfSorted | matching_engine.py:195-198 | the first n of the sorted list are sorted, at most n (for n >= 0) and at most the input length, and drawn from the input |
| Ranking.TopKeepsBest | matching_engine.py:195-198 | no element left out has a larger key than one kept |
| Engine.ResolvePatient | matching_engine.py:48-67 | a case-bound call finds a patient exactly when the case exists, and it is built from that case; otherwise a patient is found exactly when details were supplied, and it is built from them |
| Engine.FromCase | matching_engine.py:53-58 | a case-bound patient takes the case's group, organ, urgency, age, city and state, so group, organ and age are always present |
| Engine.FromData | matching_engine.py:60-65 | supplied details give each field as supplied, missing ones missing, and urgency 3 when it is missing |
| Engine.Candidates | matching_engine.py:70-82 | the query returns at most the registry's rows (exact membership is CandidatesExact) |
| Engine.CandidatesExact | matching_engine.py:73-82 | a donor is a candidate if and only if it is in the table with the requested organ, available, approved, and in an accepted group |
| Engine.CandidatesDistinct | matching_engine.py:73-82 | the query keeps primary keys distinct |
| Engine.NoCandidates | matching_engine.py:70-82 | with no organ or no accepted groups the query is empty |
| Engine.Evaluate | matching_engine.py:89-192 | a missing patient age raises; a donor skipped as too far is beyond the radius by its tier's distance; a scored record names its donor and needs a known listing age |
| Engine.EvaluateScored | matching_engine.py:89-192 | a scored record carries its donor, the exact blood, organ and age flags, the location tier's distance inside the radius, unit rule scores, the probability fallbacks, freshness of at least 0.5 and a non-zero reliability |
| Engine.EvaluateCandidateScores | matching_engine.py:89-175 | a filtered donor has both flags set and a rule score of at least 0.83; with unit inputs its final score is in [0, 1] |
| Engine.ScoreAll | matching_engine.py:88-192 | the loop keeps at most as many records as donors (order and multiplicity are ScoreAllInOrder) |
| Engine.ScoreAllRaisesIff | matching_engine.py:89-192 | the loop fails if and only if some candidate raises |
| Engine.ScoreAllExact | matching_engine.py:89-192 | every record comes from a candidate evaluated to it, and every candidate that scores has its record in the list |
| Engine.ScoreAllDistinct | matching_engine.py:89-192 | distinct donors give records with distinct donor ids |
| Engine.ScoredFromCandidate | matching_engine.py:89-192 | a scored record's donor is a queried candidate, and evaluating that donor gives the record |
| Engine.ScoredInOrder | matching_engine.py:88-192 | the reference output: one record per scoring donor, in donor order, never more than the donors |
| Engine.ScoredInOrderAppend | matching_engine.py:192 | appending a donor appends its record exactly when it scores |
| Engine.ScoreAllInOrder | matching_engine.py:88-192 | a successful loop returns exactly the reference output: one record per scoring donor, in donor order |
| Engine.ScoredInRegistryOrder | matching_engine.py:73-192 | a call's scored list is the scoring candidates' records in registry order |
| Engine.Records | matching_engine.py:201-216 | one row per match |
| Engine.RecordsPointwise | matching_engine.py:201-216 | row i records match i for the case, with status "pending" |
| Engine.ToRecord | matching_engine.py:203-215 | a row carries the case id, the donor id, every reported score and flag and the distance of its match, with status "pending" |
| Engine.ScoredCandidates | matching_engine.py:48-192 | a call that gets past the early exits has a patient and at most one scored candidate per registry row |
| Engine.Rank | matching_engine.py:195-198 | ranking never lengthens the list and respects a non-negative limit |
| Engine.FindMatchesSpec | matching_engine.py:31-227 | a call not bound to a case records nothing; a case-bound call records one row per result |
| Engine.EmptyOutcomes | matching_engine.py:48-85 | an unknown case, no patient, no candidates, or any candidate raising each give no results and no rows |
| Engine.MissingKeysMatchNothing | matching_engine.py:59-85 | supplied details without blood group or organ never match |
| Engine.ResultsPassFilter | matching_engine.py:73-126 | every result is a registry donor passing every hard filter, with both flags set, the exact age flag, its tier's distance within the radius, and a rule score of at least 0.83 |
| Engine.ResultIsScored | matching_engine.py:195-198 | every result is one of the scored candidates |
| Engine.RankProperties | matching_engine.py:195-198 | ranking gives a sorted list, within the limit, drawn from the scored list, and keeps the best |
| Engine.ResultsAreRanked | matching_engine.py:31-220 | helper for ResultsRanked: unfolds the call to "the ranked scored candidates, or empty on an early exit or exception" and recalls that there are never more scored candidates than registry rows |
| Engine.ResultsRanked | matching_engine.py:195-198 | results are sorted by final score, within the limit and the registry size, drawn from the scored candidates, and no omitted candidate outscores a kept one |
| Engine.ResultsKeepTieOrder | matching_engine.py:89-198 | for each score, the returned candidates with that score are the first ones with it among the scoring candidates in registry order |
| Engine.ResultsDistinctDonors | matching_engine.py:73-198 | with distinct registry ids, no donor appears twice in the results |
| Engine.PersistedAreResults | matching_engine.py:200-218 | a call not bound to a case records nothing; a case-bound call records row i as exactly ToRecord of result i (every column), for the case, as pending |
| Engine.ProbabilityFallbacks | matching_engine.py:151-167 | without a model every reported probability is 0.5; with a model that always raises, every reported probability equals the reported rule score |
| Engine.ExplanationClauses | matching_engine.py:231-247 | an explanation has the blood and score clauses plus one clause for each of organ match, age match and known distance |
| Engine.ExplanationEnds | matching_engine.py:229-249 | an explanation has 2 to 5 clauses, the first about blood and the last the score |
| Engine.ExplanationMentionsDistance | matching_engine.py:244-245 | a distance clause is present exactly when the distance is known |
| Engine.ClausesHaveNoPipe | matching_engine.py:233-247 | no clause contains '\|' |
| Engine.ExplanationRoundTrip | matching_engine.py:229-249 | splitting an explanation on " \| " gives back its clauses |
| Engine.MatchingEngine.constructor | matching_engine.py:12-16 | the engine starts with the given model (or none) and match table |
| Engine.MatchingEngine.ScoreDonors | matching_engine.py:88-192 | the loop succeeds exactly when the specification does, and then returns the specification's scored list |
| Engine.MatchingEngine.FindMatches | matching_engine.py:31-227 | the result is the specification's ranked list, and the match table grows by exactly the specification's rows |
| Engine.MatchingEngine.RecordMatches | matching_engine.py:200-218 | the match table grows by one pending row per match, in order |
| Engine.MatchingEngine.GetMatchExplanation | matching_engine.py:229-249 | the text is the clauses joined with " \| ", and splitting it gives the clauses back |

## Left out

- Database sessions, commit, rollback and close are not modelled. A failing
  commit is not modelled either. The match table is a sequence that a
  successful case-bound call appends to.
- The rest of the registry schema is not modelled: users, hospitals,
  donations, admins, audit logs, password hashing, and the columns the engine
  never reads.
- `haversine_distance` is never called by the engine, which uses the
  city/state approximation.
- `load_model` and unpickling are not modelled, because they are file I/O. The
  loaded model is an input of the constructor. Training and evaluation in
  ml_model.py are not part of this model.
- app.py, the web front end, is not part of this model.
- `datetime.now` is not modelled, because it reads the clock. It is replaced
  by the `daysSince` input.
- Console messages are left out, because they affect no result.
- Scoring.Round3: does not model Python's round-half-even on binary floats.
  Scores are exact reals rounded half-up, because floating point is not
  modelled.
- Text.FormatFixed: rounds exact reals half-up. It does not reproduce
  float-to-decimal conversion for values that are not exactly representable.
- Text.Lower: lower-cases ASCII letters only. Python's `str.lower` also maps
  other alphabets, because it follows Unicode case mappings.
- Engine.ResolvePatient: an empty details dict and absent details are both
  `None`. Python treats both as falsy, so this is equivalent.
- Engine.FromData: does not model a `urgency_level` key that is present but
  `None`. Python raises a TypeError there, in the score loop. The model reads
  a missing or `None` urgency as the default 3.
- Engine.Evaluate: does not model a donor with a missing `age` or a nullable
  `availability_status` beyond true/false. The registry declares age
  non-nullable.
- Database.Match: the `distance_km` float column holds the engine's integer
  approximations (0, 100, 300 km or unknown), so it is `Option<nat>`.
- Engine.MatchingEngine.FindMatches: takes `maxResults` and `radiusKm` as
  explicit parameters. The source's default arguments (`max_results=20`,
  `search_radius_km=500`, matching_engine.py:31) are not modelled, because
  Dafny methods have no default arguments. `RadiusAgainstTiers` shows that the
  default radius never drops a donor.
- Numbers like the search radius are reals. Non-positive radii are not
  excluded. A zero radius with a non-zero distance drops the donor before any
  division. Integer width is irrelevant: Python integers are unbounded.
