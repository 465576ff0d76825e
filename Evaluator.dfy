/** The deterministic evaluators behind the monitoring and drug-discovery
    handlers: the vital-sign alert rules, the linear risk score and the two
    fixed drug-discovery payloads. None of them touches the stores. */
module Evaluator {

  import opened Wrappers
  import opened Clock
  import opened Records

  // Vital-sign rules: a default stands in for an absent reading, and only a
  // reading strictly above its limit raises an alert.
  const HeartRateDefault: real := 70.0
  const HeartRateLimit: real := 100.0
  const SystolicDefault: real := 120.0
  const SystolicLimit: real := 140.0

  function HeartRate(parameters: Params): real {
    parameters.heartRate.GetOr(HeartRateDefault)
  }

  function Systolic(parameters: Params): real {
    parameters.bloodPressureSystolic.GetOr(SystolicDefault)
  }

  function AlertSubject(parameters: Params): string {
    parameters.patientId.GetOr("unknown")
  }

  function HeartRateAlert(patientId: string, now: Instant): PatientAlert {
    PatientAlert(patientId, "Vital Signs", Medium, "Elevated heart rate detected", now,
                 "Monitor closely, consider cardiology consultation")
  }

  function BloodPressureAlert(patientId: string, now: Instant): PatientAlert {
    PatientAlert(patientId, "Blood Pressure", High, "Hypertension detected", now,
                 "Immediate medical evaluation required")
  }

  /** What the vital-sign rules promise of the alerts for one set of
      readings: one alert per exceeded limit, the heart-rate alert (heart rate
      above 100) first and the blood-pressure alert (systolic pressure above
      140) last, all for the parameters' patient (or "unknown") and stamped
      with the time of the reading. */
  predicate ReportsReadings(parameters: Params, now: Instant, alerts: seq<PatientAlert>) {
    && |alerts| == (if HeartRate(parameters) > HeartRateLimit then 1 else 0)
                   + (if Systolic(parameters) > SystolicLimit then 1 else 0)
    && (HeartRate(parameters) > HeartRateLimit ==>
          alerts[0] == HeartRateAlert(AlertSubject(parameters), now))
    && (Systolic(parameters) > SystolicLimit ==>
          alerts[|alerts| - 1] == BloodPressureAlert(AlertSubject(parameters), now))
    && (forall a | a in alerts :: a.patientId == AlertSubject(parameters) && a.timestamp == now)
  }

  /** The promise fixes the alerts completely. */
  lemma ReportsReadingsUnique(parameters: Params, now: Instant, a: seq<PatientAlert>, b: seq<PatientAlert>)
    requires ReportsReadings(parameters, now, a) && ReportsReadings(parameters, now, b)
    ensures a == b
  {
    if |a| == 2 {
      assert a == [a[0], a[1]] && b == [b[0], b[1]];
    }
  }

  /** The vital-sign rules, checked in the order the source checks them. */
  method MonitorPatientVitals(parameters: Params, now: Instant) returns (alerts: seq<PatientAlert>)
    ensures ReportsReadings(parameters, now, alerts)
  {
    alerts := [];
    if HeartRate(parameters) > HeartRateLimit {
      alerts := alerts + [HeartRateAlert(AlertSubject(parameters), now)];
    }
    if Systolic(parameters) > SystolicLimit {
      alerts := alerts + [BloodPressureAlert(AlertSubject(parameters), now)];
    }
  }

  const RiskRecommendations: seq<string> :=
    ["Regular monitoring", "Lifestyle modifications", "Preventive care protocols"]

  function RiskFactors(parameters: Params): seq<string> {
    parameters.riskFactors.GetOr([])
  }

  function Age(parameters: Params): int {
    parameters.age.GetOr(50)
  }

  /** The risk score `2 * len(risk_factors) + 0.1 * (age - 50)` in exact
      tenths, and its tier on the half-open intervals [.., 5), [5, 10),
      [10, ..). */
  function AssessPatientRisk(parameters: Params): (r: RiskAnalysis)
    ensures r.Score() == 2.0 * |RiskFactors(parameters)| as real + 0.1 * (Age(parameters) - 50) as real
    ensures r.level == LowRisk <==> r.Score() < 5.0
    ensures r.level == MediumRisk <==> 5.0 <= r.Score() < 10.0
    ensures r.level == HighRisk <==> 10.0 <= r.Score()
    ensures r.level.Label() == "low" <==> r.Score() < 5.0
    ensures r.level.Label() == "medium" <==> 5.0 <= r.Score() < 10.0
    ensures r.level.Label() == "high" <==> 10.0 <= r.Score()
    ensures r.contributingFactors == RiskFactors(parameters)
    ensures r.recommendations == RiskRecommendations
  {
    var tenths := 20 * |RiskFactors(parameters)| + Age(parameters) - 50;
    var level := if tenths < 50 then LowRisk else if tenths < 100 then MediumRisk else HighRisk;
    RiskAnalysis(tenths, level, RiskFactors(parameters), RiskRecommendations)
  }

  /** Each further risk factor, and each further year of age, can only keep
      or raise the risk tier. */
  lemma RiskTierMonotone(p: Params, q: Params)
    requires |RiskFactors(p)| <= |RiskFactors(q)|
    requires Age(p) <= Age(q)
    ensures AssessPatientRisk(p).level.Rank() <= AssessPatientRisk(q).level.Rank()
  {
    var rp, rq := AssessPatientRisk(p), AssessPatientRisk(q);
    assert rp.scoreTenths <= rq.scoreTenths;
  }

  /** Two risk factors at age 60 score exactly 5, which is already
      "medium"; no factors at the default age score 0, "low". */
  lemma RiskExamples()
    ensures var r := AssessPatientRisk(NoParams.(riskFactors := Some(["a", "b"]), age := Some(60)));
            r.Score() == 5.0 && r.level == MediumRisk
    ensures var r := AssessPatientRisk(NoParams);
            r.Score() == 0.0 && r.level == LowRisk
  {
  }

  /** The two drug candidates returned for every compound analysis, both
      aimed at the parameters' condition (or "Unknown"). */
  function AnalyzeDrugCandidates(parameters: Params): (r: seq<DrugCandidate>)
    ensures |r| == 2
    ensures r[0].name == "Compound-A123" && r[1].name == "BioMol-X456"
    ensures forall c | c in r :: c.targetDisease == parameters.condition.GetOr("Unknown")
    ensures forall c | c in r :: 0.0 <= c.safetyScore <= 10.0 && 0.0 <= c.efficacyScore <= 10.0
  {
    var disease := parameters.condition.GetOr("Unknown");
    [ DrugCandidate("Compound-A123", "Selective inhibitor", disease, 8.5, 7.2, "Phase II"),
      DrugCandidate("BioMol-X456", "Receptor agonist", disease, 7.8, 8.1, "Preclinical") ]
  }

  /** The fixed treatment plan, which takes only its contraindications from
      the parameters (none when absent). */
  function GenerateTreatmentRecommendation(parameters: Params): (r: TreatmentPlan)
    ensures r.contraindications == parameters.contraindications.GetOr([])
    ensures |r.alternativeOptions| == 2 && |r.monitoringRequirements| == 2
  {
    TreatmentPlan("Evidence-based therapy protocol",
                  ["Option A", "Option B"],
                  ["Weekly lab work", "Monthly check-ups"],
                  parameters.contraindications.GetOr([]),
                  "Positive response expected in 4-6 weeks")
  }

  /** The fixed payloads depend on the parameters only through the
      condition and the contraindications respectively. */
  lemma FixedPayloadsIgnoreOtherParameters(p: Params, q: Params)
    ensures p.condition == q.condition ==> AnalyzeDrugCandidates(p) == AnalyzeDrugCandidates(q)
    ensures p.contraindications == q.contraindications ==>
              GenerateTreatmentRecommendation(p) == GenerateTreatmentRecommendation(q)
  {
  }
}
