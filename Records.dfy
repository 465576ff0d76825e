/** The records of the healthcare system (patients, appointments, drug
    candidates, alerts), the parameters the request classifier extracts, and
    the tagged replies every handler returns. */
module Records {

  import opened Wrappers
  import opened Clock

  datatype Patient = Patient(
    id: string,
    name: string,
    age: int,
    medicalHistory: seq<string>,
    currentMedications: seq<string>,
    vitalSigns: map<string, real>,
    riskFactors: seq<string>)

  /** `type` is a keyword here, so the appointment's type is `kind`. */
  datatype Appointment = Appointment(
    id: string,
    patientId: string,
    doctorId: string,
    datetime: Instant,
    kind: string,
    status: string,
    notes: Option<string>)

  const StatusScheduled: string := "scheduled"
  const StatusCancelled: string := "cancelled"

  /** Scores are decimal constants on a 0-10 scale. */
  datatype DrugCandidate = DrugCandidate(
    name: string,
    mechanism: string,
    targetDisease: string,
    safetyScore: real,
    efficacyScore: real,
    developmentStage: string)

  datatype AlertLevel = Low | Medium | High | Critical

  datatype PatientAlert = PatientAlert(
    patientId: string,
    alertType: string,
    level: AlertLevel,
    message: string,
    timestamp: Instant,
    recommendedAction: string)

  /** The entries of the classifier's `parameters` dictionary that the core
      reads, each None when the key is absent. */
  datatype Params = Params(
    patientId: Option<string>,
    doctorId: Option<string>,
    appointmentType: Option<string>,
    appointmentId: Option<string>,
    condition: Option<string>,
    contraindications: Option<seq<string>>,
    heartRate: Option<real>,
    bloodPressureSystolic: Option<real>,
    riskFactors: Option<seq<string>>,
    age: Option<int>)

  const NoParams: Params := Params(None, None, None, None, None, None, None, None, None, None)

  datatype RiskLevel = LowRisk | MediumRisk | HighRisk {
    /** The `risk_level` string. */
    function Label(): string {
      match this
      case LowRisk => "low"
      case MediumRisk => "medium"
      case HighRisk => "high"
    }

    function Rank(): nat {
      match this
      case LowRisk => 0
      case MediumRisk => 1
      case HighRisk => 2
    }
  }

  /** The risk-assessment dictionary; the score is kept exactly, in tenths. */
  datatype RiskAnalysis = RiskAnalysis(
    scoreTenths: int,
    level: RiskLevel,
    contributingFactors: seq<string>,
    recommendations: seq<string>)
  {
    function Score(): real {
      scoreTenths as real / 10.0
    }
  }

  datatype TreatmentPlan = TreatmentPlan(
    primaryTreatment: string,
    alternativeOptions: seq<string>,
    monitoringRequirements: seq<string>,
    contraindications: seq<string>,
    expectedOutcomes: string)

  /** What one call of the external text-completion service gives back: the
      text of its first choice, or the fault it raised. */
  datatype Completion = Answer(text: string) | Fault(error: string)

  datatype Status = Success | Failed {
    /** The `status` string. */
    function Label(): string {
      if Success? then "success" else "failed"
    }
  }

  /** The dictionaries the handlers return, one variant per shape. */
  datatype Response =
    | AppointmentScheduled(appointment: Option<Appointment>)
    | StoreReply(message: string, status: Status)
    | AppointmentConsultation(recommendation: string)
    | CompoundAnalysis(candidates: seq<DrugCandidate>, analysis: string)
    | TreatmentRecommendation(plan: TreatmentPlan, analysis: string)
    | DrugDiscoveryConsultation(analysis: string)
    | PatientMonitoring(alerts: seq<PatientAlert>)
    | RiskAssessment(risk: RiskAnalysis)
    | MonitoringAnalysis(analysis: string)
    | GeneralConsultation(response: string)
    | Error(error: string)
  {
    /** The `status` entry: "failed" for the errors and the not-found
        replies, "success" for every other reply. */
    function Outcome(): (r: Status)
      ensures r == Failed <==> Error? || (StoreReply? && status == Failed)
      ensures r.Label() == "failed" <==> Error? || (StoreReply? && status == Failed)
    {
      match this
      case StoreReply(_, status) => status
      case Error(_) => Failed
      case _ => Success
    }

    /** The `action` entry, absent from the store replies and the errors;
        every reply that has one succeeds. */
    function Action(): (r: Option<string>)
      ensures r.None? <==> StoreReply? || Error?
      ensures r.Some? ==> Outcome() == Success
    {
      match this
      case AppointmentScheduled(_) => Some("appointment_scheduled")
      case AppointmentConsultation(_) => Some("appointment_consultation")
      case CompoundAnalysis(_, _) => Some("compound_analysis")
      case TreatmentRecommendation(_, _) => Some("treatment_recommendation")
      case DrugDiscoveryConsultation(_) => Some("drug_discovery_consultation")
      case PatientMonitoring(_) => Some("patient_monitoring")
      case RiskAssessment(_) => Some("risk_assessment")
      case MonitoringAnalysis(_) => Some("monitoring_analysis")
      case GeneralConsultation(_) => Some("general_consultation")
      case StoreReply(_, _) => None
      case Error(_) => None
    }

    /** The `message` entry, present only in the appointment-store replies. */
    function Message(): (r: Option<string>)
      ensures r.Some? <==> AppointmentScheduled? || StoreReply?
      ensures StoreReply? ==> r == Some(message)
    {
      match this
      case AppointmentScheduled(_) => Some("Appointment scheduled successfully")
      case StoreReply(message, _) => Some(message)
      case _ => None
    }
  }

  const NotFoundReply: Response := StoreReply("Appointment not found", Failed)
}
