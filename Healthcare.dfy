/** The coordinator and its four handlers around the in-memory registries.
    The external text-completion service is not called here: each call's
    outcome is a parameter (a Completion, or the classifier's parsed reply),
    and the clock reading `now` is a parameter too. */
module Healthcare {

  import opened Wrappers
  import opened Clock
  import opened Records
  import opened Evaluator
  import opened Routing
  import opened Store
  import opened Text

  /** The classifier's reply: the parsed `agent_type` and `parameters`, or
      the fault raised by the service call, by the JSON parse or by a
      missing key. */
  datatype Classification = Classified(agentType: string, parameters: Params) | Unclassified(error: string)

  /** The reply and the appointment table after the appointment handler
      has taken `action`; `consultation` is the service's answer, used only
      by the consultation. */
  function PerformAppointmentAction(action: AppointmentAction, t: Table, parameters: Params, now: Instant,
                                    consultation: Completion): (r: (Response, Table))
    ensures action == ScheduleNew ==>
              r == (AppointmentScheduled(NewAppointment(parameters, now)), Schedule(t, parameters, now).1)
    ensures action == RescheduleExisting ==> r == Reschedule(t, parameters.appointmentId, now)
    ensures action == CancelExisting ==> r == Cancel(t, parameters.appointmentId)
    ensures action == SchedulingConsultation ==>
              r == (if consultation.Answer? then AppointmentConsultation(consultation.text)
                    else Error(consultation.error), t)
    ensures r.0.Outcome() == Failed ==> r.1 == t
  {
    match action
    case ScheduleNew =>
      var (a, t') := Schedule(t, parameters, now);
      (AppointmentScheduled(a), t')
    case RescheduleExisting => Reschedule(t, parameters.appointmentId, now)
    case CancelExisting => Cancel(t, parameters.appointmentId)
    case SchedulingConsultation =>
      match consultation
      case Answer(text) => (AppointmentConsultation(text), t)
      case Fault(e) => (Error(e), t)
  }

  /** The appointment handler as the source runs it: "schedule" is tested
      first, so every request that mentions it, "reschedule" included,
      books a new appointment, and the table is only ever extended by a
      booking or changed by a cancellation. */
  function AppointmentHandling(t: Table, request: string, parameters: Params, now: Instant,
                               consultation: Completion): (r: (Response, Table))
    ensures Contains(Lower(request), "schedule") ==>
              r == (AppointmentScheduled(NewAppointment(parameters, now)), Schedule(t, parameters, now).1)
    ensures AppointmentActionAsWritten(request) == CancelExisting ==> r == Cancel(t, parameters.appointmentId)
    ensures AppointmentActionAsWritten(request) == SchedulingConsultation ==>
              r == (if consultation.Answer? then AppointmentConsultation(consultation.text)
                    else Error(consultation.error), t)
    ensures r.1 == t || r.1 == Schedule(t, parameters, now).1 || r.1 == Cancel(t, parameters.appointmentId).1
    ensures r.0.Outcome() == Failed ==> r.1 == t
  {
    RescheduleUnreachableAsWritten(request);
    PerformAppointmentAction(AppointmentActionAsWritten(request), t, parameters, now, consultation)
  }

  /** The appointment handler with "reschedule" tested before "schedule"
      (see Routing.AppointmentActionFor): a request that mentions
      rescheduling moves the appointment it names. */
  function AppointmentHandlingCorrected(t: Table, request: string, parameters: Params, now: Instant,
                                        consultation: Completion): (r: (Response, Table))
    ensures Contains(Lower(request), "reschedule") ==> r == Reschedule(t, parameters.appointmentId, now)
    ensures Contains(Lower(request), "schedule") && !Contains(Lower(request), "reschedule") ==>
              r == (AppointmentScheduled(NewAppointment(parameters, now)), Schedule(t, parameters, now).1)
    ensures AppointmentActionFor(request) == CancelExisting ==> r == Cancel(t, parameters.appointmentId)
    ensures r.0.Outcome() == Failed ==> r.1 == t
  {
    PerformAppointmentAction(AppointmentActionFor(request), t, parameters, now, consultation)
  }

  /** The correction changes the reply for exactly the requests that
      mention "reschedule", and for no other request changes anything. */
  lemma AppointmentHandlingCorrectionOnlyOnReschedule(t: Table, request: string, parameters: Params,
                                                      now: Instant, consultation: Completion)
    ensures AppointmentHandlingCorrected(t, request, parameters, now, consultation).0
              != AppointmentHandling(t, request, parameters, now, consultation).0
            <==> Contains(Lower(request), "reschedule")
    ensures !Contains(Lower(request), "reschedule") ==>
              AppointmentHandlingCorrected(t, request, parameters, now, consultation)
              == AppointmentHandling(t, request, parameters, now, consultation)
  {
    AppointmentActionDiffersOnlyOnReschedule(request);
    if Contains(Lower(request), "reschedule") {
      RescheduleRequestSchedulesAsWritten(request);
    }
  }

  /** Scheduling and cancelling never wait on the service: outside the
      consultation branch the outcome is the same whatever the service
      would have answered. */
  lemma StoreActionsIgnoreService(t: Table, request: string, parameters: Params, now: Instant,
                                  c: Completion, c': Completion)
    requires AppointmentActionAsWritten(request) != SchedulingConsultation
    ensures AppointmentHandling(t, request, parameters, now, c) == AppointmentHandling(t, request, parameters, now, c')
  {
  }

  /** The drug-discovery handler. It always asks the service for an
      analysis first, so a service fault fails every request, the keyword
      ones included. */
  function DrugDiscoveryAgent(request: string, parameters: Params, analysis: Completion): (r: Response)
    ensures analysis.Fault? ==> r == Error(analysis.error)
    ensures analysis.Answer? ==> r.Outcome() == Success
    ensures r.CompoundAnalysis? <==> analysis.Answer? && DrugActionFor(request) == AnalyzeCompound
    ensures r.CompoundAnalysis? ==> r.candidates == AnalyzeDrugCandidates(parameters)
    ensures r.TreatmentRecommendation? <==> analysis.Answer? && DrugActionFor(request) == RecommendTreatment
    ensures r.TreatmentRecommendation? ==> r.plan == GenerateTreatmentRecommendation(parameters)
    ensures analysis.Answer? ==>
              (r.CompoundAnalysis? || r.TreatmentRecommendation? || r.DrugDiscoveryConsultation?) &&
              r.analysis == analysis.text
    ensures analysis.Answer? && DrugActionFor(request) == DrugConsultation ==>
              r == DrugDiscoveryConsultation(analysis.text)
  {
    match analysis
    case Fault(e) => Error(e)
    case Answer(text) =>
      match DrugActionFor(request)
      case AnalyzeCompound => CompoundAnalysis(AnalyzeDrugCandidates(parameters), text)
      case RecommendTreatment => TreatmentRecommendation(GenerateTreatmentRecommendation(parameters), text)
      case DrugConsultation => DrugDiscoveryConsultation(text)
  }

  /** What the patient-monitoring handler answers: the alerts of the
      vital-sign rules for "monitor patient", the risk analysis for "risk
      assessment", otherwise the service's analysis or its fault. */
  predicate MonitoringReply(request: string, parameters: Params, now: Instant, analysis: Completion, r: Response) {
    match MonitoringActionFor(request)
    case MonitorVitals => r.PatientMonitoring? && ReportsReadings(parameters, now, r.alerts)
    case AssessRisk => r == RiskAssessment(AssessPatientRisk(parameters))
    case MonitoringConsultation =>
      r == if analysis.Answer? then MonitoringAnalysis(analysis.text) else Error(analysis.error)
  }

  /** The patient-monitoring handler. */
  method PatientMonitoringAgent(request: string, parameters: Params, now: Instant, analysis: Completion)
    returns (r: Response)
    ensures MonitoringReply(request, parameters, now, analysis, r)
    ensures r.Outcome() == Failed <==> MonitoringActionFor(request) == MonitoringConsultation && analysis.Fault?
  {
    match MonitoringActionFor(request)
    case MonitorVitals =>
      var alerts := MonitorPatientVitals(parameters, now);
      r := PatientMonitoring(alerts);
    case AssessRisk =>
      r := RiskAssessment(AssessPatientRisk(parameters));
    case MonitoringConsultation =>
      match analysis
      case Answer(text) => r := MonitoringAnalysis(text);
      case Fault(e) => r := Error(e);
  }

  /** The general handler passes the service's answer through. */
  function GeneralHealthcareAgent(request: string, answer: Completion): (r: Response)
    ensures r.Outcome() == Success <==> answer.Answer?
    ensures answer.Answer? ==> r == GeneralConsultation(answer.text)
    ensures answer.Fault? ==> r == Error(answer.error)
  {
    match answer
    case Answer(text) => GeneralConsultation(text)
    case Fault(e) => Error(e)
  }

  /** Whether the handler chosen for `agent` asks the service about
      `request`. */
  predicate CallsService(handler: Handler, request: string) {
    match handler
    case AppointmentHandler => AppointmentActionAsWritten(request) == SchedulingConsultation
    case DrugDiscoveryHandler => true
    case MonitoringHandler => MonitoringActionFor(request) == MonitoringConsultation
    case GeneralHandler => true
  }

  class HealthcareAI {
    var patients: map<string, Patient>
    var appointments: Table
    /** Read by GetAlerts; no operation of the system appends to it. */
    var alerts: seq<PatientAlert>

    /** The class invariant: both registries are keyed by the ids of the
        records they hold, and the appointment table is well formed. Every
        operation establishes or keeps it (see `Store.WellFormedPreserved`);
        no operation's reply depends on it. */
    ghost predicate Valid()
      reads this
    {
      (forall id | id in patients :: patients[id].id == id) && WellFormed(appointments)
    }

    constructor ()
      ensures Valid()
      ensures patients == map[] && appointments == map[] && alerts == []
    {
      patients := map[];
      appointments := map[];
      alerts := [];
    }

    /** Insert or overwrite the patient under its id. */
    method AddPatient(patient: Patient)
      requires Valid()
      modifies this
      ensures Valid()
      ensures patients == old(patients)[patient.id := patient]
      ensures appointments == old(appointments) && alerts == old(alerts)
      ensures GetPatient(patient.id) == Some(patient)
      ensures forall id | id != patient.id :: GetPatient(id) == old(GetPatient(id))
    {
      patients := patients[patient.id := patient];
    }

    /** The patient stored under `patientId`, or None. */
    function GetPatient(patientId: string): (r: Option<Patient>)
      reads this
      ensures r.Some? <==> patientId in patients
      ensures r.Some? ==> r.value == patients[patientId] && r.value in patients.Values
    {
      if patientId in patients then Some(patients[patientId]) else None
    }

    /** One patient's alerts in recorded order when `patientId` is a
        non-empty string; every alert otherwise. */
    function GetAlerts(patientId: Option<string>): (r: seq<PatientAlert>)
      reads this
      ensures patientId.None? || patientId.value == "" ==> r == alerts
      ensures patientId.Some? && patientId.value != "" ==>
                r == AlertsFor(alerts, patientId.value) && SubsequenceOf(r, alerts) &&
                (forall a | a in r :: a.patientId == patientId.value) &&
                (forall a | a in alerts && a.patientId == patientId.value :: a in r)
    {
      if patientId.Some? && patientId.value != "" then
        AlertsForIsSubsequence(alerts, patientId.value);
        AlertsFor(alerts, patientId.value)
      else
        alerts
    }

    /** Book an appointment one week after `now` under the id stamped with
        `now`; nothing is stored when that date is out of range. */
    method ScheduleAppointment(parameters: Params, now: Instant) returns (appointment: Option<Appointment>)
      requires Valid()
      modifies this
      ensures Valid()
      ensures (appointment, appointments) == Schedule(old(appointments), parameters, now)
      ensures patients == old(patients) && alerts == old(alerts)
    {
      appointment := NewAppointment(parameters, now);
      if appointment.Some? {
        appointments := appointments[appointment.value.id := appointment.value];
      }
    }

    /** Move a known appointment to two weeks after `now`. The out-of-range
        error is what the appointment handler's `except` makes of the
        OverflowError raised here. */
    method RescheduleAppointment(parameters: Params, now: Instant) returns (r: Response)
      requires Valid()
      modifies this
      ensures Valid()
      ensures (r, appointments) == Reschedule(old(appointments), parameters.appointmentId, now)
      ensures patients == old(patients) && alerts == old(alerts)
    {
      var id := parameters.appointmentId;
      if id.Some? && id.value in appointments {
        match AddDays(now, RescheduleLeadDays)
        case None =>
          r := Error("date value out of range");
        case Some(when) =>
          appointments := appointments[id.value := appointments[id.value].(datetime := when)];
          r := StoreReply("Appointment rescheduled successfully", Success);
      } else {
        r := NotFoundReply;
      }
    }

    /** Mark a known appointment cancelled. */
    method CancelAppointment(parameters: Params) returns (r: Response)
      requires Valid()
      modifies this
      ensures Valid()
      ensures (r, appointments) == Cancel(old(appointments), parameters.appointmentId)
      ensures patients == old(patients) && alerts == old(alerts)
    {
      var id := parameters.appointmentId;
      if id.Some? && id.value in appointments {
        appointments := appointments[id.value := appointments[id.value].(status := StatusCancelled)];
        r := StoreReply("Appointment cancelled successfully", Success);
      } else {
        r := NotFoundReply;
      }
    }

    /** The appointment handler, testing the keywords in the order the
        source tests them. */
    method AppointmentAgent(request: string, parameters: Params, now: Instant, consultation: Completion)
      returns (r: Response)
      requires Valid()
      modifies this
      ensures Valid()
      ensures (r, appointments) == AppointmentHandling(old(appointments), request, parameters, now, consultation)
      ensures patients == old(patients) && alerts == old(alerts)
    {
      var text := Lower(request);
      if Contains(text, "schedule") {
        var appointment := ScheduleAppointment(parameters, now);
        r := AppointmentScheduled(appointment);
      } else if Contains(text, "reschedule") {
        r := RescheduleAppointment(parameters, now);
      } else if Contains(text, "cancel") {
        r := CancelAppointment(parameters);
      } else {
        match consultation
        case Answer(answer) => r := AppointmentConsultation(answer);
        case Fault(e) => r := Error(e);
      }
    }

    /** Classify, then dispatch on `agent_type`. `answer` is the outcome of
        the service call the chosen handler makes, if it makes one. */
    method ProcessRequest(request: string, classification: Classification, now: Instant, answer: Completion)
      returns (r: Response)
      requires Valid()
      modifies this
      ensures Valid()
      ensures patients == old(patients) && alerts == old(alerts)
      ensures classification.Unclassified? ==> r == Error(classification.error) && appointments == old(appointments)
      ensures classification.Classified? && HandlerFor(classification.agentType) == AppointmentHandler ==>
                (r, appointments) ==
                AppointmentHandling(old(appointments), request, classification.parameters, now, answer)
      ensures classification.Classified? && HandlerFor(classification.agentType) != AppointmentHandler ==>
                appointments == old(appointments)
      ensures classification.Classified? && HandlerFor(classification.agentType) == DrugDiscoveryHandler ==>
                r == DrugDiscoveryAgent(request, classification.parameters, answer)
      ensures classification.Classified? && HandlerFor(classification.agentType) == MonitoringHandler ==>
                MonitoringReply(request, classification.parameters, now, answer, r)
      ensures classification.Classified? && HandlerFor(classification.agentType) == GeneralHandler ==>
                r == GeneralHealthcareAgent(request, answer)
      ensures (classification.Classified? && CallsService(HandlerFor(classification.agentType), request) &&
               answer.Fault?) ==> r == Error(answer.error)
    {
      match classification
      case Unclassified(e) =>
        r := Error(e);
      case Classified(agentType, parameters) =>
        match HandlerFor(agentType)
        case AppointmentHandler =>
          r := AppointmentAgent(request, parameters, now, answer);
        case DrugDiscoveryHandler =>
          r := DrugDiscoveryAgent(request, parameters, answer);
        case MonitoringHandler =>
          r := PatientMonitoringAgent(request, parameters, now, answer);
        case GeneralHandler =>
          r := GeneralHealthcareAgent(request, answer);
    }
  }
}
