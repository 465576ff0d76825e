/** The routing decisions: the coordinator's choice of handler from the
    classifier's `agent_type`, and each handler's keyword tests on the
    lower-cased request text, each as an action. */
module Routing {

  import opened Text

  datatype Handler = AppointmentHandler | DrugDiscoveryHandler | MonitoringHandler | GeneralHandler

  /** The handler for a classifier `agent_type`; any other value, the
      "GENERAL_QUERY" the classifier is asked for included, falls through to
      the general handler. */
  function HandlerFor(agentType: string): (r: Handler)
    ensures r == AppointmentHandler <==> agentType == "APPOINTMENT_SCHEDULING"
    ensures r == DrugDiscoveryHandler <==> agentType == "DRUG_DISCOVERY"
    ensures r == MonitoringHandler <==> agentType == "PATIENT_MONITORING"
  {
    if agentType == "APPOINTMENT_SCHEDULING" then AppointmentHandler
    else if agentType == "DRUG_DISCOVERY" then DrugDiscoveryHandler
    else if agentType == "PATIENT_MONITORING" then MonitoringHandler
    else GeneralHandler
  }

  datatype AppointmentAction = ScheduleNew | RescheduleExisting | CancelExisting | SchedulingConsultation

  /** The appointment handler's keyword tests in the order they are written:
      "schedule", then "reschedule", then "cancel". */
  function AppointmentActionAsWritten(request: string): (r: AppointmentAction)
    ensures r == ScheduleNew <==> Contains(Lower(request), "schedule")
    ensures r == CancelExisting <==>
              !Contains(Lower(request), "schedule") && !Contains(Lower(request), "reschedule") &&
              Contains(Lower(request), "cancel")
  {
    var text := Lower(request);
    if Contains(text, "schedule") then ScheduleNew
    else if Contains(text, "reschedule") then RescheduleExisting
    else if Contains(text, "cancel") then CancelExisting
    else SchedulingConsultation
  }

  /** Every text that mentions "reschedule" mentions "schedule". */
  lemma {:induction false} RescheduleMentionsSchedule(text: string)
    requires Contains(text, "reschedule")
    ensures Contains(text, "schedule")
  {
    ContainsInfix(text, "reschedule", 2, 10);
    assert "reschedule"[2..10] == "schedule";
  }

  /** So a request that mentions rescheduling passes the first test and
      books a new appointment. */
  lemma RescheduleRequestSchedulesAsWritten(request: string)
    requires Contains(Lower(request), "reschedule")
    ensures AppointmentActionAsWritten(request) == ScheduleNew
  {
    RescheduleMentionsSchedule(Lower(request));
  }

  /** As written, the reschedule branch is dead: no request reaches it. */
  lemma RescheduleUnreachableAsWritten(request: string)
    ensures AppointmentActionAsWritten(request) != RescheduleExisting
  {
    if Contains(Lower(request), "reschedule") {
      RescheduleRequestSchedulesAsWritten(request);
    }
  }

  /** The appointment handler's keyword tests with "reschedule" tested
      before "schedule", so that each branch is reachable. */
  function AppointmentActionFor(request: string): (r: AppointmentAction)
    ensures r == RescheduleExisting <==> Contains(Lower(request), "reschedule")
    ensures r == ScheduleNew <==>
              Contains(Lower(request), "schedule") && !Contains(Lower(request), "reschedule")
    ensures r == CancelExisting <==>
              !Contains(Lower(request), "schedule") && Contains(Lower(request), "cancel")
  {
    var text := Lower(request);
    if Contains(text, "reschedule") then
      RescheduleMentionsSchedule(text);
      RescheduleExisting
    else if Contains(text, "schedule") then
      ScheduleNew
    else if Contains(text, "cancel") then
      assert !Contains(text, "reschedule");
      CancelExisting
    else
      SchedulingConsultation
  }

  /** The reordering changes the decision for exactly the requests that
      mention "reschedule". */
  lemma AppointmentActionDiffersOnlyOnReschedule(request: string)
    ensures AppointmentActionFor(request) != AppointmentActionAsWritten(request) <==>
              Contains(Lower(request), "reschedule")
  {
    if Contains(Lower(request), "reschedule") {
      RescheduleRequestSchedulesAsWritten(request);
    }
  }

  /** Any request with "reschedule" in it, whatever surrounds the word: as
      written it books a new appointment; in the corrected order it reaches
      the reschedule branch. */
  lemma RescheduleRequestExample(before: string, after: string)
    ensures AppointmentActionAsWritten(before + "reschedule" + after) == ScheduleNew
    ensures AppointmentActionFor(before + "reschedule" + after) == RescheduleExisting
  {
    ContainsLowerWord(before, "reschedule", after);
    RescheduleRequestSchedulesAsWritten(before + "reschedule" + after);
  }

  /** A request that opens with a capitalised "Schedule", whatever
      follows, books a new appointment. */
  lemma CapitalisedScheduleRequest(opening: string, rest: string)
    requires opening == "Schedule"
    ensures AppointmentActionAsWritten(opening + rest) == ScheduleNew
  {
    LowerAppend(opening, rest);
    LowerAscii(opening);
    assert Lower(opening) == "schedule";
    assert IsPrefix("schedule", Lower(opening + rest));
  }

  datatype DrugAction = AnalyzeCompound | RecommendTreatment | DrugConsultation

  /** "analyze compound" is tested before "treatment recommendation". */
  function DrugActionFor(request: string): (r: DrugAction)
    ensures r == AnalyzeCompound <==> Contains(Lower(request), "analyze compound")
    ensures r == RecommendTreatment <==>
              !Contains(Lower(request), "analyze compound") && Contains(Lower(request), "treatment recommendation")
  {
    var text := Lower(request);
    if Contains(text, "analyze compound") then AnalyzeCompound
    else if Contains(text, "treatment recommendation") then RecommendTreatment
    else DrugConsultation
  }

  datatype MonitoringAction = MonitorVitals | AssessRisk | MonitoringConsultation

  /** "monitor patient" is tested before "risk assessment". */
  function MonitoringActionFor(request: string): (r: MonitoringAction)
    ensures r == MonitorVitals <==> Contains(Lower(request), "monitor patient")
    ensures r == AssessRisk <==>
              !Contains(Lower(request), "monitor patient") && Contains(Lower(request), "risk assessment")
  {
    var text := Lower(request);
    if Contains(text, "monitor patient") then MonitorVitals
    else if Contains(text, "risk assessment") then AssessRisk
    else MonitoringConsultation
  }
}
