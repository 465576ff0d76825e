/** The appointment table and the alert list as values: what scheduling,
    rescheduling, cancelling and alert filtering do to them. The class
    HealthcareAI performs these updates in place; these functions are their
    specifications, and the lemmas below are what the system promises about
    sequences of such updates. */
module Store {

  import opened Wrappers
  import opened Clock
  import opened Records

  type Table = map<string, Appointment>

  const ScheduleLeadDays: nat := 7
  const RescheduleLeadDays: nat := 14

  /** `f"apt_{now.strftime('%Y%m%d_%H%M%S')}"` */
  function AppointmentId(now: Instant): (r: string)
    ensures |r| == 19 && r[..4] == "apt_" && r[4..] == Stamp(now)
  {
    "apt_" + Stamp(now)
  }

  /** Bookings get the same id exactly when they are made in the same
      second. */
  lemma AppointmentIdInjective(a: Instant, b: Instant)
    ensures AppointmentId(a) == AppointmentId(b) <==> a == b
  {
    if AppointmentId(a) == AppointmentId(b) {
      assert AppointmentId(a)[4..] == AppointmentId(b)[4..];
      StampInjective(a, b);
    }
  }

  /** The appointment booked at `now`, one week ahead, or None when that
      date lies past the year 9999 (Python raises, and the scheduler turns
      the exception into None). */
  function NewAppointment(parameters: Params, now: Instant): (r: Option<Appointment>)
    ensures r.None? <==> AddDays(now, ScheduleLeadDays).None?
    ensures r.Some? ==> r.value.id == AppointmentId(now)
    ensures r.Some? ==> r.value.status == StatusScheduled && r.value.notes.None?
    ensures r.Some? ==> r.value.datetime == now + ScheduleLeadDays * SecondsPerDay
    ensures r.Some? ==> r.value.patientId == parameters.patientId.GetOr("unknown")
    ensures r.Some? ==> r.value.doctorId == parameters.doctorId.GetOr("available")
    ensures r.Some? ==> r.value.kind == parameters.appointmentType.GetOr("consultation")
  {
    match AddDays(now, ScheduleLeadDays)
    case None => None
    case Some(when) =>
      Some(Appointment(AppointmentId(now),
                       parameters.patientId.GetOr("unknown"),
                       parameters.doctorId.GetOr("available"),
                       when,
                       parameters.appointmentType.GetOr("consultation"),
                       StatusScheduled,
                       None))
  }

  /** The booked appointment and the table afterwards: the new record under
      its id (replacing one booked in the same second), every other entry as
      it was. */
  function Schedule(t: Table, parameters: Params, now: Instant): (r: (Option<Appointment>, Table))
    ensures r.0 == NewAppointment(parameters, now)
    ensures r.0.None? ==> r.1 == t
    ensures r.0.Some? ==> r.1.Keys == t.Keys + {AppointmentId(now)}
    ensures r.0.Some? ==> r.1[AppointmentId(now)] == r.0.value
    ensures forall k | k in t && k != AppointmentId(now) :: k in r.1 && r.1[k] == t[k]
  {
    match NewAppointment(parameters, now)
    case None => (None, t)
    case Some(a) => (Some(a), t[a.id := a])
  }

  /** The reply and the table after a reschedule request: an unknown or
      missing id fails with "Appointment not found" and changes nothing; a
      known one gets the date two weeks after `now`, and nothing else
      changes; a date past the year 9999 is an error and changes nothing. */
  function Reschedule(t: Table, appointmentId: Option<string>, now: Instant): (r: (Response, Table))
    ensures appointmentId.None? || appointmentId.value !in t ==> r == (NotFoundReply, t)
    ensures r.0.Error? <==>
              appointmentId.Some? && appointmentId.value in t && AddDays(now, RescheduleLeadDays).None?
    ensures r.0.Error? ==> r.1 == t
    ensures appointmentId.Some? && appointmentId.value in t && AddDays(now, RescheduleLeadDays).Some? ==>
              r.0 == StoreReply("Appointment rescheduled successfully", Success)
    ensures r.0.Outcome() == Success <==> r.0 == StoreReply("Appointment rescheduled successfully", Success)
    ensures r.0.Outcome() == Success ==>
              var id := appointmentId.value;
              && r.1.Keys == t.Keys
              && r.1[id] == t[id].(datetime := now + RescheduleLeadDays * SecondsPerDay)
    ensures forall k | k in t && Some(k) != appointmentId :: k in r.1 && r.1[k] == t[k]
  {
    if appointmentId.None? || appointmentId.value !in t then
      (NotFoundReply, t)
    else
      match AddDays(now, RescheduleLeadDays)
      case None => (Error("date value out of range"), t)
      case Some(when) =>
        var id := appointmentId.value;
        (StoreReply("Appointment rescheduled successfully", Success), t[id := t[id].(datetime := when)])
  }

  /** The reply and the table after a cancel request: an unknown or missing
      id fails with "Appointment not found" and changes nothing; a known one
      gets status "cancelled", and nothing else changes. */
  function Cancel(t: Table, appointmentId: Option<string>): (r: (Response, Table))
    ensures appointmentId.None? || appointmentId.value !in t ==> r == (NotFoundReply, t)
    ensures appointmentId.Some? && appointmentId.value in t ==>
              var id := appointmentId.value;
              && r.0 == StoreReply("Appointment cancelled successfully", Success)
              && r.1.Keys == t.Keys
              && r.1[id] == t[id].(status := StatusCancelled)
    ensures forall k | k in t && Some(k) != appointmentId :: k in r.1 && r.1[k] == t[k]
  {
    if appointmentId.None? || appointmentId.value !in t then
      (NotFoundReply, t)
    else
      var id := appointmentId.value;
      (StoreReply("Appointment cancelled successfully", Success), t[id := t[id].(status := StatusCancelled)])
  }

  /** Cancelling twice is cancelling once: the second cancel succeeds again
      and leaves the table as the first left it. */
  lemma CancelIdempotent(t: Table, appointmentId: Option<string>)
    ensures Cancel(Cancel(t, appointmentId).1, appointmentId) == Cancel(t, appointmentId)
  {
    if appointmentId.Some? && appointmentId.value in t {
      var id, once := appointmentId.value, Cancel(t, appointmentId).1;
      assert once[id].(status := StatusCancelled) == once[id];
      assert once[id := once[id]] == once;
    }
  }

  /** Two bookings in the same second share an id: the second replaces the
      first, so the table is as if only the second had been made. */
  lemma ScheduleSameSecondOverwrites(t: Table, p: Params, q: Params, now: Instant)
    ensures Schedule(Schedule(t, p, now).1, q, now).1 == Schedule(t, q, now).1
  {
  }

  /** A booking made in an earlier second survives every later booking:
      only a booking in the same second can replace it. */
  lemma ScheduleKeepsOtherSeconds(t: Table, p: Params, q: Params, earlier: Instant, now: Instant)
    requires earlier != now
    requires earlier + ScheduleLeadDays * SecondsPerDay <= MaxInstant
    ensures var (a, t1) := Schedule(t, p, earlier);
            var t2 := Schedule(t1, q, now).1;
            a.value.id in t2 && t2[a.value.id] == a.value
  {
    AppointmentIdInjective(earlier, now);
  }

  /** A booked appointment can be found, one week ahead, with status
      "scheduled"; cancelling it by the returned id then succeeds and leaves
      it "cancelled". */
  lemma ScheduleThenCancel(t: Table, p: Params, now: Instant)
    requires now + ScheduleLeadDays * SecondsPerDay <= MaxInstant
    ensures var (a, t') := Schedule(t, p, now);
            && a.value.id in t'
            && t'[a.value.id].status == StatusScheduled
            && t'[a.value.id].datetime > now
            && Cancel(t', Some(a.value.id)).0.Outcome() == Success
            && Cancel(t', Some(a.value.id)).1[a.value.id].status == StatusCancelled
  {
  }

  /** Rescheduling and cancelling touch different fields, so their order
      does not matter. */
  lemma RescheduleCancelCommute(t: Table, appointmentId: Option<string>, now: Instant)
    ensures Cancel(Reschedule(t, appointmentId, now).1, appointmentId).1
         == Reschedule(Cancel(t, appointmentId).1, appointmentId, now).1
  {
  }

  /** Every appointment is stored under its own id, and its status is one
      of the two this code ever writes ("rescheduled" is never written). */
  ghost predicate WellFormed(t: Table) {
    forall k | k in t :: t[k].id == k && (t[k].status == StatusScheduled || t[k].status == StatusCancelled)
  }

  lemma WellFormedPreserved(t: Table, p: Params, appointmentId: Option<string>, now: Instant)
    requires WellFormed(t)
    ensures WellFormed(Schedule(t, p, now).1)
    ensures WellFormed(Reschedule(t, appointmentId, now).1)
    ensures WellFormed(Cancel(t, appointmentId).1)
  {
  }

  /** `[a for a in alerts if a.patient_id == patientId]` */
  function AlertsFor(alerts: seq<PatientAlert>, patientId: string): (r: seq<PatientAlert>)
    ensures |r| <= |alerts|
    ensures forall a | a in r :: a in alerts && a.patientId == patientId
    ensures forall a | a in alerts && a.patientId == patientId :: a in r
  {
    if alerts == [] then []
    else if alerts[0].patientId == patientId then [alerts[0]] + AlertsFor(alerts[1..], patientId)
    else AlertsFor(alerts[1..], patientId)
  }

  /** `sub` is `s` with some elements left out, in the same order. */
  predicate SubsequenceOf<T(==)>(sub: seq<T>, s: seq<T>) {
    if sub == [] then true
    else if s == [] then false
    else (sub[0] == s[0] && SubsequenceOf(sub[1..], s[1..])) || SubsequenceOf(sub, s[1..])
  }

  /** Filtering keeps the alerts in the order they were recorded. */
  lemma {:induction false} AlertsForIsSubsequence(alerts: seq<PatientAlert>, patientId: string)
    ensures SubsequenceOf(AlertsFor(alerts, patientId), alerts)
  {
    if alerts != [] {
      AlertsForIsSubsequence(alerts[1..], patientId);
      var rest := AlertsFor(alerts[1..], patientId);
      if alerts[0].patientId == patientId {
        assert ([alerts[0]] + rest)[1..] == rest;
      }
    }
  }

  /** Alerts recorded later come after alerts recorded earlier in every
      patient's view. */
  lemma {:induction false} AlertsForAppend(a: seq<PatientAlert>, b: seq<PatientAlert>, patientId: string)
    ensures AlertsFor(a + b, patientId) == AlertsFor(a, patientId) + AlertsFor(b, patientId)
  {
    if a != [] {
      assert (a + b)[1..] == a[1..] + b;
      AlertsForAppend(a[1..], b, patientId);
    } else {
      assert a + b == b;
    }
  }

  /** A list holding only one patient's alerts is its own view. */
  lemma {:induction false} AlertsForAllMatch(alerts: seq<PatientAlert>, patientId: string)
    requires forall i | 0 <= i < |alerts| :: alerts[i].patientId == patientId
    ensures AlertsFor(alerts, patientId) == alerts
  {
    if alerts != [] {
      AlertsForAllMatch(alerts[1..], patientId);
    }
  }
}
