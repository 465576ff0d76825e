# Healthcare request router: a Dafny model of its deterministic core

The Python system takes a free-text healthcare request, has an external
language model classify it into one of four agents (appointment
scheduling, drug discovery, patient monitoring, general query), and lets
that agent answer. This model covers everything the system decides itself:

- the in-memory registries of `HealthcareAI`: the patients dictionary, the
  appointments dictionary and the alert list (class `Healthcare.HealthcareAI`,
  with the table updates specified on values in module `Store`);
- scheduling, rescheduling and cancelling, including the clock-stamped
  appointment ids `apt_YYYYmmdd_HHMMSS` (module `Clock`) and the
  out-of-range dates Python refuses;
- the vital-sign alert rules, the linear risk score and the two fixed
  drug-discovery payloads (module `Evaluator`);
- the coordinator's dispatch on `agent_type` and every handler's keyword
  tests on the lower-cased request (module `Routing`, over the lower-casing
  and substring search of module `Text`);
- the replies each handler returns, success and failure alike (module
  `Records`, `Response`).

The external service is a parameter: the classifier's parsed reply is a
`Classification` (or the fault raised by the call, the JSON parse or a
missing key) and every other call's outcome is a `Completion` (an answer or
a fault). The clock reading `now` is a parameter too, in whole seconds
since 1970-01-01 00:00:00 local time.

Two facts about the code shape the model:

- The status "rescheduled" is never written: rescheduling only changes the
  date, and cancelling only sets "cancelled" (`Store.WellFormed`).
- There is no operation that records alerts: the vital-sign rules return
  their alerts without storing them, so the alert list is only ever read.
  The model has no recording operation, and every operation leaves the
  list unchanged.

## Model

| member | source | states |
|---|---|---|
| Records.Response.Outcome | healthcare_ai.py:145-350 | the `status` entry is "failed" exactly for the error replies and the "Appointment not found" replies |
| Records.Response.Action | healthcare_ai.py:145-311 | the `action` entry is absent exactly from the store replies and the errors, and every reply with one succeeds |
| Records.Response.Message | healthcare_ai.py:145-350 | the `message` entry is present exactly in the booking reply and the store replies, where it is the store's message |
| Text.Lower | healthcare_ai.py:145 | the lower-cased request contains no ASCII capital and is at least as long as the request; a single character lower-cases by the character mapping |
| Text.LowerAscii | healthcare_ai.py:145 | on ASCII text, lower-casing keeps the length, turns each capital A-Z into its small letter and leaves every other character alone |
| Text.ContainsAt | healthcare_ai.py:145 | `w in s` holds exactly when `w` occurs at some index of `s` |
| Clock.AddDays | healthcare_ai.py:326 | `now + timedelta(days)` is defined exactly when it stays within the year 9999, and then lies that many days after `now` |
| Clock.Stamp | healthcare_ai.py:323 | the `%Y%m%d_%H%M%S` stamp is 15 characters, all digits except the `_` at index 8 |
| Clock.CivilRoundTrip | healthcare_ai.py:323 | the date printed for a day converts back to that day, so distinct days print distinct dates |
| Clock.CivilYearBounds | healthcare_ai.py:323 | every day from 1970-01-01 to 9999-12-31 has a year of 1970..9999 |
| Clock.PadTwoDigits | healthcare_ai.py:323 | a number below 100 prints as its tens digit followed by its units digit |
| Clock.PadFourDigits | healthcare_ai.py:323 | a number below 10000 prints as its thousands, hundreds, tens and units digits |
| Clock.DaysInMonth | healthcare_ai.py:323 | a month has 28 to 31 days, and 29 exactly for February of a Gregorian leap year |
| Clock.LeapYearEras | healthcare_ai.py:323 | the Gregorian calendar repeats its leap years every 400 years |
| Clock.LeapDayOfEra | healthcare_ai.py:323 | within a 400-year era counted from March 1, a 366th day occurs only in years whose following February is a leap February |
| Clock.CivilDayInMonth | healthcare_ai.py:323 | every day converts to a real calendar date: the day never passes the length of its month, so February 29 appears only in leap years |
| Clock.StampSpellsNow | healthcare_ai.py:323 | the stamp's 15 characters are the digits of a year of 1970..9999, a month 1..12, a day within the length of its month, an hour, a minute and a second, with `_` between date and time, and that date and time of day add up to `now` |
| Clock.StampInjective | healthcare_ai.py:323 | two instants have the same stamp exactly when they are the same second |
| Store.AppointmentId | healthcare_ai.py:323 | an appointment id is `apt_` followed by the stamp of `now` |
| Store.AppointmentIdInjective | healthcare_ai.py:323 | two bookings get the same id exactly when they are made in the same second |
| Store.NewAppointment | healthcare_ai.py:322-329 | the new appointment carries the stamped id, status "scheduled", no notes, the date one week after `now`, and the defaults "unknown", "available", "consultation"; there is none when that date is out of range |
| Store.Schedule | healthcare_ai.py:319-334 | after scheduling the table holds the new appointment under its id (replacing one booked in the same second) and every other entry unchanged; when no appointment could be built the table is unchanged |
| Store.Reschedule | healthcare_ai.py:336-342 | a missing or unknown id gives "Appointment not found" with status failed and no change; a known id with an in-range new date always succeeds, gets the date two weeks after `now`, and nothing else changes; an out-of-range date is an error and changes nothing |
| Store.Cancel | healthcare_ai.py:344-350 | a missing or unknown id gives "Appointment not found" with status failed and no change; a known id gets status "cancelled" and nothing else changes |
| Store.CancelIdempotent | healthcare_ai.py:344-350 | cancelling twice gives the same reply and table as cancelling once |
| Store.ScheduleSameSecondOverwrites | healthcare_ai.py:323-330 | two bookings in the same second leave the table as if only the second had been made |
| Store.ScheduleKeepsOtherSeconds | healthcare_ai.py:323-330 | a booking made in one second is still stored, unchanged, after a booking in any other second |
| Store.ScheduleThenCancel | healthcare_ai.py:319-350 | when the date a week ahead is before the year 10000, a booked appointment is found under the returned id with status "scheduled" and a date after `now`, and cancelling it by that id succeeds and leaves it "cancelled" |
| Store.RescheduleCancelCommute | healthcare_ai.py:336-350 | rescheduling and cancelling the same id give the same table in either order |
| Store.WellFormedPreserved | healthcare_ai.py:319-350 | scheduling, rescheduling and cancelling keep every appointment under its own id with status "scheduled" or "cancelled" |
| Store.AlertsFor | healthcare_ai.py:443 | the filtered alerts are exactly the list's alerts for that patient |
| Store.AlertsForIsSubsequence | healthcare_ai.py:443 | the filtered alerts keep the order in which they were recorded |
| Store.AlertsForAppend | healthcare_ai.py:443 | filtering a list made of two parts gives the filtered parts one after the other |
| Store.AlertsForAllMatch | healthcare_ai.py:443 | a list holding only that patient's alerts is returned whole |
| Evaluator.MonitorPatientVitals | healthcare_ai.py:385-410 | the alerts satisfy `Evaluator.ReportsReadings`: one alert per exceeded limit (heart rate above 100, then systolic pressure above 140, absent readings defaulting to 70 and 120), the heart-rate alert first and the blood-pressure alert last, each for the parameters' patient or "unknown" and stamped `now`; none when both readings are within their limits |
| Evaluator.ReportsReadingsUnique | healthcare_ai.py:385-410 | that promise fixes the list of alerts completely |
| Evaluator.AssessPatientRisk | healthcare_ai.py:412-429 | the score is `2 * len(risk_factors) + 0.1 * (age - 50)` with defaults no factors and age 50; the tier is low below 5, medium from 5 below 10, high from 10, and its `risk_level` string is "low", "medium" or "high" under the same bounds; the factors are echoed and the three recommendations are fixed |
| Evaluator.RiskTierMonotone | healthcare_ai.py:417-418 | more risk factors or a higher age never lower the tier |
| Evaluator.RiskExamples | healthcare_ai.py:417-418 | two factors at age 60 score exactly 5, which is medium; no factors at the default age score 0, which is low |
| Evaluator.AnalyzeDrugCandidates | healthcare_ai.py:352-373 | exactly two candidates, Compound-A123 then BioMol-X456, both for the parameters' condition or "Unknown", with scores between 0 and 10 |
| Evaluator.GenerateTreatmentRecommendation | healthcare_ai.py:375-383 | the plan echoes the contraindications, none when absent, beside two alternative options and two monitoring requirements |
| Evaluator.FixedPayloadsIgnoreOtherParameters | healthcare_ai.py:352-383 | the candidates depend on the parameters only through the condition, the plan only through the contraindications |
| Routing.HandlerFor | healthcare_ai.py:115-122 | "APPOINTMENT_SCHEDULING", "DRUG_DISCOVERY" and "PATIENT_MONITORING" select their handlers and every other `agent_type` the general one |
| Routing.AppointmentActionAsWritten | healthcare_ai.py:145-159 | as written, any request whose lower-cased text contains "schedule" schedules, and cancelling happens only when it contains neither "schedule" nor "reschedule" but "cancel" |
| Routing.RescheduleMentionsSchedule | healthcare_ai.py:145-153 | every text containing "reschedule" contains "schedule" |
| Routing.RescheduleRequestSchedulesAsWritten | healthcare_ai.py:145-155 | as written, a request mentioning "reschedule" books a new appointment |
| Routing.RescheduleUnreachableAsWritten | healthcare_ai.py:153-155 | as written, no request reaches the reschedule branch |
| Routing.CapitalisedScheduleRequest | healthcare_ai.py:145-146 | a request opening with a capitalised "Schedule" books a new appointment whatever follows |
| Routing.RescheduleRequestExample | healthcare_ai.py:145-155 | any request with "reschedule" in it schedules as written and reschedules in the corrected order |
| Routing.AppointmentActionFor | healthcare_ai.py:145-159 | in the corrected order, a request reschedules exactly when it mentions "reschedule", schedules exactly when it mentions "schedule" but not "reschedule", and cancels exactly when it mentions "cancel" but not "schedule" |
| Routing.AppointmentActionDiffersOnlyOnReschedule | healthcare_ai.py:145-159 | the corrected order decides differently from the written one exactly on requests that mention "reschedule" |
| Routing.DrugActionFor | healthcare_ai.py:207-228 | "analyze compound" selects the compound analysis even when "treatment recommendation" is also present; the treatment plan is selected only without it |
| Routing.MonitoringActionFor | healthcare_ai.py:250-279 | "monitor patient" selects the vital-sign rules even when "risk assessment" is also present; the risk score is selected only without it |
| Healthcare.PerformAppointmentAction | healthcare_ai.py:145-175 | booking answers with the new appointment and leaves the table as `Store.Schedule` does; rescheduling and cancelling answer and update as `Store.Reschedule` and `Store.Cancel`; the consultation passes the service's answer or fault through and leaves the table alone; a failed reply never changes the table |
| Healthcare.AppointmentHandling | healthcare_ai.py:143-178 | as the source runs it, every request mentioning "schedule" (so every "reschedule" request too) books a new appointment; "cancel" without "schedule" cancels; otherwise the consultation; the table is only ever left alone, extended by a booking or changed by a cancellation, never rescheduled |
| Healthcare.AppointmentHandlingCorrected | healthcare_ai.py:145-155 | with "reschedule" tested first, a request mentioning it answers and updates as `Store.Reschedule`; one mentioning "schedule" but not "reschedule" books |
| Healthcare.AppointmentHandlingCorrectionOnlyOnReschedule | healthcare_ai.py:145-155 | the corrected handler's reply differs from the source's exactly for requests that mention "reschedule", and on all other requests reply and table are the same |
| Healthcare.StoreActionsIgnoreService | healthcare_ai.py:143-158 | outside the consultation branch the appointment handler's outcome does not depend on the service's answer |
| Healthcare.DrugDiscoveryAgent | healthcare_ai.py:195-232 | a service fault fails every drug-discovery request, the keyword ones included; otherwise the reply succeeds, carries the service's analysis text, and carries the candidates or the plan exactly when the keywords select them, or is the consultation with that text alone |
| Healthcare.PatientMonitoringAgent | healthcare_ai.py:248-283 | the reply is `Healthcare.MonitoringReply`: for "monitor patient" the alerts the vital-sign rules promise (`Evaluator.ReportsReadings`), for "risk assessment" the risk analysis, otherwise the service's analysis or its fault; it fails exactly when the consultation meets a service fault |
| Healthcare.GeneralHealthcareAgent | healthcare_ai.py:298-316 | the general handler succeeds exactly when the service answers, passes the answer through, and on a service fault returns the error reply carrying the fault's text |
| Healthcare.HealthcareAI.constructor | healthcare_ai.py:77-79 | the registries start empty |
| Healthcare.HealthcareAI.AddPatient | healthcare_ai.py:431-434 | the patient is inserted or overwritten under its id, is then found by that id, and no other patient, appointment or alert changes |
| Healthcare.HealthcareAI.GetPatient | healthcare_ai.py:436-438 | a lookup finds a patient exactly when the id is registered, and returns the registered record |
| Healthcare.HealthcareAI.GetAlerts | healthcare_ai.py:440-444 | without an id, or with the empty id, all alerts; otherwise the filter `Store.AlertsFor` of the alerts, that is that patient's alerts, all of them, in recorded order |
| Healthcare.HealthcareAI.ScheduleAppointment | healthcare_ai.py:319-334 | updates the appointment table as `Store.Schedule` and returns the new appointment, keeping the registries well formed |
| Healthcare.HealthcareAI.RescheduleAppointment | healthcare_ai.py:336-342 | updates the table and answers as `Store.Reschedule` |
| Healthcare.HealthcareAI.CancelAppointment | healthcare_ai.py:344-350 | updates the table and answers as `Store.Cancel` |
| Healthcare.HealthcareAI.AppointmentAgent | healthcare_ai.py:128-178 | tests the keywords in the source's order and answers and updates the table as `Healthcare.AppointmentHandling`, leaving patients and alerts unchanged |
| Healthcare.HealthcareAI.ProcessRequest | healthcare_ai.py:81-126 | a classification fault fails without changes; otherwise the request goes to the handler `agent_type` selects (the appointment handler as `Healthcare.AppointmentHandling`, the drug-discovery and general handlers as their functions, the monitoring handler as `Healthcare.MonitoringReply`), only the appointment handler changes the appointment table, nothing changes the patients or alerts, and a service fault fails every request whose handler asks the service |

## Findings

| source | as written | input that shows it | evidently intended | confidence | as-written member | corrected member |
|---|---|---|---|---|---|---|
| healthcare_ai.py:145-155 | the appointment handler tests for "schedule" before "reschedule"; every text containing "reschedule" contains "schedule", so the reschedule branch can never run | "Can you reschedule appointment apt_20241201_143000 to next week?" (the interactive scenarios' own request) books a new appointment instead of moving apt_20241201_143000 | a request that mentions rescheduling moves the existing appointment | high; not executed | Routing.RescheduleUnreachableAsWritten | Routing.AppointmentActionFor |

The class follows the source as written: `Healthcare.AppointmentHandling`
and `Healthcare.HealthcareAI.AppointmentAgent` test "schedule" first, so a
reschedule request books a new appointment there. The corrected handler is
`Healthcare.AppointmentHandlingCorrected`, built on
`Routing.AppointmentActionFor`; `Routing.AppointmentActionDiffersOnlyOnReschedule`
and `Healthcare.AppointmentHandlingCorrectionOnlyOnReschedule` prove that the
correction changes the behaviour on exactly the requests that mention
"reschedule".

## Left out

- The calls to the language-model service and the parsing of its replies: each call's outcome is an input (`Classification`, `Completion`); the prompts, model names and temperatures are not modelled, nor the classifier's `intent` and `priority` fields, which the code never reads.
- The request `context`: it only goes into the classifier's prompt, so it is part of the `Classification` input.
- The `try/except` wrappers: modelled only for the faults of the service, the JSON parse and the out-of-range reschedule date, each of which yields a reply with status failed. Exceptions from parameters of the wrong JSON type (a string heart rate, a float age, an explicit null) are not modelled: `Records.Params` gives every entry its expected type, absent or present.
- Healthcare.HealthcareAI.RescheduleAppointment: returns the out-of-range error as a reply, where Python raises OverflowError and the appointment handler's `except` turns it into that reply.
- Text.Lower: maps only the characters whose lower-case form contains an ASCII letter (A-Z, U+0130, U+212A) and keeps every other character, which cannot change whether an ASCII keyword occurs.
- The clock: whole seconds (microseconds are dropped from the stored dates), readings before 1970 are excluded, the two `datetime.now()` calls of one scheduling are taken as one reading, and both vital-sign alerts are stamped with one reading `now`, where the source reads the clock once per alert (healthcare_ai.py:396, 406).
- Evaluator.AssessPatientRisk: the score is the exact decimal value in tenths; the rounding of Python's float arithmetic is not modelled. Drug scores are exact decimals too.
- Aliasing: the scheduler's reply carries `appointment.__dict__`, the live record, so a later reschedule or cancel shows through it; the model's reply is a copy.
- The async/await structure and concurrent requests, including two concurrent bookings colliding on one second-resolution id; requests are processed one at a time.
- The API-key lookup and its startup error, logging, the `main()` demo and its printout.
- test_healthcare_ai.py: an interactive script that needs a live service and prints results without checking them; only its scenario values are reflected here.
