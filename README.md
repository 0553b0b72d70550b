# MedCore business-logic services, modelled in Dafny

This project models the business-logic core of the MedCore
`ms-logica-negocio` microservice:

- the doctor's walk-in queue (`QueueService`);
- the appointment scheduler (`AppointmentService`), with its working hours,
  its overlap check and its 12-hour modification cutoff;
- prescriptions (`PrescriptionService`): the treatment-duration heuristic,
  medication normalisation and the allergy check;
- diagnostic documents (`DocumentService`);
- laboratory and radiology medical orders (`medicalOrderService`): orders
  stored in a medical record's JSON list and, when it exists, in the
  `MedicalOrder` table;
- the authentication and role middleware (`authMiddleware`);
- the radiology exam-type catalogue with its laboratory fallback
  (`radiologyExamTypeService`).

Each source file is one module:

- `queue.dfy`, `appointments.dfy`, `prescriptions.dfy`, `documents.dfy` and
  `medical_orders.dfy` model the services.
- `auth.dfy` (modules `Roles` and `Auth`) models the middleware.
- `radiology.dfy` (module `RadiologyExamTypes`) models the exam-type
  catalogue.
- `wrappers.dfy`, `text.dfy` and `paging.dfy` are shared helpers. They hold
  `Option`/`Result`, the JavaScript string operations the services use, and
  `take`/`skip`/`slice` paging.

Conventions:

- **Tables.** A service whose methods write to the store is a `class`. Its
  tables are `seq` fields in creation order. Ids and creation stamps come
  from one counter, `nextId`, so both strictly increase along each table.
  Each class keeps that order as its `Valid()` invariant.
- **Queries.** A query is a function over the table. A listing ordered
  `createdAt desc` is the table read backwards. For each such listing one
  lemma proves that the result is strictly newest first
  (`Prescriptions.NewestFirstIsDescending`, `Documents.OfPatientIsNewestFirst`,
  `MedicalOrders.RowsAreNewestFirst`, `MedicalOrders.RecordsAreNewestFirst`),
  and the function's contract or a second lemma proves that no row of the
  patient is left out (`Prescriptions.NewestFirstIsComplete`,
  `Documents.OfPatientNewestFirst`, `MedicalOrders.RowsNewestFirst`,
  `MedicalOrders.RecordsNewestFirstIsComplete`).
- **In-memory sort.** The JSON fallback of the order listings sorts with
  `Array.prototype.sort`, which is stable. `MedicalOrders.SortNewestFirst`
  proves its result newest first, a permutation of the input, and stable
  (orders with equal keys keep their relative order).
  `MedicalOrders.ArrangementIsUnique` proves that these three facts
  determine the result.
- **Falsy values.** A value JavaScript would find falsy is `0` (ids and
  numbers), `""` (strings) or `None` (dates and optional values).
- **Time.** An instant is a whole number of minutes, with calendar day
  `t / 1440`. The current time is a `now` parameter.
- **Failing queries.** A query that may throw (a missing table) is an
  `Option` of its rows, or a `tableAvailable` flag.

Some parts of the repository expect behaviour the services do not have.
The model follows the services:

- **Queue cancel.** `src/services/QueueService.js` defines no `cancel`.
  `src/__tests__/services/QueueService.cancel.test.js` nevertheless calls
  `service.cancel` (line 38) and expects a 404 for an unknown ticket and a
  400 for a COMPLETED one (lines 55-65). `src/routes/queueRoutes.js` has no
  cancel route.
- **Queue admission.** `join` (`QueueService.js:29-53`) never raises a
  `DUPLICATE_QUEUE` error, although `src/controllers/queueController.js:13`
  maps that code to 409. It returns the patient's existing WAITING ticket
  instead (lines 34-42). It has no capacity limit.
- **`callNext`** (`QueueService.js:63-97`) does not complete the doctor's
  current CALLED ticket. `Queue.TwoCalledTicketsAreReachable` shows that two
  tickets of one doctor can be CALLED at once.
- **Position of a served ticket.** `getPosition` returns 0 for a CALLED or
  COMPLETED ticket (`QueueService.js:18`); only a missing ticket gives null.
- **Appointment checks.** `createAppointment` checks the overlap
  (`AppointmentService.js:106-109`) before the status (lines 111-115), so an
  invalid status on a taken slot is reported as an overlap.
- **Updates.** `updateAppointment` re-checks the working hours and the
  overlap (`AppointmentService.js:147-158`) even when neither the date nor
  the doctor changes.

## Model

| member | source | states |
|---|---|---|
| Queue.Position | src/services/QueueService.js:16-27 | a served ticket is at position 0, a WAITING ticket at 1 or more (iff) |
| Queue.GetPosition | src/services/QueueService.js:16-27 | null exactly when there is no ticket, 0 for a ticket not WAITING, at least 1 for a WAITING one |
| Queue.FindWaiting | src/services/QueueService.js:35-38 | the first WAITING ticket of the doctor (and patient); none earlier matches; None means none matches at all |
| Queue.IndexOfId | src/services/QueueService.js:100-101 | the ticket with the id, or proof that no ticket has it |
| Queue.LatestCalled | src/services/QueueService.js:55-60 | a CALLED ticket of the doctor whose call time is not before any other CALLED ticket of that doctor; None means there is none |
| Queue.WaitingOf | src/services/QueueService.js:67-71 | the doctor's queue holds only WAITING tickets of that doctor from the table |
| Queue.QueueService.GetPositionOf | src/services/QueueService.js:16-27 | the position of a ticket against the current table |
| Queue.QueueService.Join | src/services/QueueService.js:29-53 | missing ids are rejected with no write; an existing WAITING ticket of the pair is returned unchanged; otherwise exactly one WAITING ticket is appended with its position; the table invariant is kept |
| Queue.QueueService.GetCurrentForDoctor | src/services/QueueService.js:55-61 | the doctor's most recently called ticket, or null when none is CALLED |
| Queue.QueueService.CallIfWaiting | src/services/QueueService.js:76-79 | the conditional update changes one row, and reports 1, exactly when the ticket is still WAITING |
| Queue.QueueService.CallNext | src/services/QueueService.js:63-97 | a missing doctor is an error; with nobody waiting nothing changes; otherwise only the oldest WAITING ticket becomes CALLED with the call time, and the retry branch is unreachable |
| Queue.QueueService.Complete | src/services/QueueService.js:99-108 | an unknown ticket is an error with no write; otherwise that ticket alone becomes COMPLETED, whatever its status |
| Queue.QueueService.PositionOf | src/services/QueueService.js:110-115 | the ticket with the id and its position, or not-found exactly when no ticket has the id |
| Queue.PositionsAreOneToN | src/services/QueueService.js:16-27 | the WAITING tickets of a doctor, in creation order, have positions 1..N with no gap or repeat |
| Queue.JoinGoesToBack | src/services/QueueService.js:44-52 | a new ticket gets position N+1 and every earlier ticket keeps its position |
| Queue.JoinAgainFindsSameTicket | src/services/QueueService.js:34-42 | once a ticket is created, a second join of the same pair finds that ticket |
| Queue.CallNextPicksOldest | src/services/QueueService.js:67-71 | the called ticket has the smallest creation stamp among the doctor's WAITING tickets |
| Queue.CallNextPopsHead | src/services/QueueService.js:63-96 | calling removes exactly the head of that doctor's queue and leaves every other doctor's queue unchanged |
| Queue.CallNextMovesQueueUp | src/services/QueueService.js:63-96 | after a call, every ticket still waiting for that doctor moves up one place |
| Queue.TwoCalledTicketsAreReachable | src/services/QueueService.js:63-96 | two calls in a row leave two CALLED tickets for one doctor |
| Queue.CalledPatientCanJoinAgain | src/services/QueueService.js:34-39 | a patient whose ticket is CALLED is not found as waiting, so join creates a second ticket |
| Queue.CountAhead | src/services/QueueService.js:19-25 | defines the count of WAITING tickets of the doctor created earlier; Position and PositionsAreOneToN state what it yields |
| Queue.NewTicket | src/services/QueueService.js:44-50 | defines the WAITING row `join` creates; Join states that exactly this row is appended |
| Queue.Call | src/services/QueueService.js:76-79 | defines the CALLED update with its call time; CallIfWaiting and CallNext state where it applies |
| Queue.Finish | src/services/QueueService.js:103-106 | defines the COMPLETED update with its completion time; Complete states that only that ticket changes |
| Appointments.AllowedStatuses | src/services/AppointmentService.js:13-18 | exactly the four statuses PENDIENTE, CONFIRMADA, CANCELADA and COMPLETADA |
| Appointments.HasOverlap | src/services/AppointmentService.js:61-92 | true iff some same-day, non-cancelled appointment of the doctor, other than the ignored one, has a 30-minute slot that meets [start, end) |
| Appointments.IndexOfId | src/services/AppointmentService.js:138-139 | the appointment with the id, or proof that none has it |
| Appointments.AppointmentService.CreateAppointment | src/services/AppointmentService.js:94-135 | required fields, working hours, overlap and status are checked in that order, each failure with its own error and no write; success appends one appointment with status defaulting to PENDIENTE |
| Appointments.AppointmentService.UpdateAppointment | src/services/AppointmentService.js:137-183 | existence, the 12-hour cutoff, working hours, overlap excluding itself and status are checked in order; success changes that appointment alone, with only the given fields |
| Appointments.AppointmentService.CancelAppointment | src/services/AppointmentService.js:185-205 | existence and the cutoff are checked; success sets that appointment alone to CANCELADA |
| Appointments.WorkingHoursMeaning | src/services/AppointmentService.js:25-43 | within working hours iff one calendar day, start at or after 08:00, end at or before 18:00, and end after start |
| Appointments.CutoffInMinutes | src/services/AppointmentService.js:45-49 | the cutoff rejects exactly when fewer than 720 minutes remain |
| Appointments.TouchingSlotsDoNotConflict | src/services/AppointmentService.js:85-91 | back-to-back slots do not conflict (the intervals are half-open) |
| Appointments.CloseStartsShareDay | src/services/AppointmentService.js:68-76 | two in-hours starts less than 30 minutes apart fall on the same day, so the day-window query sees them |
| Appointments.AcceptedSlotIsFree | src/services/AppointmentService.js:61-92 | a slot that passes both checks and lasts at least 30 minutes clashes with no stored appointment of the doctor |
| Appointments.CreateKeepsNoDoubleBooking | src/services/AppointmentService.js:94-125 | provided the new booking's duration is 0 (hence 30 minutes) or at least 30 minutes, an accepted creation keeps the table free of double bookings |
| Appointments.UpdateKeepsNoDoubleBooking | src/services/AppointmentService.js:146-158 | provided the new duration is 0 (hence 30 minutes) or at least 30 minutes, an accepted rescheduling keeps the table free of double bookings |
| Appointments.CancelKeepsNoDoubleBooking | src/services/AppointmentService.js:185-196 | cancelling keeps the table free of double bookings |
| Appointments.SameSlotTwiceOverlaps | src/services/AppointmentService.js:85-91 | booking the same doctor and slot again is detected as an overlap |
| Appointments.BookingScenario | src/services/AppointmentService.js:85-91 | next to a 10:00 booking, 10:15 overlaps, 10:30 does not, and 07:30 is outside working hours |
| Appointments.LongBookingIsNotProtected | src/services/AppointmentService.js:62-88 | a one-hour booking at 10:00 does not block 10:30, because stored appointments count as 30 minutes |
| Appointments.ShortBookingBreaksNoDoubleBooking | src/services/AppointmentService.js:57-91 | without that proviso the property fails: a 10-minute booking at 10:00 passes the hours and overlap checks, yet overlaps the 30-minute slot of a stored 10:15 appointment |
| Appointments.AddMinutes | src/services/AppointmentService.js:21-23 | defines `addMinutes` on whole minutes; used by ComputeEnd and Conflicts |
| Appointments.IsWithinWorkingHours | src/services/AppointmentService.js:25-43 | defines the working-hours test; its meaning in hours is stated by WorkingHoursMeaning |
| Appointments.HoursUntil | src/services/AppointmentService.js:45-49 | defines `hoursUntil` as fractional hours from `now`; CutoffInMinutes states the cutoff in whole minutes |
| Appointments.ComputeEnd | src/services/AppointmentService.js:56-59 | defines the end of a booking, a zero duration counting as 30 minutes; ShortBookingBreaksNoDoubleBooking and the NoDoubleBooking lemmas state its consequences |
| Appointments.IsInsideCutoff | src/services/AppointmentService.js:141-144 | defines the 12-hour cutoff test; CutoffInMinutes states it as fewer than 720 minutes |
| Appointments.IsCandidate | src/services/AppointmentService.js:67-83 | defines which stored appointments the overlap query fetches (same doctor, same day, not cancelled in either language); used by HasOverlap |
| Appointments.Conflicts | src/services/AppointmentService.js:85-91 | defines the `some` test of `hasOverlap` (half-open intervals, the ignored id skipped); TouchingSlotsDoNotConflict and SameSlotTwiceOverlaps state its boundary cases |
| Appointments.HasRequiredFields | src/services/AppointmentService.js:95-97 | defines the required-field guard; CreateAppointment states that failing it is the first error |
| Appointments.CreateStatus | src/services/AppointmentService.js:112 | defines `status || PENDIENTE`; CreateAppointment states the default |
| Appointments.UpdateStart | src/services/AppointmentService.js:147 | defines the start an update checks, the new date or the current one; UpdateAppointment states which start is checked |
| Appointments.UpdateDoctor | src/services/AppointmentService.js:154 | defines the doctor an update checks, the new doctor or the current one; UpdateAppointment states which doctor is checked |
| Prescriptions.FirstRule | src/services/PrescriptionService.js:13-20 | the first keyword rule that matches, with no earlier rule matching; None means no rule matches |
| Prescriptions.TypeHint | src/services/PrescriptionService.js:22-30 | the type fallback gives 30 or 7 days |
| Prescriptions.InferDuration | src/services/PrescriptionService.js:5-31 | 7 days for a falsy medication; an explicit durationDays, else duration, is kept; otherwise the result is one of 5, 7, 14 or 30 |
| Prescriptions.InferDurationFirstMatchWins | src/services/PrescriptionService.js:12-20 | without an explicit duration, the first matching keyword rule decides |
| Prescriptions.InferDurationFallsBackOnType | src/services/PrescriptionService.js:22-30 | with no keyword match, a "chronic" type gives 30 days and anything else 7 |
| Prescriptions.AmoxicillinIsSevenDays | src/services/PrescriptionService.js:13 | any name starting with "Amoxi" is a seven-day treatment |
| Prescriptions.AsObject | src/services/PrescriptionService.js:78 | a string medication becomes an object; an object is copied |
| Prescriptions.StoredMed | src/services/PrescriptionService.js:76-81 | the stored medication keeps its fields and carries the inferred duration |
| Prescriptions.FilledMed | src/services/PrescriptionService.js:110-114 | a read medication always has a duration, and an existing one is kept |
| Prescriptions.StoredEqualsFilled | src/services/PrescriptionService.js:108-116 | storing and reading normalise a medication the same way |
| Prescriptions.FilledMedIdempotent | src/services/PrescriptionService.js:110-114 | normalising a medication twice changes nothing |
| Prescriptions.FilledMeds | src/services/PrescriptionService.js:110-114 | the read side maps each medication in order |
| Prescriptions.StoredMeds | src/services/PrescriptionService.js:76-81 | creation maps each medication in order |
| Prescriptions.FilledMedsIdempotent | src/services/PrescriptionService.js:108-116 | normalising a medication list twice changes nothing |
| Prescriptions.ParseMedications | src/services/PrescriptionService.js:39-55 | an array, or a text that parses to an array, is accepted as exactly its items when non-empty and refused with EmptyMedications when empty; text that is not JSON is InvalidJson; any other value is EmptyMedications; every failure is a 400 error |
| Prescriptions.UserIndex | src/services/PrescriptionService.js:58-61 | the first user with the id, or proof that none has it |
| Prescriptions.RecordOf | src/services/PrescriptionService.js:162 | a medical record of the user, or proof that there is none |
| Prescriptions.NewestFirst | src/services/PrescriptionService.js:99-105 | only stored prescriptions of the patient, no more than the table holds |
| Prescriptions.NewestFirstIsDescending | src/services/PrescriptionService.js:101 | the patient's prescriptions come out in strictly decreasing creation order |
| Prescriptions.NewestFirstIsComplete | src/services/PrescriptionService.js:99-100 | every stored prescription of the patient is in the listing |
| Prescriptions.PatientPage | src/services/PrescriptionService.js:99-116 | the window of the patient's newest-first prescriptions starting at `skip`, at most `limit` long and empty past the end, each normalised |
| Prescriptions.PatientPageIsStored | src/services/PrescriptionService.js:99-116 | each prescription of a page is a normalised stored prescription of the patient |
| Prescriptions.NormalizedWindow | src/services/PrescriptionService.js:102-116 | normalising a page gives the normalised window of the listing, element by element |
| Prescriptions.DefaultLimit | src/services/PrescriptionService.js:98 | defines `limit = 50`, the default applying only when the option is left out |
| Prescriptions.DefaultOffset | src/services/PrescriptionService.js:98 | defines `offset = 0`, the default applying only when the option is left out |
| Prescriptions.Normalized | src/services/PrescriptionService.js:108-116 | a read prescription differs only in its medications, which are all objects with a duration |
| Prescriptions.NormalizedIdempotent | src/services/PrescriptionService.js:108-116 | normalising a prescription twice changes nothing |
| Prescriptions.NormalizedAll | src/services/PrescriptionService.js:108-118 | each prescription of a listing is normalised, in order |
| Prescriptions.TrimmedNonEmpty | src/services/PrescriptionService.js:183 | the kept CSV pieces are non-empty and trimmed |
| Prescriptions.CsvPartsAreClean | src/services/PrescriptionService.js:182-184 | every CSV allergy is non-empty, trimmed and free of `,` and `;` |
| Prescriptions.AllergySources | src/services/PrescriptionService.js:164-166 | exactly the truthy sources, one entry each: the user's own allergies first, then the medical record's |
| Prescriptions.NormalizeName | src/services/PrescriptionService.js:191 | a normalised name holds no combining mark and is trimmed |
| Prescriptions.NormalizeAll | src/services/PrescriptionService.js:192 | each allergy is normalised, in order |
| Prescriptions.NonEmpty | src/services/PrescriptionService.js:192 | exactly the non-empty allergies are kept |
| Prescriptions.Distinct | src/services/PrescriptionService.js:192 | the same allergies, each once |
| Prescriptions.AllergySet | src/services/PrescriptionService.js:190-192 | the allergy set has no duplicates and no empty entry |
| Prescriptions.MatchesOf | src/services/PrescriptionService.js:196-202 | exactly the non-empty allergies that occur in the medication name |
| Prescriptions.AllResults | src/services/PrescriptionService.js:195-208 | one verdict per medication in order; a null medication makes the call fail |
| Prescriptions.PrescriptionService.CreatePrescription | src/services/PrescriptionService.js:32-95 | required fields (a falsy `medications` of any kind included), medication list, doctor and patient are checked in order, with no write on failure; success appends one prescription with the normalised medications |
| Prescriptions.PrescriptionService.GetByPatient | src/services/PrescriptionService.js:97-119 | the PatientPage of the table: the patient's prescriptions newest first, from the offset (default 0), at most `limit` (default 50) of them, each normalised with its medications present |
| Prescriptions.PrescriptionService.GetById | src/services/PrescriptionService.js:121-137 | null for a falsy or unknown id, otherwise the normalised prescription with that id |
| Prescriptions.PrescriptionService.CheckAllergies | src/services/PrescriptionService.js:141-211 | patient id, medication array and patient are checked in order; the report is the verdicts against the patient's allergy set |
| Prescriptions.CollectAllergies | src/services/PrescriptionService.js:169-188 | the loop concatenates each source's allergies (JSON array, else CSV) in order |
| Prescriptions.CheckMedications | src/services/PrescriptionService.js:195-208 | the loop computes the per-medication verdicts, or fails on a null medication |
| Prescriptions.CheckMedication | src/services/PrescriptionService.js:196-207 | the verdict of one medication |
| Prescriptions.MatchAllergies | src/services/PrescriptionService.js:198-202 | the loop collects the matching allergies in set order |
| Prescriptions.FindById | src/services/PrescriptionService.js:123-136 | the normalised prescription with the id, or proof that none has it |
| Prescriptions.AllergicIffSomeMatch | src/services/PrescriptionService.js:194-207 | a medication is flagged iff some allergy occurs in its normalised name, and the matches are exactly those allergies |
| Prescriptions.RawText | src/services/PrescriptionService.js:10 | defines the lower-cased text the keyword rules are matched against (`name`, else `type`, else the value); InferDurationFirstMatchWins states its use |
| Prescriptions.HasRequiredFields | src/services/PrescriptionService.js:33-37 | defines the required-field guard, where a falsy medications value fails; CreatePrescription states it is checked first |
| Prescriptions.CsvParts | src/services/PrescriptionService.js:183 | defines the CSV reading of an allergy text; CsvPartsAreClean states what its pieces are |
| Prescriptions.SourceAllergies | src/services/PrescriptionService.js:171-187 | defines one source's allergies: a JSON array, else CSV for text, the items of an array, nothing otherwise; CollectAllergies states the loop computes them |
| Prescriptions.AllAllergies | src/services/PrescriptionService.js:169-188 | defines the concatenation of every source's allergies, in order; CollectAllergies states the loop computes it |
| Prescriptions.MedLabel | src/services/PrescriptionService.js:196 | defines `med.name || med`, the text a medication is matched under; AllergicIffSomeMatch states its use |
| Prescriptions.ResultFor | src/services/PrescriptionService.js:196-207 | defines one verdict; AllergicIffSomeMatch states it is allergic iff some allergy occurs in the normalised name |
| Documents.FindPatient | src/services/DocumentService.js:21-23 | a user with the id and role PACIENTE, or proof that there is none |
| Documents.FindUser | src/services/DocumentService.js:124-126 | the user with the id, or proof that there is none |
| Documents.FindDiagnostic | src/services/DocumentService.js:29-31 | the diagnostic with the id, or proof that there is none |
| Documents.UploadRejection | src/services/DocumentService.js:8-34 | each upload error happens iff its guard is the first to fail (type, size, patient, diagnostic of that patient) |
| Documents.NewDocument | src/services/DocumentService.js:37-49 | the stored record copies the file's name, path, type and size, the diagnostic and the uploader |
| Documents.FindDocument | src/services/DocumentService.js:88-89 | the document with the id, or proof that there is none |
| Documents.DeleteRejection | src/services/DocumentService.js:110-134 | each delete error happens iff its guard is the first to fail; no error iff the document and user exist and the user may delete |
| Documents.Without | src/services/DocumentService.js:142-144 | exactly the documents without that id remain |
| Documents.WithoutRemovesOne | src/services/DocumentService.js:142-144 | with distinct ids, deleting an existing id removes exactly one document |
| Documents.WithoutOfAbsent | src/services/DocumentService.js:142-144 | deleting an id no document has changes nothing |
| Documents.OfPatientNewestFirst | src/services/DocumentService.js:63-81 | exactly the documents whose diagnostic belongs to the patient |
| Documents.OfPatientIsNewestFirst | src/services/DocumentService.js:78-80 | a patient's documents come out in strictly decreasing upload order |
| Documents.DocumentService.UploadDocument | src/services/DocumentService.js:7-52 | a rejected upload writes nothing; an accepted one appends exactly the new document |
| Documents.DocumentService.GetDocumentsByPatient | src/services/DocumentService.js:55-84 | not-found iff the patient is unknown; otherwise exactly the patient's documents |
| Documents.DocumentService.GetDocumentById | src/services/DocumentService.js:87-106 | the document with the id; not-found iff there is none |
| Documents.DocumentService.DeleteDocument | src/services/DocumentService.js:109-147 | a refused delete changes nothing; a permitted one removes the documents with that id and keeps the rest in order |
| Documents.WithoutKeepsOrder | src/services/DocumentService.js:142-144 | deleting keeps ids and upload stamps increasing |
| Documents.DeletePermittedIff | src/services/DocumentService.js:132-134 | a delete is permitted iff the user uploaded the document or is ADMINISTRADOR |
| Documents.SizeLimitIsInclusive | src/services/DocumentService.js:14-18 | a file of exactly 10 MiB passes the size guard and one byte more fails it |
| Documents.TextFileIsRefused | src/services/DocumentService.js:8-12 | a text/plain file is refused before any lookup |
| Documents.IsAllowedType | src/services/DocumentService.js:9-12 | defines the type guard (PDF, JPEG, PNG); UploadRejection and TextFileIsRefused state its effect |
| Documents.DiagnosticOf | src/services/DocumentService.js:29-34 | defines the diagnostic guard (that id, of that patient); UploadRejection states it is the fourth check |
| Documents.MayDelete | src/services/DocumentService.js:132-134 | defines the delete permission; DeletePermittedIff states it in terms of the uploader and the ADMINISTRADOR role |
| MedicalOrders.Coerce | src/services/medicalOrderService.js:112-118 | a missing list is empty, a single stored order becomes a one-element list, and a list is kept |
| MedicalOrders.AppendKeepsPriorOrders | src/services/medicalOrderService.js:112-126 | appending keeps every earlier order in place and puts the new one last, in the same record |
| MedicalOrders.CatalogFind | src/services/medicalOrderService.js:54-56 | an exam type with the code, or proof that the catalogue has none |
| MedicalOrders.BuildTest | src/services/medicalOrderService.js:48-94 | a new test gets its id, the kind's status, the requested code, and the catalogue name if found, else the requested or fallback name |
| MedicalOrders.BuildTests | src/services/medicalOrderService.js:47-95 | one test per request, in order, with consecutive ids |
| MedicalOrders.NewOrder | src/services/medicalOrderService.js:99-110 | the order gets its type, the patient, status CREATED, priority defaulting to routine, and the requester defaulting to the caller |
| MedicalOrders.LatestRecord | src/services/medicalOrderService.js:25-28 | the patient's most recent record; None means the patient has none |
| MedicalOrders.PlacedOrderIsLastOfLatestRecord | src/services/medicalOrderService.js:24-126 | after placing, the order is the last in the patient's latest record, that record keeps its earlier orders, and other records are unchanged |
| MedicalOrders.LatestRecordOfUpdate | src/services/medicalOrderService.js:25-28 | rewriting the latest record of a patient keeps it the latest, so a second order goes to the same record |
| MedicalOrders.EnrichTest | src/services/medicalOrderService.js:339-384 | a named test is kept; an unnamed test without a code gets "Examen sin código"; an unnamed test whose code is in the order type's catalogue takes the catalogue name, and its description when non-empty; one whose code is in no entry gets "Examen <code>"; id, codes and status never change |
| MedicalOrders.EnrichTests | src/services/medicalOrderService.js:336-384 | each test is enriched, in order |
| MedicalOrders.EnrichedOrder | src/services/medicalOrderService.js:331-387 | an order without tests is returned as is; otherwise only the tests change, each test becoming EnrichTest of it against the laboratory catalogue for a laboratory order and the radiology catalogue otherwise |
| MedicalOrders.EnrichTestIdempotent | src/services/medicalOrderService.js:340-383 | enriching a test twice is enriching it once |
| MedicalOrders.EnrichIdempotent | src/services/medicalOrderService.js:331-387 | enriching an order twice is enriching it once |
| MedicalOrders.EnrichedAll | src/services/medicalOrderService.js:627-629 | each listed order is enriched, in order |
| MedicalOrders.FindRow | src/services/medicalOrderService.js:269-272 | a table row with the order id, or proof that there is none |
| MedicalOrders.FindOrder | src/services/medicalOrderService.js:295 | an order of the list with the id, or proof that there is none |
| MedicalOrders.FindOrderIsFirst | src/services/medicalOrderService.js:295 | the order found is the first of the list with the id, as `find` returns it |
| MedicalOrders.FirstRecordWith | src/services/medicalOrderService.js:281-299 | the first record whose list holds the id, with none before it; None means no record holds it |
| MedicalOrders.FindInRecords | src/services/medicalOrderService.js:278-303 | the order comes from the first record holding the id, with that record's id and owner; None means no record holds it |
| MedicalOrders.RecordOrders | src/services/medicalOrderService.js:604-613 | every pushed order carries its record and that record's owner, and has the requested type; RecordOrdersComplete gives the converse |
| MedicalOrders.Collected | src/services/medicalOrderService.js:595-614 | every collected order has the requested type; CollectedComplete gives the converse |
| MedicalOrders.RecordOrdersComplete | src/services/medicalOrderService.js:604-613 | every order of a record's list that has the requested type (any order, with no type) is pushed, tagged with the record and its owner |
| MedicalOrders.CollectedComplete | src/services/medicalOrderService.js:595-614 | every order of the requested type in any of the records read is collected, so the fallback misses none |
| MedicalOrders.RecordsNewestFirst | src/services/medicalOrderService.js:554-566 | only stored records, and only the patient's when one is given |
| MedicalOrders.RecordsNewestFirstIsComplete | src/services/medicalOrderService.js:554-566 | no stored record of the patient (of anyone, with no patient) is left out |
| MedicalOrders.RecordsAreNewestFirst | src/services/medicalOrderService.js:554-566 | with records stored in creation order, the listing is in strictly decreasing createdAt order |
| MedicalOrders.RowsNewestFirst | src/services/medicalOrderService.js:517-522 | exactly the table rows of the patient and type asked for |
| MedicalOrders.SortNewestFirst | src/services/medicalOrderService.js:617-621 | the in-place sort leaves the orders newest first, a permutation of the input, and stable: orders with equal keys keep their relative order |
| MedicalOrders.InsertLast | src/services/medicalOrderService.js:617-621 | one insertion step of the sort extends the newest-first prefix by one, keeps the rest, permutes the array and keeps equal-key orders in their order |
| MedicalOrders.Exchange | src/services/medicalOrderService.js:617-621 | the array after one exchange of the sort is the old contents with the two neighbours swapped |
| MedicalOrders.InsertStep | src/services/medicalOrderService.js:617-621 | one exchange of the insertion keeps the loop's invariants: newest first apart from the moving order, a permutation, and each key's orders in their order |
| MedicalOrders.SwapKeepsKeyOrder | src/services/medicalOrderService.js:617-621 | exchanging neighbours of different keys keeps the permutation and the relative order of each key's orders |
| MedicalOrders.ArrangementIsUnique | src/services/medicalOrderService.js:617-621 | two newest-first, stable permutations of the same orders are equal, so the sorted fallback is determined |
| MedicalOrders.SameKeyOrderIsSame | src/services/medicalOrderService.js:617-621 | two newest-first sequences with the same orders per key, in the same order, are equal |
| MedicalOrders.Listed | src/services/medicalOrderService.js:518-548 | each table row is listed, in order, as its order with its record id |
| MedicalOrders.AppendOrder | src/services/medicalOrderService.js:113-126 | defines the record rewritten with `[...existing, newOrder]`; AppendKeepsPriorOrders states what it keeps |
| MedicalOrders.RequestCode | src/services/medicalOrderService.js:49 | defines `t.testCode || t.code || t` as the queried code; BuildTest states that the test carries it |
| MedicalOrders.FallbackName | src/services/medicalOrderService.js:73 | defines `t.name || t.testName || "Examen " + code`; BuildTest states when it is used |
| MedicalOrders.AutoRecord | src/services/medicalOrderService.js:30-40 | defines the auto-generated record of a patient without one; OpenRecord states when it is appended |
| MedicalOrders.WithOrder | src/services/medicalOrderService.js:24-126 | defines the records after an order is placed; PlacedOrderIsLastOfLatestRecord states its effect |
| MedicalOrders.RecordIdFor | src/services/medicalOrderService.js:24-40 | defines the id of the record an order goes to; PlacedOrderIsLastOfLatestRecord states it is the latest record after placing |
| MedicalOrders.HasRealName | src/services/medicalOrderService.js:341 | defines a name other than empty and "Examen sin nombre"; EnrichTest states that such a test is kept |
| MedicalOrders.EffectiveLimit | src/services/medicalOrderService.js:511 | defines `opts.limit ? Number(opts.limit) : 50`; GetAllOrders and Fallback state the bound it gives |
| MedicalOrders.Key | src/services/medicalOrderService.js:618-620 | defines the sort key, `createdAt` with 0 when missing; SortNewestFirst and ArrangementIsUnique are stated over it |
| MedicalOrders.BuildTestsFrom | src/services/medicalOrderService.js:47-95 | the test-building loop produces exactly BuildTests |
| MedicalOrders.MedicalOrderService.CreateOrder | src/services/medicalOrderService.js:7-132 | a missing patient id and an unknown patient are errors with no write; success appends the order to the patient's latest record (created when missing) and adds one table row when the table exists |
| MedicalOrders.MedicalOrderService.OpenRecord | src/services/medicalOrderService.js:24-40 | the patient's latest record, or a new auto-generated one appended |
| MedicalOrders.MedicalOrderService.StoreOrder | src/services/medicalOrderService.js:112-129 | the order is appended to the record's list, plus one table row when the table exists |
| MedicalOrders.MedicalOrderService.PrepareOrder | src/services/medicalOrderService.js:42-110 | the new order with its enriched tests, taking one id for the order and one per test |
| MedicalOrders.MedicalOrderService.PlaceOrder | src/services/medicalOrderService.js:24-131 | the record, order and table row written by a creation |
| MedicalOrders.MedicalOrderService.GetOrderById | src/services/medicalOrderService.js:261-304 | a missing id is an error; a table row wins; otherwise the JSON search; not-found only when no record holds the id |
| MedicalOrders.MedicalOrderService.EnrichOneTest | src/services/medicalOrderService.js:340-383 | the loop body computes EnrichTest |
| MedicalOrders.MedicalOrderService.EnrichOrderTests | src/services/medicalOrderService.js:331-387 | the loop computes EnrichedOrder |
| MedicalOrders.MedicalOrderService.EnrichAll | src/services/medicalOrderService.js:627-629 | the loop computes EnrichedAll |
| MedicalOrders.MedicalOrderService.CollectOrders | src/services/medicalOrderService.js:595-614 | the outer loop over the records computes Collected |
| MedicalOrders.MedicalOrderService.PushRecordOrders | src/services/medicalOrderService.js:604-613 | the inner loop over one record's orders appends exactly RecordOrders to what was collected before |
| MedicalOrders.MedicalOrderService.Fallback | src/services/medicalOrderService.js:554-624 | at most `limit` orders, a page of the newest-first, stable arrangement of the collected orders, which ArrangementIsUnique makes unique |
| MedicalOrders.MedicalOrderService.GetAllOrders | src/services/medicalOrderService.js:510-632 | a non-empty table page wins; otherwise a page of the newest-first, stable JSON fallback; either way enriched and at most `limit` long |
| MedicalOrders.MedicalOrderService.GetOrdersByPatientAsWritten | src/services/medicalOrderService.js:389-506 | a missing patient id is an error; a non-empty table page is returned; otherwise the call yields no list at all |
| MedicalOrders.MedicalOrderService.GetOrdersByPatient | src/services/medicalOrderService.js:389-506 | as written, except that the fallback returns a page of the patient's orders in their newest-first, stable arrangement, at most `limit` long |
| MedicalOrders.FallbackHasOrdersToReturn | src/services/medicalOrderService.js:478-506 | a patient whose only record holds one order has that order collected by the fallback |
| MedicalOrders.PatientFallbackIsThePatients | src/services/medicalOrderService.js:478-496 | every order of the patient fallback belongs to that patient |
| MedicalOrders.CollectedOfOwner | src/services/medicalOrderService.js:604-613 | orders collected from records of one patient all carry that patient |
| MedicalOrders.RowsAreNewestFirst | src/services/medicalOrderService.js:518-520 | the table, written in creation order, comes out in strictly decreasing createdAt order |
| MedicalOrders.PageOfArrangement | src/services/medicalOrderService.js:617-624 | a page of the sorted fallback holds only collected orders, newest first |
| MedicalOrders.EnrichKeepsKeys | src/services/medicalOrderService.js:386 | enrichment keeps each listed order's sort key, record and id |
| Paging.Page | src/services/medicalOrderService.js:624 | at most `limit` elements: the window at `offset`, empty past the end |
| Paging.ConsecutivePages | src/services/medicalOrderService.js:624 | two consecutive pages make up the double-size page |
| Auth.ExtractToken | src/middleware/authMiddleware.js:5-9 | the token is exactly the second part of the header split at single spaces, and exists iff that part exists and is non-empty; it holds no space |
| Auth.SplitPartsExclude | src/middleware/authMiddleware.js:5 | no part of a split holds a separator |
| Auth.SplitOfWord | src/middleware/authMiddleware.js:5 | two space-free words joined by one space split into exactly those two words |
| Auth.BearerHeaderYieldsToken | src/middleware/authMiddleware.js:5 | `Bearer <token>` yields the token |
| Auth.HeaderWithoutSpaceIsRejected | src/middleware/authMiddleware.js:5-9 | a header without a space yields no token |
| Auth.NormalizedIsStable | src/middleware/authMiddleware.js:21-26 | a normalised role is trimmed, and normalisation maps each of its characters to itself |
| Auth.NormalizeIdempotent | src/middleware/authMiddleware.js:21-26 | normalising twice is normalising once |
| Auth.MedicoIsNormal | src/middleware/authMiddleware.js:61 | MEDICO is already in normal form |
| Auth.AdministradorIsNormal | src/middleware/authMiddleware.js:61 | ADMINISTRADOR is already in normal form |
| Auth.MedicoIsCanonical | src/middleware/authMiddleware.js:61 | MEDICO is its own canonical role |
| Auth.AdministradorIsCanonical | src/middleware/authMiddleware.js:61 | ADMINISTRADOR is its own canonical role |
| Auth.DoctorAliasIsNormal | src/middleware/authMiddleware.js:28-29 | DOCTOR is in normal form, so the alias sees it |
| Auth.CanonicalRoleIdempotent | src/middleware/authMiddleware.js:62-64 | the role stored by authenticate passes through requireRole's normalisation unchanged |
| Auth.CaseIsIgnored | src/middleware/authMiddleware.js:21-26 | a role and its upper-case spelling have the same canonical role |
| Auth.SpellingsOfDoctor | src/middleware/authMiddleware.js:21-30 | every spelling of "doctor", in any letter case, is MEDICO |
| Auth.FoldAppend | src/middleware/authMiddleware.js:21-26 | case mapping, decomposition and mark removal work character by character |
| Auth.PaddingIsIgnored | src/middleware/authMiddleware.js:21-26 | one blank on each side of a role does not change its canonical role |
| Auth.AccentIsIgnored | src/middleware/authMiddleware.js:21-26 | "é" anywhere in a role counts as "e", so "Médico" and "medico" are the same role |
| Auth.Normalize | src/middleware/authMiddleware.js:21-26 | defines upper-casing, decomposition, mark removal and trimming; NormalizedIsStable and NormalizeIdempotent state its properties |
| Auth.Alias | src/middleware/authMiddleware.js:29-30 | defines DOCTOR as MEDICO and ADMIN as ADMINISTRADOR; SpellingsOfDoctor states its effect |
| Auth.CanonicalRole | src/middleware/authMiddleware.js:28-30 | defines the role the middleware compares; CanonicalRoleIdempotent and RequireRole are stated over it |
| Auth.Authenticate | src/middleware/authMiddleware.js:3-45 | no token gives 401 "Token requerido"; a failed profile request gives 401; success stores the reported user with the canonical role |
| Auth.CanonicalRoles | src/middleware/authMiddleware.js:61 | each required role is canonicalised, in order |
| Auth.RequireRole | src/middleware/authMiddleware.js:48-80 | no user gives 401; otherwise access is granted iff some required role has the user's canonical role, and refused with 403 |
| Auth.DoctorPassesMedicoRoute | src/middleware/authMiddleware.js:61-70 | a user whose role is spelled "doctor", in any letter case, passes a route requiring MEDICO |
| Auth.AuthenticatedUserIsJudgedByReportedRole | src/middleware/authMiddleware.js:28-70 | after authenticate, requireRole grants access iff a required role and the reported role have the same canonical form |
| RadiologyExamTypes.UnderscoreBlanks | src/services/radiologyExamTypeService.js:27 | the result holds no whitespace and is no longer than the input |
| RadiologyExamTypes.UnderscoreBlanksKeepsWords | src/services/radiologyExamTypeService.js:27 | text without whitespace is kept as it is |
| RadiologyExamTypes.UnderscoreBlanksOfRun | src/services/radiologyExamTypeService.js:27 | a run of whitespace, however long, becomes one underscore |
| RadiologyExamTypes.NormalizeCode | src/services/radiologyExamTypeService.js:27 | a normalised code holds no whitespace |
| Text.UpperIdempotent | src/services/radiologyExamTypeService.js:27 | upper-casing twice is upper-casing once |
| Text.TrimIgnoresPadding | src/middleware/authMiddleware.js:25 | one blank on each side does not survive `trim` |
| RadiologyExamTypes.NormalizeCodeIdempotent | src/services/radiologyExamTypeService.js:27 | normalising a code twice is normalising it once |
| RadiologyExamTypes.FindRadiology | src/services/radiologyExamTypeService.js:31 | the radiology row with the code, or proof that there is none |
| RadiologyExamTypes.FindLab | src/services/radiologyExamTypeService.js:39 | the laboratory row with the code, or proof that there is none |
| RadiologyExamTypes.GetByCode | src/services/radiologyExamTypeService.js:25-45 | null for an empty code; a radiology row with the normalised code wins; a laboratory row is used only when radiology has none; null means no available table has the code |
| RadiologyExamTypes.RadiologyLabRows | src/services/radiologyExamTypeService.js:15-19 | exactly the laboratory rows whose code is a radiology code |
| RadiologyExamTypes.ListAll | src/services/radiologyExamTypeService.js:7-23 | a non-empty radiology table is returned as is; otherwise exactly RadiologyLabRows of an available laboratory table is returned, and nothing when both tables fail |

## Left out

- The store (Prisma) is a set of sequences in memory. The model leaves out the following:
  - transactions;
  - the concurrency of two requests;
  - the unique-constraint conflicts the appointment concurrency tests mock.
- Queue.QueueService.CallNext: the retry branch is proved unreachable. Only a concurrent caller could move the ticket between the read and the conditional update, and concurrency is not modelled.
- Generated ids (`genId`, random text) and database timestamps come from one counter, `nextId`, with no text format.
- The clock is the `now` parameter. An instant is whole minutes on the server's local clock, so seconds, milliseconds and time zones are not modelled.
- Appointments.HoursUntil keeps the source's fractional hours as a `real`.
- Notifications after appointment changes are left out. They are best-effort and their failures are swallowed.
- The HTTP request to the authentication service is the `profile` parameter of Auth.Authenticate. Logging and the response objects of the middleware are left out.
- Auth.Normalize, Prescriptions.NormalizeName, RadiologyExamTypes.NormalizeCode, Prescriptions.RawText and Prescriptions.TypeHint cover case mapping (and, for the first two, decomposition) only for ASCII and Latin-1 letters.
  - The model does not expand "ß" to "SS" or map "µ" when upper-casing.
  - Prescriptions.NormalizeName strips U+0300–U+036F, a subset of `\p{Diacritic}`.
- Paging: limits and offsets are `nat`. A negative or NaN value, which `parseInt` of a query string can give (src/controllers/prescriptionController.js:35-36) and which the services pass to the store's `take`/`skip` unchanged, is not modelled.
- `JSON.parse` is not modelled. A JSON text is given together with what parsing made of it (`Parsed`).
  - MedicalOrders: on the read paths (`getOrderById` and the listing fallbacks), which parse a `medicalOrders` column holding JSON text, the column is modelled by its decoded value. Text that is not valid JSON, which those paths wrap as a one-element list, is not modelled.
- MedicalOrders.Coerce: order creation does not parse a `medicalOrders` column holding JSON text. It wraps the text as one element and writes `[text, newOrder]` (src/services/medicalOrderService.js:113-118 and 244-246). The column has no text variant in the model, so this case is not modelled.
- MedicalOrders.RequestCode: for a test object with neither `testCode` nor `code`, the source queries the catalogue with the object itself. That query throws, and the catch takes the fallback name (src/services/medicalOrderService.js:80-91). The model instead uses the text "[object Object]" as the code and stores it as `testCode`.
- The file system in `deleteDocument` is left out. It removes the stored file, if present, before deleting the record.
- The `include` of related users is left out. This covers patient, requesting doctor, and `requestedByUser` in the order listings.
- The fallback's query for doctor names is left out, because it changes no order or position.
- RadiologyExamTypes.ListAll: the store's `orderBy: { name: 'asc' }` ordering is left out. Each table is given in the order the store returns it; the laboratory fallback is exactly RadiologyLabRows of that table, in that order.
- MedicalOrders.EnrichTest: a failing catalogue query gives the same name as "not found", and is modelled as not found.
- MedicalOrders.BuildTest: likewise, a failing catalogue query in order creation is modelled as not found.
- `getStatuses` (queue) returns a constant copy and is not modelled.
- `getAllowedStatuses` is modelled by Appointments.AllowedStatuses.
- Controllers, routes, Swagger, seed and migration scripts are not part of this model.
- The diagnostic, notification, patient and medical-record services outside the seven core files are not part of this model.

## Findings

| source | as written | input that shows it | evidently intended | confidence | as-written member | corrected member |
|---|---|---|---|---|---|---|
| src/services/medicalOrderService.js:498-506 | the JSON fallback of `getOrdersByPatient` sorts the collected orders and then ends without a `return`, so the call resolves to `undefined` | no `MedicalOrder` rows for patient 5, and one medical record of patient 5 holding one order: the fallback collects that order (MedicalOrders.FallbackHasOrdersToReturn), yet the call yields no list | page the sorted orders with `slice(offset, offset + limit)` and return them, as `getAllOrders` does at lines 623-631 | high (not executed) | MedicalOrders.MedicalOrderService.GetOrdersByPatientAsWritten | MedicalOrders.MedicalOrderService.GetOrdersByPatient |
