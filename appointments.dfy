/** The appointment scheduler of `AppointmentService`: working hours,
    half-open overlap detection, the 12-hour modification cutoff, and the
    guard order of create, update and cancel.

    An instant is a whole number of minutes on the server's local clock, so
    its calendar day is `t / 1440` and its time of day `t % 1440`. The
    current time is the `now` argument. The store keeps only an
    appointment's start; every stored appointment is taken to last 30
    minutes. An argument that JavaScript would find falsy is 0 (numbers),
    "" (strings) or None (the date). */
module Appointments {
  import opened Wrappers

  const WorkStartHour := 8
  const WorkEndHour := 18
  const DefaultSlotMinutes := 30
  const ModificationCutoffHours := 12
  const MinutesPerDay := 1440

  const Pendiente := "PENDIENTE"
  const Confirmada := "CONFIRMADA"
  const Cancelada := "CANCELADA"
  const Completada := "COMPLETADA"

  datatype Appointment = Appointment(
    id: nat,
    userId: int,
    doctorId: int,
    date: int,
    reason: string,
    status: string)

  datatype CreateRequest = CreateRequest(
    userId: int,
    doctorId: int,
    date: Option<int>,
    durationMinutes: int,
    reason: string,
    status: string)

  datatype UpdateRequest = UpdateRequest(
    date: Option<int>,
    durationMinutes: int,
    reason: string,
    status: string,
    doctorId: int)

  datatype AppointmentError =
    | MissingFields        // 'userId, doctorId, date y reason son obligatorios'
    | OutsideWorkingHours  // 'La cita debe estar dentro del horario laboral (08:00 - 18:00)'
    | Overlap              // 'El médico no está disponible en ese horario (solapamiento)'
    | InvalidStatus        // 'Estado de cita inválido'
    | NotFound             // 'Cita no encontrada'
    | InsideCutoff         // 'Las citas solo pueden modificarse hasta 12 horas antes'

  // ---------------------------------------------------------------------
  // Time

  function Day(t: int): int { t / MinutesPerDay }

  function MinuteOfDay(t: int): int { t % MinutesPerDay }

  function AddMinutes(t: int, minutes: int): int { t + minutes }

  /** `isWithinWorkingHours(start, end)`: the same calendar day, and
      08:00 <= start < end <= 18:00 in hours-and-minutes of that day. */
  predicate IsWithinWorkingHours(start: int, end: int) {
    && Day(start) == Day(end)
    && MinuteOfDay(start) >= WorkStartHour * 60
    && MinuteOfDay(end) <= WorkEndHour * 60
    && MinuteOfDay(end) > MinuteOfDay(start)
  }

  /** `hoursUntil(date)`: hours from now until `date`, as a fraction. */
  function HoursUntil(date: int, now: int): real {
    (date - now) as real / 60.0
  }

  /** `computeEnd(start, durationMinutes)`: an absent or zero duration is 30 minutes. */
  function ComputeEnd(start: int, durationMinutes: int): int {
    AddMinutes(start, if durationMinutes == 0 then DefaultSlotMinutes else durationMinutes)
  }

  // ---------------------------------------------------------------------
  // Statuses

  /** `getAllowedStatuses()`. */
  function AllowedStatuses(): (r: seq<string>)
    ensures |r| == 4
    ensures forall s :: s in r <==> s == Pendiente || s == Confirmada || s == Cancelada || s == Completada
  {
    [Pendiente, Confirmada, Cancelada, Completada]
  }

  predicate IsAllowedStatus(s: string) {
    s in AllowedStatuses()
  }

  /** The overlap query leaves out appointments cancelled in either language. */
  predicate IsActive(a: Appointment) {
    a.status != "CANCELLED" && a.status != Cancelada
  }

  // ---------------------------------------------------------------------
  // Overlap

  /** An existing appointment is fetched by the overlap query: same doctor,
      a start on the day of `start`, not cancelled. */
  predicate IsCandidate(a: Appointment, doctorId: int, start: int) {
    a.doctorId == doctorId && Day(a.date) == Day(start) && IsActive(a)
  }

  /** The `some` test of `hasOverlap`: not the ignored appointment, and the
      half-open intervals [start, end) and [a.date, a.date + 30) meet. */
  predicate Conflicts(a: Appointment, start: int, end: int, ignoreId: int) {
    !(ignoreId != 0 && a.id == ignoreId)
    && start < AddMinutes(a.date, DefaultSlotMinutes) && end > a.date
  }

  /** `hasOverlap(doctorId, start, end, ignoreAppointmentId)`. */
  function HasOverlap(appts: seq<Appointment>, doctorId: int, start: int, end: int, ignoreId: int): (r: bool)
    ensures r <==> exists i :: 0 <= i < |appts| && IsCandidate(appts[i], doctorId, start) && Conflicts(appts[i], start, end, ignoreId)
  {
    if appts == [] then false
    else
      var rest := HasOverlap(appts[1..], doctorId, start, end, ignoreId);
      assert rest <==> exists i :: 1 <= i < |appts| && IsCandidate(appts[i], doctorId, start) && Conflicts(appts[i], start, end, ignoreId) by {
        forall i | 1 <= i < |appts| ensures appts[i] == appts[1..][i - 1] { }
      }
      (IsCandidate(appts[0], doctorId, start) && Conflicts(appts[0], start, end, ignoreId)) || rest
  }

  /** The index of the appointment with a given id. */
  function IndexOfId(appts: seq<Appointment>, id: int): (r: Option<nat>)
    ensures r.Some? ==> r.value < |appts| && appts[r.value].id == id
    ensures r.None? ==> forall j :: 0 <= j < |appts| ==> appts[j].id != id
  {
    if appts == [] then None
    else if appts[0].id == id then Some(0)
    else match IndexOfId(appts[1..], id)
      case None => None
      case Some(k) => Some(k + 1)
  }

  // ---------------------------------------------------------------------
  // Derived values of the requests

  predicate HasRequiredFields(req: CreateRequest) {
    req.userId != 0 && req.doctorId != 0 && req.date.Some? && req.reason != ""
  }

  /** `status || PENDIENTE`. */
  function CreateStatus(req: CreateRequest): string {
    if req.status == "" then Pendiente else req.status
  }

  /** The start an update checks: the new date, or the current one. */
  function UpdateStart(appt: Appointment, req: UpdateRequest): int {
    if req.date.Some? then req.date.value else appt.date
  }

  /** The doctor an update checks: the new doctor, or the current one. */
  function UpdateDoctor(appt: Appointment, req: UpdateRequest): int {
    if req.doctorId != 0 then req.doctorId else appt.doctorId
  }

  /** Fewer than 12 hours remain before the appointment's current start. */
  predicate IsInsideCutoff(appt: Appointment, now: int) {
    HoursUntil(appt.date, now) < ModificationCutoffHours as real
  }

  // ---------------------------------------------------------------------
  // The service

  class AppointmentService {
    var appointments: seq<Appointment>
    var nextId: nat

    /** Ids are positive and strictly increase along the table. */
    ghost predicate Valid()
      reads this
    {
      && nextId >= 1
      && (forall i :: 0 <= i < |appointments| ==> 1 <= appointments[i].id < nextId)
      && (forall i, j :: 0 <= i < j < |appointments| ==> appointments[i].id < appointments[j].id)
    }

    constructor ()
      ensures Valid() && appointments == [] && nextId == 1
    {
      appointments := [];
      nextId := 1;
    }

    /** `createAppointment(...)`: required fields, working hours, overlap,
        status, in that order; then one new row. */
    method CreateAppointment(req: CreateRequest) returns (r: Result<Appointment, AppointmentError>)
      requires Valid()
      modifies this
      ensures Valid()
      ensures r.Err? ==> appointments == old(appointments) && nextId == old(nextId)
      ensures !HasRequiredFields(req) ==> r == Err(MissingFields)
      ensures HasRequiredFields(req) ==>
        var start := req.date.value;
        var end := ComputeEnd(start, req.durationMinutes);
        && (!IsWithinWorkingHours(start, end) ==> r == Err(OutsideWorkingHours))
        && (IsWithinWorkingHours(start, end) && HasOverlap(old(appointments), req.doctorId, start, end, 0) ==>
              r == Err(Overlap))
        && (IsWithinWorkingHours(start, end) && !HasOverlap(old(appointments), req.doctorId, start, end, 0) ==>
              if !IsAllowedStatus(CreateStatus(req)) then r == Err(InvalidStatus)
              else
                var a := Appointment(old(nextId), req.userId, req.doctorId, start, req.reason, CreateStatus(req));
                r == Ok(a) && appointments == old(appointments) + [a] && nextId == old(nextId) + 1)
    {
      if req.userId == 0 || req.doctorId == 0 || req.date.None? || req.reason == "" {
        return Err(MissingFields);
      }
      var start := req.date.value;
      var end := ComputeEnd(start, req.durationMinutes);
      if !IsWithinWorkingHours(start, end) {
        return Err(OutsideWorkingHours);
      }
      if HasOverlap(appointments, req.doctorId, start, end, 0) {
        return Err(Overlap);
      }
      var newStatus := if req.status == "" then Pendiente else req.status;
      if !IsAllowedStatus(newStatus) {
        return Err(InvalidStatus);
      }
      var created := Appointment(nextId, req.userId, req.doctorId, start, req.reason, newStatus);
      appointments := appointments + [created];
      nextId := nextId + 1;
      r := Ok(created);
    }

    /** `updateAppointment(id, {...})`: existence, cutoff, working hours,
        overlap (excluding itself), status; then a partial update. */
    method UpdateAppointment(appointmentId: int, req: UpdateRequest, now: int)
      returns (r: Result<Appointment, AppointmentError>)
      requires Valid()
      modifies this
      ensures Valid() && nextId == old(nextId)
      ensures r.Err? ==> appointments == old(appointments)
      ensures IndexOfId(old(appointments), appointmentId).None? ==> r == Err(NotFound)
      ensures IndexOfId(old(appointments), appointmentId).Some? ==>
        var i := IndexOfId(old(appointments), appointmentId).value;
        var appt := old(appointments)[i];
        var start := UpdateStart(appt, req);
        var end := ComputeEnd(start, req.durationMinutes);
        var doctor := UpdateDoctor(appt, req);
        && (IsInsideCutoff(appt, now) ==> r == Err(InsideCutoff))
        && (!IsInsideCutoff(appt, now) && !IsWithinWorkingHours(start, end) ==> r == Err(OutsideWorkingHours))
        && ((!IsInsideCutoff(appt, now) && IsWithinWorkingHours(start, end) &&
             HasOverlap(old(appointments), doctor, start, end, appt.id)) ==> r == Err(Overlap))
        && ((!IsInsideCutoff(appt, now) && IsWithinWorkingHours(start, end) &&
             !HasOverlap(old(appointments), doctor, start, end, appt.id)) ==>
              if req.status != "" && !IsAllowedStatus(req.status) then r == Err(InvalidStatus)
              else
                var updated := Appointment(appt.id, appt.userId, doctor, start,
                  if req.reason != "" then req.reason else appt.reason,
                  if req.status != "" then req.status else appt.status);
                r == Ok(updated) && appointments == old(appointments)[i := updated])
    {
      var found := IndexOfId(appointments, appointmentId);
      if found.None? {
        return Err(NotFound);
      }
      var i := found.value;
      var appt := appointments[i];
      if HoursUntil(appt.date, now) < ModificationCutoffHours as real {
        return Err(InsideCutoff);
      }
      var start := if req.date.Some? then req.date.value else appt.date;
      var end := ComputeEnd(start, req.durationMinutes);
      if !IsWithinWorkingHours(start, end) {
        return Err(OutsideWorkingHours);
      }
      var targetDoctorId := if req.doctorId != 0 then req.doctorId else appt.doctorId;
      if HasOverlap(appointments, targetDoctorId, start, end, appt.id) {
        return Err(Overlap);
      }
      var data := appt;
      if req.date.Some? { data := data.(date := start); }
      if req.reason != "" { data := data.(reason := req.reason); }
      if req.doctorId != 0 { data := data.(doctorId := targetDoctorId); }
      if req.status != "" {
        if !IsAllowedStatus(req.status) {
          return Err(InvalidStatus);
        }
        data := data.(status := req.status);
      }
      appointments := appointments[i := data];
      r := Ok(data);
    }

    /** `cancelAppointment(id)`: existence, cutoff; then status CANCELADA. */
    method CancelAppointment(appointmentId: int, now: int) returns (r: Result<Appointment, AppointmentError>)
      requires Valid()
      modifies this
      ensures Valid() && nextId == old(nextId)
      ensures r.Err? ==> appointments == old(appointments)
      ensures IndexOfId(old(appointments), appointmentId).None? ==> r == Err(NotFound)
      ensures IndexOfId(old(appointments), appointmentId).Some? ==>
        var i := IndexOfId(old(appointments), appointmentId).value;
        var appt := old(appointments)[i];
        && (IsInsideCutoff(appt, now) ==> r == Err(InsideCutoff))
        && (!IsInsideCutoff(appt, now) ==>
              r == Ok(appt.(status := Cancelada)) && appointments == old(appointments)[i := appt.(status := Cancelada)])
    {
      var found := IndexOfId(appointments, appointmentId);
      if found.None? {
        return Err(NotFound);
      }
      var i := found.value;
      var appt := appointments[i];
      if HoursUntil(appt.date, now) < ModificationCutoffHours as real {
        return Err(InsideCutoff);
      }
      var cancelled := appt.(status := Cancelada);
      appointments := appointments[i := cancelled];
      r := Ok(cancelled);
    }
  }

  // ---------------------------------------------------------------------
  // Properties

  /** Working hours in plain terms: one day, start at or after 08:00, end at
      or before 18:00, end after start. */
  lemma WorkingHoursMeaning(start: int, end: int)
    ensures IsWithinWorkingHours(start, end) <==>
      && start / 1440 == end / 1440
      && 480 <= start % 1440
      && end % 1440 <= 1080
      && start < end
  {
    if start / 1440 == end / 1440 {
      assert end - start == end % 1440 - start % 1440;
    }
  }

  /** The cutoff compares whole minutes: fewer than 720 remain. */
  lemma CutoffInMinutes(appt: Appointment, now: int)
    ensures IsInsideCutoff(appt, now) <==> appt.date - now < 720
  {
  }

  /** An appointment that ends exactly when an existing one starts, or starts
      exactly when it ends, does not conflict with it. */
  lemma TouchingSlotsDoNotConflict(a: Appointment, start: int, end: int, ignoreId: int)
    requires end == a.date || start == a.date + DefaultSlotMinutes
    requires start < end
    ensures !Conflicts(a, start, end, ignoreId)
  {
  }

  /** Two starts within working hours that are less than 30 minutes apart
      fall on the same day. */
  lemma CloseStartsShareDay(x: int, y: int)
    requires 480 <= x % 1440 < 1080 && 480 <= y % 1440 < 1080
    requires x - 30 < y < x + 30
    ensures Day(x) == Day(y)
  {
    var qx, qy := x / 1440, y / 1440;
    assert x == 1440 * qx + x % 1440;
    assert y == 1440 * qy + y % 1440;
    assert qx < qy ==> 1440 * qx + 1440 <= 1440 * qy;
    assert qy < qx ==> 1440 * qy + 1440 <= 1440 * qx;
  }

  /** Stored appointments as the overlap check sees them: active ones of the
      same doctor whose 30-minute slots intersect. */
  predicate Clash(a: Appointment, b: Appointment) {
    a.doctorId == b.doctorId && IsActive(a) && IsActive(b)
    && a.date < b.date + DefaultSlotMinutes && b.date < a.date + DefaultSlotMinutes
  }

  /** Every stored start lies in working hours. */
  predicate StartsInHours(appts: seq<Appointment>) {
    forall i :: 0 <= i < |appts| ==> 480 <= MinuteOfDay(appts[i].date) < 1080
  }

  /** No two stored appointments of one doctor occupy intersecting slots. */
  predicate NoDoubleBooking(appts: seq<Appointment>) {
    forall i, j :: 0 <= i < |appts| && 0 <= j < |appts| && i != j ==> !Clash(appts[i], appts[j])
  }

  /** A slot that passes the working-hours and overlap checks, and lasts at
      least the stored 30 minutes, clashes with no stored appointment other
      than the ignored one. */
  lemma AcceptedSlotIsFree(appts: seq<Appointment>, a: Appointment, end: int, ignoreId: int)
    requires StartsInHours(appts)
    requires IsWithinWorkingHours(a.date, end) && end >= a.date + DefaultSlotMinutes
    requires !HasOverlap(appts, a.doctorId, a.date, end, ignoreId)
    ensures forall j :: 0 <= j < |appts| && !(ignoreId != 0 && appts[j].id == ignoreId) ==> !Clash(a, appts[j])
  {
    forall j | 0 <= j < |appts| && !(ignoreId != 0 && appts[j].id == ignoreId)
      ensures !Clash(a, appts[j])
    {
      var b := appts[j];
      if Clash(a, b) {
        CloseStartsShareDay(a.date, b.date);
        assert IsCandidate(b, a.doctorId, a.date) && Conflicts(b, a.date, end, ignoreId);
        assert false;
      }
    }
  }

  /** Creating an accepted appointment of at least 30 minutes keeps the
      table free of double bookings. */
  lemma CreateKeepsNoDoubleBooking(appts: seq<Appointment>, a: Appointment, durationMinutes: int)
    requires NoDoubleBooking(appts) && StartsInHours(appts)
    requires durationMinutes == 0 || durationMinutes >= DefaultSlotMinutes
    requires IsWithinWorkingHours(a.date, ComputeEnd(a.date, durationMinutes))
    requires !HasOverlap(appts, a.doctorId, a.date, ComputeEnd(a.date, durationMinutes), 0)
    ensures NoDoubleBooking(appts + [a]) && StartsInHours(appts + [a])
  {
    AcceptedSlotIsFree(appts, a, ComputeEnd(a.date, durationMinutes), 0);
    var s := appts + [a];
    forall i, j | 0 <= i < |s| && 0 <= j < |s| && i != j
      ensures !Clash(s[i], s[j])
    {
      if i == |appts| {
        assert !Clash(a, s[j]);
      } else if j == |appts| {
        assert !Clash(a, s[i]);
      } else {
        assert s[i] == appts[i] && s[j] == appts[j];
      }
    }
  }

  /** Rescheduling an appointment through an accepted update of at least 30
      minutes keeps the table free of double bookings, given unique ids. */
  lemma UpdateKeepsNoDoubleBooking(appts: seq<Appointment>, i: nat, b: Appointment, durationMinutes: int)
    requires NoDoubleBooking(appts) && StartsInHours(appts)
    requires forall j, k :: 0 <= j < k < |appts| ==> appts[j].id < appts[k].id
    requires i < |appts| && b.id == appts[i].id && b.id != 0
    requires durationMinutes == 0 || durationMinutes >= DefaultSlotMinutes
    requires IsWithinWorkingHours(b.date, ComputeEnd(b.date, durationMinutes))
    requires !HasOverlap(appts, b.doctorId, b.date, ComputeEnd(b.date, durationMinutes), b.id)
    ensures NoDoubleBooking(appts[i := b]) && StartsInHours(appts[i := b])
  {
    AcceptedSlotIsFree(appts, b, ComputeEnd(b.date, durationMinutes), b.id);
    var s := appts[i := b];
    forall j, k | 0 <= j < |s| && 0 <= k < |s| && j != k
      ensures !Clash(s[j], s[k])
    {
      if j == i {
        assert appts[k].id != b.id;
        assert !Clash(b, s[k]);
      } else if k == i {
        assert appts[j].id != b.id;
        assert !Clash(b, s[j]);
      } else {
        assert s[j] == appts[j] && s[k] == appts[k];
      }
    }
  }

  /** Cancelling keeps the table free of double bookings. */
  lemma CancelKeepsNoDoubleBooking(appts: seq<Appointment>, i: nat)
    requires NoDoubleBooking(appts) && StartsInHours(appts) && i < |appts|
    ensures NoDoubleBooking(appts[i := appts[i].(status := Cancelada)])
    ensures StartsInHours(appts[i := appts[i].(status := Cancelada)])
  {
    var s := appts[i := appts[i].(status := Cancelada)];
    forall j, k | 0 <= j < |s| && 0 <= k < |s| && j != k
      ensures !Clash(s[j], s[k])
    {
      if j != i && k != i {
        assert s[j] == appts[j] && s[k] == appts[k];
      }
    }
  }

  /** The same doctor and slot booked twice: the second request overlaps the first. */
  lemma SameSlotTwiceOverlaps(appts: seq<Appointment>, a: Appointment, end: int)
    requires IsActive(a) && a.date < end
    ensures HasOverlap(appts + [a], a.doctorId, a.date, end, 0)
  {
    var s := appts + [a];
    assert IsCandidate(s[|appts|], a.doctorId, a.date) && Conflicts(s[|appts|], a.date, end, 0);
  }

  /** A booking of doctor 7 at 10:00 (30 minutes): 10:15 overlaps it, the
      adjacent 10:30 does not, and 07:30 lies outside working hours. */
  lemma BookingScenario(day: int)
    ensures var first := Appointment(1, 1, 7, day * 1440 + 600, "Control", Pendiente);
      && HasOverlap([first], 7, day * 1440 + 615, day * 1440 + 645, 0)
      && !HasOverlap([first], 7, day * 1440 + 630, day * 1440 + 660, 0)
      && !IsWithinWorkingHours(day * 1440 + 450, day * 1440 + 480)
  {
    var first := Appointment(1, 1, 7, day * 1440 + 600, "Control", Pendiente);
    assert Day(day * 1440 + 615) == day && Day(day * 1440 + 600) == day;
    assert IsCandidate(first, 7, day * 1440 + 615) && Conflicts(first, day * 1440 + 615, day * 1440 + 645, 0);
    assert MinuteOfDay(day * 1440 + 450) == 450;
  }

  /** Existing appointments are taken to last 30 minutes whatever their
      requested duration: a one-hour booking at 10:00 does not stop a
      booking at 10:30 for the same doctor. */
  lemma LongBookingIsNotProtected(day: int)
    ensures var first := Appointment(1, 1, 7, day * 1440 + 600, "Control", Pendiente);
      && IsWithinWorkingHours(day * 1440 + 600, ComputeEnd(day * 1440 + 600, 60))
      && !HasOverlap([first], 7, day * 1440 + 630, ComputeEnd(day * 1440 + 630, 30), 0)
  {
    assert Day(day * 1440 + 660) == day && MinuteOfDay(day * 1440 + 660) == 660;
    assert MinuteOfDay(day * 1440 + 600) == 600;
  }

  /** A booking shorter than 30 minutes is accepted next to a stored one
      whose 30-minute slot it does not reach, yet the two stored slots then
      clash: a 10-minute booking at 10:00 beside one at 10:15. */
  lemma ShortBookingBreaksNoDoubleBooking(day: int)
    ensures var first := Appointment(1, 1, 7, day * 1440 + 615, "Control", Pendiente);
      var second := Appointment(2, 2, 7, day * 1440 + 600, "Control", Pendiente);
      && NoDoubleBooking([first])
      && IsWithinWorkingHours(second.date, ComputeEnd(second.date, 10))
      && !HasOverlap([first], 7, second.date, ComputeEnd(second.date, 10), 0)
      && !NoDoubleBooking([first, second])
  {
    var first := Appointment(1, 1, 7, day * 1440 + 615, "Control", Pendiente);
    var second := Appointment(2, 2, 7, day * 1440 + 600, "Control", Pendiente);
    assert Day(day * 1440 + 610) == day && MinuteOfDay(day * 1440 + 610) == 610;
    assert MinuteOfDay(day * 1440 + 600) == 600;
    assert Clash([first, second][0], [first, second][1]);
  }
}
