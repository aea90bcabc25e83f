/**
 * `api/create-booking.js`: creates the client first when no client id is
 * given but a name and an email are, then creates the appointment with a
 * notes string built from the request.
 */
module CreateBooking {
  import opened Js
  import opened Boulevard
  import opened Http

  /** The fields of the request body the handler reads. */
  datatype BookingForm = BookingForm(
    clientId: Option<string>, firstName: Option<string>, lastName: Option<string>,
    email: Option<string>, phone: Option<string>, treatmentType: Option<string>,
    locationId: Option<string>, staffId: Option<string>, startTime: Option<string>,
    isFlexible: bool)

  const TreatmentLabel := "Treatment requested: "
  const StaffLabel := ", Preferred staff: "
  const FlexibleNote := ", Flexible timing"
  const FirstAvailable := "first-available"

  /** A staff member was asked for: the field is set and is not "first-available". */
  predicate PrefersStaff(staffId: Option<string>) {
    Truthy(staffId) && staffId.value != FirstAvailable
  }

  /** The appointment notes. */
  function Notes(treatmentType: Option<string>, staffId: Option<string>, isFlexible: bool): string {
    TreatmentLabel + Render(treatmentType)
    + (if PrefersStaff(staffId) then StaffLabel + staffId.value else "")
    + (if isFlexible then FlexibleNote else "")
  }

  /** The notes begin with the treatment, hold the staff segment right after
      it when a staff member is preferred, end with the flexible-timing
      remark when asked, and have the length of these parts. (The converses
      fail: free-text fields can contain the labels themselves.) */
  lemma NotesShape(treatmentType: Option<string>, staffId: Option<string>, isFlexible: bool)
    ensures var n := Notes(treatmentType, staffId, isFlexible);
      StartsWith(n, TreatmentLabel + Render(treatmentType))
      && |n| == |TreatmentLabel| + |Render(treatmentType)|
                + (if PrefersStaff(staffId) then |StaffLabel| + |staffId.value| else 0)
                + (if isFlexible then |FlexibleNote| else 0)
    ensures var n := Notes(treatmentType, staffId, isFlexible);
      isFlexible ==> n[|n| - |FlexibleNote|..] == FlexibleNote
    ensures var n := Notes(treatmentType, staffId, isFlexible);
      PrefersStaff(staffId) ==>
        var at := |TreatmentLabel| + |Render(treatmentType)|;
        n[at..at + |StaffLabel| + |staffId.value|] == StaffLabel + staffId.value
    ensures !PrefersStaff(staffId) && !isFlexible ==>
              Notes(treatmentType, staffId, isFlexible) == TreatmentLabel + Render(treatmentType)
  {
    var head := TreatmentLabel + Render(treatmentType);
    var staff := if PrefersStaff(staffId) then StaffLabel + staffId.value else "";
    var flex := if isFlexible then FlexibleNote else "";
    var n := Notes(treatmentType, staffId, isFlexible);
    assert n == head + staff + flex;
    assert n[..|head|] == head;
    assert n[|head|..|head| + |staff|] == staff;
    assert n[|n| - |flex|..] == flex;
  }

  /** "first-available", an empty field and a missing one give the same notes. */
  lemma FirstAvailableIsNoPreference(treatmentType: Option<string>, isFlexible: bool)
    ensures Notes(treatmentType, Some(FirstAvailable), isFlexible) == Notes(treatmentType, None, isFlexible)
    ensures Notes(treatmentType, Some(""), isFlexible) == Notes(treatmentType, None, isFlexible)
  {
  }

  /** With the treatment and the flexibility fixed, the notes name the preferred staff member. */
  lemma NotesDetermineStaff(treatmentType: Option<string>, s1: string, s2: string, isFlexible: bool)
    requires PrefersStaff(Some(s1)) && PrefersStaff(Some(s2))
    requires Notes(treatmentType, Some(s1), isFlexible) == Notes(treatmentType, Some(s2), isFlexible)
    ensures s1 == s2
  {
    var front := TreatmentLabel + Render(treatmentType);
    var flex := if isFlexible then FlexibleNote else "";
    assert front + (StaffLabel + s1) + flex == front + (StaffLabel + s2) + flex;
    CancelAround(front, StaffLabel + s1, StaffLabel + s2, flex);
    assert s1 == (StaffLabel + s1)[|StaffLabel|..];
  }

  /** A client is created first: no client id, and a first name, a last name and an email. */
  predicate NeedsClient(form: BookingForm) {
    !Truthy(form.clientId) && Truthy(form.firstName) && Truthy(form.lastName) && Truthy(form.email)
  }

  /** The client-creating mutation (the phone is sent as given). */
  function ClientCall(env: Option<string>, form: BookingForm): Call
    requires NeedsClient(form)
  {
    Call(AdminApi, KeyOnlyAuth(EnvApiKey(env)),
         CreateClient(form.firstName.value, form.lastName.value, form.email.value, form.phone))
  }

  /** What the handler does next after the client-creating reply: go on with
      the new client's id, or answer. */
  datatype Step = Proceed(clientId: string) | Halt(response: Response)

  function AfterClient(reply: Reply): (s: Step)
    ensures ReplyFailure(reply).Some? ==> s == Halt(ReplyFailure(reply).value)
    ensures ReplyFailure(reply).None? && reply.data.ClientCreated? ==> s == Proceed(reply.data.client.id)
    ensures ReplyFailure(reply).None? && !reply.data.ClientCreated? ==> s == Halt(InternalError)
  {
    if ReplyFailure(reply).Some? then Halt(ReplyFailure(reply).value)
    else if reply.data.ClientCreated? then Proceed(reply.data.client.id)
    else Halt(InternalError)
  }

  /** `appointmentInput` for a chosen client id. */
  function AppointmentFor(form: BookingForm, clientId: Option<string>): AppointmentInput {
    AppointmentInput(clientId, form.locationId, form.startTime, Notes(form.treatmentType, form.staffId, form.isFlexible))
  }

  /** The appointment-creating mutation. */
  function AppointmentCall(env: Option<string>, form: BookingForm, clientId: Option<string>): Call {
    Call(AdminApi, KeyOnlyAuth(EnvApiKey(env)), CreateAppointment(AppointmentFor(form, clientId)))
  }

  const Submitted := "Appointment request submitted successfully"

  /** The handler's answer to the appointment-creating reply. */
  function BookingAnswer(reply: Reply): (r: Response)
    ensures ReplyFailure(reply).Some? ==> r == ReplyFailure(reply).value
    ensures ReplyFailure(reply).None? && reply.data.AppointmentCreated? ==>
              r == Response(200, BookingCreated(true, reply.data.appointment, Submitted))
    ensures ReplyFailure(reply).None? && !reply.data.AppointmentCreated? ==> r == InternalError
  {
    if ReplyFailure(reply).Some? then ReplyFailure(reply).value
    else if reply.data.AppointmentCreated? then Response(200, BookingCreated(true, reply.data.appointment, Submitted))
    else InternalError
  }

  /** The handler, with `BOULEVARD_API_KEY` as `env`. The appointment goes to
      the given client id, or to the created client's; a failed client
      creation answers without creating an appointment. */
  method CreateBookingHandler(verb: string, env: Option<string>, form: BookingForm, upstream: Call -> Reply)
    returns (ex: Exchange)
    ensures MethodGate(verb).Some? ==> ex == Exchange([], MethodGate(verb).value)
    ensures MethodGate(verb).None? && !NeedsClient(form) ==>
              ex.calls == [AppointmentCall(env, form, form.clientId)]
              && ex.response == BookingAnswer(upstream(ex.calls[0]))
    ensures MethodGate(verb).None? && NeedsClient(form) ==>
              && |ex.calls| >= 1 && ex.calls[0] == ClientCall(env, form)
              && match AfterClient(upstream(ClientCall(env, form)))
                 case Halt(response) => ex == Exchange([ClientCall(env, form)], response)
                 case Proceed(id) =>
                   ex.calls == [ClientCall(env, form), AppointmentCall(env, form, Some(id))]
                   && ex.response == BookingAnswer(upstream(ex.calls[1]))
  {
    var gate := MethodGate(verb);
    if gate.Some? {
      return Exchange([], gate.value);
    }
    var calls: seq<Call> := [];
    var finalClientId := form.clientId;
    if NeedsClient(form) {
      var call := ClientCall(env, form);
      calls := calls + [call];
      match AfterClient(upstream(call)) {
        case Halt(response) =>
          return Exchange(calls, response);
        case Proceed(id) =>
          finalClientId := Some(id);
      }
    }
    var call := AppointmentCall(env, form, finalClientId);
    calls := calls + [call];
    return Exchange(calls, BookingAnswer(upstream(call)));
  }

  /** The appointment copies the location and start time and carries the notes. */
  lemma AppointmentCopiesForm(form: BookingForm, clientId: Option<string>)
    ensures var input := AppointmentFor(form, clientId);
      input.clientId == clientId && input.locationId == form.locationId && input.startAt == form.startTime
      && StartsWith(input.notes, TreatmentLabel + Render(form.treatmentType))
  {
    NotesShape(form.treatmentType, form.staffId, form.isFlexible);
  }
}
