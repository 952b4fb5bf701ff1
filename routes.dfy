/**
 * The four `/api/user_appointment` handlers. Each is given twice: as a function
 * from the tables before the request to the reply and the tables after it
 * (`List`, `Create`, `Update`, `Delete`), and as a method of `AppointmentStore`,
 * which changes the rows in place the way the handler does and is proved to
 * agree with the function.
 *
 * The authenticated caller is named by the bearer token that `token_required`
 * resolved to a user; the handlers are only reached with such a token, hence the
 * `UserIndex(…, caller).Some?` preconditions.
 */
module Routes {
  import opened Wrappers
  import opened DateFormat
  import opened Models
  import opened Store

  // ---------------------------------------------------------------- requests and replies

  /** The JSON body of a POST; only `additional_notes` may be missing. */
  datatype CreateRequest = CreateRequest(
    firstName: string,
    lastName: string,
    email: string,
    phoneNumber: string,
    vehicleType: string,
    additionalNotes: Option<string>,
    appointmentDate: string)

  /** The JSON body of a PUT; every key may be missing. */
  datatype UpdateRequest = UpdateRequest(
    firstName: Option<string>,
    lastName: Option<string>,
    email: Option<string>,
    phoneNumber: Option<string>,
    vehicleType: Option<string>,
    additionalNotes: Option<string>,
    appointmentDate: Option<string>)

  /** The patch that sends no key at all. */
  const EmptyPatch := UpdateRequest(None, None, None, None, None, None, None)

  /** One object of the GET listing: the appointment with its owner's profile. */
  datatype Listed = Listed(
    id: string,
    vehicleType: string,
    appointmentDate: DateTime,
    additionalNotes: string,
    firstName: string,
    lastName: string,
    email: string,
    phoneNumber: string)

  /** The reply of a POST, PUT or DELETE. `BadDate` carries the text strptime refused. */
  datatype Reply =
    | Created(view: PublicAppointment)
    | Updated(view: PublicAppointment)
    | Deleted
    | NotFound
    | BadDate(input: string)
    | StoreError

  /** The HTTP status each reply is sent with; a failed commit surfaces as a server error. */
  function Status(r: Reply): int {
    match r
    case Created(_) => 201
    case Updated(_) => 200
    case Deleted => 200
    case NotFound => 404
    case BadDate(_) => 400
    case StoreError => 500
  }

  /** A reply together with the tables once the request is over. */
  datatype Transition = Transition(reply: Reply, after: Tables)

  // ---------------------------------------------------------------- specification

  function Entry(a: Appointment, u: User): Listed {
    Listed(a.id, a.vehicleType, a.appointmentDate, a.additionalNotes,
           u.firstName, u.lastName, u.email, u.phoneNumber)
  }

  /** The entry for `a`, with the profile of the first user holding `a`'s owner token. */
  function EntryOf(users: seq<User>, a: Appointment): Listed
    requires UserIndex(users, a.customerToken).Some?
  {
    Entry(a, users[UserIndex(users, a.customerToken).value])
  }

  /** GET: the caller's appointments in table order, each with its owner's profile. */
  function List(t: Tables, caller: string): seq<Listed>
    requires UserIndex(t.users, caller).Some?
  {
    var owned := OwnedBy(t.appointments, caller);
    seq(|owned|, i requires 0 <= i < |owned| => EntryOf(t.users, owned[i]))
  }

  /** The four profile fields a POST or PUT writes over. */
  function WithProfile(u: User, firstName: string, lastName: string, email: string, phoneNumber: string): User {
    u.(firstName := firstName, lastName := lastName, email := email, phoneNumber := phoneNumber)
  }

  /**
   * POST. `freshId` stands for the `secrets.token_urlsafe()` the new row draws for its
   * id; should it collide with a stored id, the commit fails and nothing is written.
   */
  function Create(t: Tables, caller: string, req: CreateRequest, freshId: string): Transition
    requires UserIndex(t.users, caller).Some?
  {
    match ParseDate(req.appointmentDate)
    case None => Transition(BadDate(req.appointmentDate), t)
    case Some(d) =>
      var k := UserIndex(t.users, caller).value;
      var a := NewAppointment(req.vehicleType, req.additionalNotes.GetOr(""), d, caller, "", freshId);
      if AppointmentIndex(t.appointments, a.id).Some? then Transition(StoreError, t)
      else
        var u := WithProfile(t.users[k], req.firstName, req.lastName, req.email, req.phoneNumber);
        Transition(Created(PublicView(a)), Tables(t.users[k := u], t.appointments + [a]))
  }

  /**
   * PUT. A missing key keeps the stored value; a missing date is the stored date
   * printed by strftime, which is then parsed again like a sent one.
   */
  function Update(t: Tables, caller: string, id: string, req: UpdateRequest): Transition
    requires UserIndex(t.users, caller).Some? && DatesValid(t.appointments)
  {
    match OwnedIndex(t.appointments, id, caller)
    case None => Transition(NotFound, t)
    case Some(i) =>
      var a := t.appointments[i];
      var dateText := req.appointmentDate.GetOr(FormatDate(a.appointmentDate));
      match ParseDate(dateText)
      case None => Transition(BadDate(dateText), t)
      case Some(d) =>
        var k := UserIndex(t.users, caller).value;
        var u := t.users[k];
        var u' := WithProfile(u, req.firstName.GetOr(u.firstName), req.lastName.GetOr(u.lastName),
                              req.email.GetOr(u.email), req.phoneNumber.GetOr(u.phoneNumber));
        var a' := a.(vehicleType := req.vehicleType.GetOr(a.vehicleType),
                     additionalNotes := req.additionalNotes.GetOr(a.additionalNotes),
                     appointmentDate := d);
        Transition(Updated(PublicView(a')), Tables(t.users[k := u'], t.appointments[i := a']))
  }

  /** DELETE. */
  function Delete(t: Tables, caller: string, id: string): Transition {
    match OwnedIndex(t.appointments, id, caller)
    case None => Transition(NotFound, t)
    case Some(i) => Transition(Deleted, Tables(t.users, t.appointments[..i] + t.appointments[i + 1..]))
  }

  // ---------------------------------------------------------------- what a successful request writes

  /** The tables after a POST whose date parses and whose drawn id is free. */
  lemma CreateWrites(t: Tables, caller: string, req: CreateRequest, freshId: string) returns (k: nat, a: Appointment)
    requires UserIndex(t.users, caller).Some?
    requires ParseDate(req.appointmentDate).Some? && AppointmentIndex(t.appointments, freshId).None?
    ensures k == UserIndex(t.users, caller).value && k < |t.users|
    ensures a == NewAppointment(req.vehicleType, req.additionalNotes.GetOr(""), ParseDate(req.appointmentDate).value, caller, "", freshId)
    ensures Create(t, caller, req, freshId)
         == Transition(Created(PublicView(a)),
                       Tables(t.users[k := WithProfile(t.users[k], req.firstName, req.lastName, req.email, req.phoneNumber)],
                              t.appointments + [a]))
  {
    k := UserIndex(t.users, caller).value;
    a := NewAppointment(req.vehicleType, req.additionalNotes.GetOr(""), ParseDate(req.appointmentDate).value, caller, "", freshId);
  }

  /** The tables after a PUT that finds the appointment and whose date parses. */
  lemma UpdateWrites(t: Tables, caller: string, id: string, req: UpdateRequest) returns (i: nat, k: nat, d: DateTime)
    requires UserIndex(t.users, caller).Some? && DatesValid(t.appointments)
    requires OwnedIndex(t.appointments, id, caller).Some?
    requires ParseDate(req.appointmentDate.GetOr(FormatDate(t.appointments[OwnedIndex(t.appointments, id, caller).value].appointmentDate))).Some?
    ensures i == OwnedIndex(t.appointments, id, caller).value && i < |t.appointments|
    ensures k == UserIndex(t.users, caller).value && k < |t.users|
    ensures Some(d) == ParseDate(req.appointmentDate.GetOr(FormatDate(t.appointments[i].appointmentDate)))
    ensures var a, u := t.appointments[i], t.users[k];
            var u' := WithProfile(u, req.firstName.GetOr(u.firstName), req.lastName.GetOr(u.lastName),
                                  req.email.GetOr(u.email), req.phoneNumber.GetOr(u.phoneNumber));
            var a' := a.(vehicleType := req.vehicleType.GetOr(a.vehicleType),
                         additionalNotes := req.additionalNotes.GetOr(a.additionalNotes),
                         appointmentDate := d);
            Update(t, caller, id, req) == Transition(Updated(PublicView(a')), Tables(t.users[k := u'], t.appointments[i := a']))
  {
    i := OwnedIndex(t.appointments, id, caller).value;
    k := UserIndex(t.users, caller).value;
    d := ParseDate(req.appointmentDate.GetOr(FormatDate(t.appointments[i].appointmentDate))).value;
  }

  // ---------------------------------------------------------------- the constraints survive

  lemma CreateKeepsConsistent(t: Tables, caller: string, req: CreateRequest, freshId: string)
    requires Consistent(t) && UserIndex(t.users, caller).Some?
    ensures Consistent(Create(t, caller, req, freshId).after)
  {
    var parsed := ParseDate(req.appointmentDate);
    if parsed.Some? {
      var k := UserIndex(t.users, caller).value;
      var a := NewAppointment(req.vehicleType, req.additionalNotes.GetOr(""), parsed.value, caller, "", freshId);
      if AppointmentIndex(t.appointments, a.id).None? {
        UserIndexFinds(t.users, caller);
        AppendKeepsConsistent(t, k, WithProfile(t.users[k], req.firstName, req.lastName, req.email, req.phoneNumber), a);
      }
    }
  }

  lemma UpdateKeepsConsistent(t: Tables, caller: string, id: string, req: UpdateRequest)
    requires Consistent(t) && UserIndex(t.users, caller).Some?
    ensures Consistent(Update(t, caller, id, req).after)
  {
    var found := OwnedIndex(t.appointments, id, caller);
    if found.Some? {
      var i := found.value;
      var a := t.appointments[i];
      var parsed := ParseDate(req.appointmentDate.GetOr(FormatDate(a.appointmentDate)));
      if parsed.Some? {
        var k := UserIndex(t.users, caller).value;
        var u := t.users[k];
        var u' := WithProfile(u, req.firstName.GetOr(u.firstName), req.lastName.GetOr(u.lastName),
                              req.email.GetOr(u.email), req.phoneNumber.GetOr(u.phoneNumber));
        var a' := a.(vehicleType := req.vehicleType.GetOr(a.vehicleType),
                     additionalNotes := req.additionalNotes.GetOr(a.additionalNotes),
                     appointmentDate := parsed.value);
        ReplaceKeepsConsistent(t, k, u', i, a');
      }
    }
  }

  lemma DeleteKeepsConsistent(t: Tables, caller: string, id: string)
    requires Consistent(t)
    ensures Consistent(Delete(t, caller, id).after)
  {
    var found := OwnedIndex(t.appointments, id, caller);
    if found.Some? {
      RemoveKeepsConsistent(t, found.value);
    }
  }

  // ---------------------------------------------------------------- the handlers, in place

  /** The database: the rows of both tables, which the handlers change in place. */
  class AppointmentStore {
    var users: seq<User>
    var appointments: seq<Appointment>

    function State(): Tables
      reads this
    {
      Tables(users, appointments)
    }

    ghost predicate Valid()
      reads this
    {
      Consistent(State())
    }

    constructor (t: Tables)
      requires Consistent(t)
      ensures Valid() && State() == t
    {
      users := t.users;
      appointments := t.appointments;
    }

    /** `get_appointments`: one user lookup per listed appointment. */
    method GetAppointments(caller: string) returns (response: seq<Listed>)
      requires UserIndex(users, caller).Some?
      ensures response == List(State(), caller)
    {
      var owned := OwnedBy(appointments, caller);
      response := [];
      var i := 0;
      while i < |owned|
        invariant i <= |owned|
        invariant response == List(State(), caller)[..i]
      {
        assert owned[i] in owned;
        var k := UserIndex(users, owned[i].customerToken);
        var user := users[k.value];
        response := response + [Entry(owned[i], user)];
        i := i + 1;
      }
    }

    /** `create_appointment`. */
    method CreateAppointment(caller: string, req: CreateRequest, freshId: string) returns (reply: Reply)
      requires Valid() && UserIndex(users, caller).Some?
      modifies this
      ensures Valid()
      ensures Transition(reply, State()) == Create(old(State()), caller, req, freshId)
    {
      CreateKeepsConsistent(State(), caller, req, freshId);
      ghost var before := State();
      var parsed := ParseDate(req.appointmentDate);
      if parsed.None? {
        return BadDate(req.appointmentDate);
      }
      var k := UserIndex(users, caller).value;
      var appointment := NewAppointment(req.vehicleType, req.additionalNotes.GetOr(""), parsed.value, caller, "", freshId);
      if AppointmentIndex(appointments, appointment.id).Some? {
        return StoreError;
      }
      var user := users[k];
      user := user.(firstName := req.firstName, lastName := req.lastName);
      user := user.(email := req.email, phoneNumber := req.phoneNumber);
      users := users[k := user];
      appointments := appointments + [appointment];
      reply := Created(PublicView(appointment));
      var _, _ := CreateWrites(before, caller, req, freshId);
    }

    /** `update_appointment`. */
    method UpdateAppointment(caller: string, id: string, req: UpdateRequest) returns (reply: Reply)
      requires Valid() && UserIndex(users, caller).Some?
      modifies this
      ensures Valid()
      ensures Transition(reply, State()) == Update(old(State()), caller, id, req)
    {
      UpdateKeepsConsistent(State(), caller, id, req);
      var found := OwnedIndex(appointments, id, caller);
      if found.None? {
        return NotFound;
      }
      var i := found.value;
      var appointment := appointments[i];
      var k := UserIndex(users, caller).value;
      var user := users[k];
      var dateText := req.appointmentDate.GetOr(FormatDate(appointment.appointmentDate));
      var parsed := ParseDate(dateText);
      if parsed.None? {
        return BadDate(dateText);
      }
      user := user.(firstName := req.firstName.GetOr(user.firstName), lastName := req.lastName.GetOr(user.lastName));
      user := user.(email := req.email.GetOr(user.email), phoneNumber := req.phoneNumber.GetOr(user.phoneNumber));
      appointment := appointment.(vehicleType := req.vehicleType.GetOr(appointment.vehicleType));
      appointment := appointment.(additionalNotes := req.additionalNotes.GetOr(appointment.additionalNotes));
      appointment := appointment.(appointmentDate := parsed.value);
      users := users[k := user];
      appointments := appointments[i := appointment];
      reply := Updated(PublicView(appointment));
    }

    /** `delete_appointment`. */
    method DeleteAppointment(caller: string, id: string) returns (reply: Reply)
      requires Valid()
      modifies this
      ensures Valid()
      ensures Transition(reply, State()) == Delete(old(State()), caller, id)
    {
      DeleteKeepsConsistent(State(), caller, id);
      var found := OwnedIndex(appointments, id, caller);
      if found.None? {
        return NotFound;
      }
      var i := found.value;
      appointments := appointments[..i] + appointments[i + 1..];
      reply := Deleted;
    }
  }
}
