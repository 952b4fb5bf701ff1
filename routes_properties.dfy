/**
 * What the four handlers promise: a caller only ever sees, changes or removes
 * appointments stored under their own token; a request by one user leaves every
 * other user's listing as it was; a request that fails writes nothing; and a PUT
 * without a key keeps the stored value, the date included.
 */
module RoutesProperties {
  import opened Wrappers
  import opened DateFormat
  import opened Models
  import opened Store
  import opened Routes

  /** The profile `token_required` resolved the caller's token to. */
  function Me(t: Tables, caller: string): User
    requires UserIndex(t.users, caller).Some?
  {
    t.users[UserIndex(t.users, caller).value]
  }

  /** The caller holds an appointment with this id. */
  predicate Holds(t: Tables, caller: string, id: string) {
    exists a :: a in t.appointments && a.id == id && a.customerToken == caller
  }

  lemma HoldsIffFound(t: Tables, caller: string, id: string)
    ensures Holds(t, caller, id) <==> OwnedIndex(t.appointments, id, caller).Some?
  {
    if Holds(t, caller, id) {
      var a :| a in t.appointments && a.id == id && a.customerToken == caller;
      var j :| 0 <= j < |t.appointments| && t.appointments[j] == a;
    }
  }

  // ---------------------------------------------------------------- GET

  /**
   * The listing is exactly the caller's appointments: each entry is one of them,
   * shown with the caller's own profile, and each of them has its entry.
   */
  lemma {:induction false} ListIsExactlyOwn(t: Tables, caller: string)
    requires UserIndex(t.users, caller).Some?
    ensures forall e :: e in List(t, caller) ==>
              exists a :: a in t.appointments && a.customerToken == caller && e == Entry(a, Me(t, caller))
    ensures forall a :: a in t.appointments && a.customerToken == caller ==> Entry(a, Me(t, caller)) in List(t, caller)
  {
    var owned := OwnedBy(t.appointments, caller);
    var rows := List(t, caller);
    forall e | e in rows
      ensures exists a :: a in t.appointments && a.customerToken == caller && e == Entry(a, Me(t, caller))
    {
      var i :| 0 <= i < |rows| && rows[i] == e;
      assert owned[i] in owned;
      assert e == Entry(owned[i], Me(t, caller));
    }
    forall a | a in t.appointments && a.customerToken == caller
      ensures Entry(a, Me(t, caller)) in rows
    {
      assert a in owned;
      var i :| 0 <= i < |owned| && owned[i] == a;
      assert rows[i] == Entry(a, Me(t, caller));
    }
  }

  /** No entry of the listing carries the id of an appointment another user holds. */
  lemma ForeignAppointmentsHidden(t: Tables, caller: string, b: Appointment)
    requires Consistent(t) && UserIndex(t.users, caller).Some?
    requires b in t.appointments && b.customerToken != caller
    ensures forall e :: e in List(t, caller) ==> e.id != b.id
  {
    ListIsExactlyOwn(t, caller);
    var s := t.appointments;
    forall e | e in List(t, caller)
      ensures e.id != b.id
    {
      var a :| a in s && a.customerToken == caller && e == Entry(a, Me(t, caller));
      var i :| 0 <= i < |s| && s[i] == a;
      var j :| 0 <= j < |s| && s[j] == b;
      assert i != j;
    }
  }

  /** A listing depends only on the token column, the user's own row and the user's own appointments. */
  lemma ListDependsOnOwnRows(t1: Tables, t2: Tables, who: string)
    requires UserIndex(t1.users, who).Some? && Tokens(t1.users) == Tokens(t2.users)
    requires t2.users[UserIndex(t1.users, who).value] == t1.users[UserIndex(t1.users, who).value]
    requires OwnedBy(t1.appointments, who) == OwnedBy(t2.appointments, who)
    ensures UserIndex(t2.users, who).Some? && List(t2, who) == List(t1, who)
  {
    UserIndexByTokens(t1.users, t2.users, who);
    var owned := OwnedBy(t1.appointments, who);
    forall i | 0 <= i < |owned|
      ensures List(t2, who)[i] == List(t1, who)[i]
    {
      assert owned[i] in owned;
    }
  }

  // ---------------------------------------------------------------- POST

  /** A POST writes only when the date parses and the drawn id is free; otherwise nothing changes. */
  lemma CreateOutcome(t: Tables, caller: string, req: CreateRequest, freshId: string)
    requires UserIndex(t.users, caller).Some?
    ensures Create(t, caller, req, freshId).reply.Created?
        <==> ParseDate(req.appointmentDate).Some? && AppointmentIndex(t.appointments, freshId).None?
    ensures Create(t, caller, req, freshId).reply == BadDate(req.appointmentDate) <==> ParseDate(req.appointmentDate).None?
    ensures !Create(t, caller, req, freshId).reply.Created? ==> Create(t, caller, req, freshId).after == t
  {
    var r := Create(t, caller, req, freshId);
    var parsed := ParseDate(req.appointmentDate);
    if parsed.None? {
      assert r == Transition(BadDate(req.appointmentDate), t);
    } else if AppointmentIndex(t.appointments, freshId).Some? {
      assert r == Transition(StoreError, t);
    } else {
      assert r.reply.Created?;
    }
  }

  /** A date with seconds is refused with a 400 and nothing is written. */
  lemma CreateRejectsSeconds(t: Tables, caller: string, req: CreateRequest, freshId: string)
    requires UserIndex(t.users, caller).Some? && req.appointmentDate == "2024-03-01 10:00" + ":00"
    ensures Create(t, caller, req, freshId) == Transition(BadDate(req.appointmentDate), t)
  {
    StrptimeRejectsSeconds();
  }

  /**
   * A successful POST appends one appointment under the caller's token, with the
   * drawn id, the parsed date and empty notes when none were sent, and overwrites
   * the four profile fields of the caller and nothing else.
   */
  lemma CreateAppendsOwnAppointment(t: Tables, caller: string, req: CreateRequest, freshId: string)
    requires UserIndex(t.users, caller).Some?
    requires ParseDate(req.appointmentDate).Some? && AppointmentIndex(t.appointments, freshId).None?
    ensures |Create(t, caller, req, freshId).after.appointments| == |t.appointments| + 1
    ensures |Create(t, caller, req, freshId).after.users| == |t.users|
    ensures var r := Create(t, caller, req, freshId);
            var a := r.after.appointments[|t.appointments|];
            && r.reply == Created(PublicView(a)) && Status(r.reply) == 201
            && r.after.appointments[..|t.appointments|] == t.appointments
            && a.id == freshId && a.customerToken == caller && a.vehicleType == req.vehicleType
            && a.additionalNotes == req.additionalNotes.GetOr("")
            && ParseDate(req.appointmentDate) == Some(a.appointmentDate)
    ensures var r := Create(t, caller, req, freshId);
            var k := UserIndex(t.users, caller).value;
            var u, u' := t.users[k], r.after.users[k];
            && u'.firstName == req.firstName && u'.lastName == req.lastName
            && u'.email == req.email && u'.phoneNumber == req.phoneNumber
            && u'.id == u.id && u'.token == u.token && u'.password == u.password && u'.gAuthVerify == u.gAuthVerify
            && forall j :: 0 <= j < |t.users| && j != k ==> r.after.users[j] == t.users[j]
  {
    var k, a := CreateWrites(t, caller, req, freshId);
    assert (t.appointments + [a])[..|t.appointments|] == t.appointments;
  }

  /** After a successful POST the new appointment ends the caller's listing, shown with the new profile. */
  lemma CreateShowsInListing(t: Tables, caller: string, req: CreateRequest, freshId: string)
    requires UserIndex(t.users, caller).Some?
    requires ParseDate(req.appointmentDate).Some? && AppointmentIndex(t.appointments, freshId).None?
    ensures var r := Create(t, caller, req, freshId);
            && UserIndex(r.after.users, caller).Some?
            && |List(r.after, caller)| == |List(t, caller)| + 1
            && List(r.after, caller)[|List(t, caller)|]
               == Entry(r.after.appointments[|t.appointments|], Me(r.after, caller))
  {
    var r := Create(t, caller, req, freshId);
    var k, a := CreateWrites(t, caller, req, freshId);
    TokensAfterRewrite(t.users, k, r.after.users[k]);
    UserIndexByTokens(t.users, r.after.users, caller);
    OwnedByAppend(t.appointments, a, caller);
    var owned := OwnedBy(r.after.appointments, caller);
    assert owned[|owned| - 1] == a;
  }

  /** A POST by one user leaves every other user's listing as it was. */
  lemma CreateInvisibleToOthers(t: Tables, caller: string, other: string, req: CreateRequest, freshId: string)
    requires UserIndex(t.users, caller).Some? && UserIndex(t.users, other).Some? && other != caller
    ensures var r := Create(t, caller, req, freshId);
            UserIndex(r.after.users, other).Some? && List(r.after, other) == List(t, other)
  {
    var r := Create(t, caller, req, freshId);
    if ParseDate(req.appointmentDate).Some? && AppointmentIndex(t.appointments, freshId).None? {
      var k, a := CreateWrites(t, caller, req, freshId);
      TokensAfterRewrite(t.users, k, r.after.users[k]);
      OwnedByAppend(t.appointments, a, other);
      ListDependsOnOwnRows(t, r.after, other);
    } else {
      CreateOutcome(t, caller, req, freshId);
    }
  }

  // ---------------------------------------------------------------- PUT

  /** A PUT answers 404 exactly when the caller holds no appointment with the id, and then writes nothing. */
  lemma UpdateFindsOnlyOwn(t: Tables, caller: string, id: string, req: UpdateRequest)
    requires Consistent(t) && UserIndex(t.users, caller).Some?
    ensures Update(t, caller, id, req).reply == NotFound <==> !Holds(t, caller, id)
    ensures Update(t, caller, id, req).reply == NotFound ==> Update(t, caller, id, req).after == t
  {
    HoldsIffFound(t, caller, id);
  }

  /**
   * A PUT answers 400 exactly when the caller holds the appointment and sent a date
   * strptime refuses; a missing date never fails, because the stored date printed
   * by strftime parses back to itself. A 400 writes nothing.
   */
  lemma {:induction false} UpdateRejectsOnlySentBadDates(t: Tables, caller: string, id: string, req: UpdateRequest)
    requires Consistent(t) && UserIndex(t.users, caller).Some?
    ensures Update(t, caller, id, req).reply.BadDate?
        <==> Holds(t, caller, id) && req.appointmentDate.Some? && ParseDate(req.appointmentDate.value).None?
    ensures Update(t, caller, id, req).reply.BadDate?
        ==> Status(Update(t, caller, id, req).reply) == 400 && Update(t, caller, id, req).after == t
  {
    HoldsIffFound(t, caller, id);
    var r := Update(t, caller, id, req);
    var found := OwnedIndex(t.appointments, id, caller);
    if found.Some? {
      var a := t.appointments[found.value];
      var dateText := req.appointmentDate.GetOr(FormatDate(a.appointmentDate));
      if req.appointmentDate.None? {
        FormatParseRoundTrip(a.appointmentDate);
        assert ParseDate(dateText).Some?;
        assert r.reply.Updated?;
      } else if ParseDate(dateText).None? {
        assert r == Transition(BadDate(dateText), t);
      } else {
        assert r.reply.Updated?;
      }
    } else {
      assert r == Transition(NotFound, t);
    }
  }

  /**
   * A successful PUT rewrites only the found appointment and the caller's profile:
   * every sent key replaces the stored value, every missing key keeps it, the date
   * included, and the owner and id never change.
   */
  lemma {:induction false} UpdateWritesPatch(t: Tables, caller: string, id: string, req: UpdateRequest)
    requires Consistent(t) && UserIndex(t.users, caller).Some? && Holds(t, caller, id)
    requires req.appointmentDate.Some? ==> ParseDate(req.appointmentDate.value).Some?
    ensures OwnedIndex(t.appointments, id, caller).Some?
    ensures |Update(t, caller, id, req).after.appointments| == |t.appointments|
    ensures |Update(t, caller, id, req).after.users| == |t.users|
    ensures var r := Update(t, caller, id, req);
            var i := OwnedIndex(t.appointments, id, caller).value;
            var a, a' := t.appointments[i], r.after.appointments[i];
            && r.reply == Updated(PublicView(a')) && Status(r.reply) == 200
            && a'.id == id && a'.customerToken == caller
            && a'.vehicleType == req.vehicleType.GetOr(a.vehicleType)
            && a'.additionalNotes == req.additionalNotes.GetOr(a.additionalNotes)
            && (req.appointmentDate.None? ==> a'.appointmentDate == a.appointmentDate)
            && (req.appointmentDate.Some? ==> ParseDate(req.appointmentDate.value) == Some(a'.appointmentDate))
            && forall j :: 0 <= j < |t.appointments| && j != i ==> r.after.appointments[j] == t.appointments[j]
    ensures var r := Update(t, caller, id, req);
            var k := UserIndex(t.users, caller).value;
            var u, u' := t.users[k], r.after.users[k];
            && u'.firstName == req.firstName.GetOr(u.firstName) && u'.lastName == req.lastName.GetOr(u.lastName)
            && u'.email == req.email.GetOr(u.email) && u'.phoneNumber == req.phoneNumber.GetOr(u.phoneNumber)
            && u'.id == u.id && u'.token == u.token && u'.password == u.password && u'.gAuthVerify == u.gAuthVerify
            && forall j :: 0 <= j < |t.users| && j != k ==> r.after.users[j] == t.users[j]
  {
    HoldsIffFound(t, caller, id);
    FormatParseRoundTrip(t.appointments[OwnedIndex(t.appointments, id, caller).value].appointmentDate);
    var i, k, d := UpdateWrites(t, caller, id, req);
  }

  /** A PUT with no key at all changes nothing and answers with the stored appointment. */
  lemma {:induction false} EmptyPatchChangesNothing(t: Tables, caller: string, id: string)
    requires Consistent(t) && UserIndex(t.users, caller).Some?
    ensures Update(t, caller, id, EmptyPatch).after == t
    ensures Update(t, caller, id, EmptyPatch).reply
         == match OwnedIndex(t.appointments, id, caller)
            case None => NotFound
            case Some(i) => Updated(PublicView(t.appointments[i]))
  {
    var found := OwnedIndex(t.appointments, id, caller);
    if found.Some? {
      FormatParseRoundTrip(t.appointments[found.value].appointmentDate);
      var i, k, d := UpdateWrites(t, caller, id, EmptyPatch);
      RewriteSameRows(t, k, i);
    }
  }

  lemma RewriteSameRows(t: Tables, k: nat, i: nat)
    requires k < |t.users| && i < |t.appointments|
    ensures Tables(t.users[k := t.users[k]], t.appointments[i := t.appointments[i]]) == t
  {
    assert t.users[k := t.users[k]] == t.users;
    assert t.appointments[i := t.appointments[i]] == t.appointments;
  }

  /** A PUT by one user leaves every other user's listing as it was. */
  lemma {:induction false} UpdateInvisibleToOthers(t: Tables, caller: string, other: string, id: string, req: UpdateRequest)
    requires Consistent(t) && UserIndex(t.users, caller).Some? && UserIndex(t.users, other).Some? && other != caller
    ensures var r := Update(t, caller, id, req);
            UserIndex(r.after.users, other).Some? && List(r.after, other) == List(t, other)
  {
    var r := Update(t, caller, id, req);
    var found := OwnedIndex(t.appointments, id, caller);
    if found.Some? && ParseDate(req.appointmentDate.GetOr(FormatDate(t.appointments[found.value].appointmentDate))).Some? {
      var i, k, d := UpdateWrites(t, caller, id, req);
      TokensAfterRewrite(t.users, k, r.after.users[k]);
      OwnedByReplaceOther(t.appointments, i, r.after.appointments[i], other);
      ListDependsOnOwnRows(t, r.after, other);
    } else {
      UpdateRejectsOnlySentBadDates(t, caller, id, req);
      UpdateFindsOnlyOwn(t, caller, id, req);
    }
  }

  // ---------------------------------------------------------------- DELETE

  /** A DELETE answers 404 exactly when the caller holds no appointment with the id, and then writes nothing. */
  lemma DeleteFindsOnlyOwn(t: Tables, caller: string, id: string)
    ensures Delete(t, caller, id).reply == NotFound <==> !Holds(t, caller, id)
    ensures Delete(t, caller, id).reply == NotFound ==> Delete(t, caller, id).after == t
    ensures Delete(t, caller, id).reply == Deleted <==> Holds(t, caller, id)
  {
    HoldsIffFound(t, caller, id);
  }

  /** A successful DELETE removes exactly the one appointment with the id and touches no user. */
  lemma {:induction false} DeleteRemovesTarget(t: Tables, caller: string, id: string)
    requires Consistent(t) && Holds(t, caller, id)
    ensures OwnedIndex(t.appointments, id, caller).Some?
    ensures var r := Delete(t, caller, id);
            var a := t.appointments[OwnedIndex(t.appointments, id, caller).value];
            && r.reply == Deleted && Status(r.reply) == 200 && r.after.users == t.users
            && multiset(r.after.appointments) + multiset{a} == multiset(t.appointments)
            && forall b :: b in r.after.appointments ==> b.id != id
  {
    HoldsIffFound(t, caller, id);
    var s := t.appointments;
    var i := OwnedIndex(s, id, caller).value;
    assert Delete(t, caller, id) == Transition(Deleted, Tables(t.users, s[..i] + s[i + 1..]));
    RemoveAt(s, i);
  }

  /** Deleting the same id twice: the second request finds nothing. */
  lemma DeleteTwiceNotFound(t: Tables, caller: string, id: string)
    requires Consistent(t)
    ensures Delete(Delete(t, caller, id).after, caller, id).reply == NotFound
  {
    var r := Delete(t, caller, id);
    if Holds(t, caller, id) {
      DeleteRemovesTarget(t, caller, id);
    }
    DeleteFindsOnlyOwn(t, caller, id);
    DeleteFindsOnlyOwn(r.after, caller, id);
  }

  /** A DELETE of the id a POST just drew takes the table back to where it was. */
  lemma {:induction false} CreateThenDeleteRestores(t: Tables, caller: string, req: CreateRequest, freshId: string)
    requires UserIndex(t.users, caller).Some?
    requires ParseDate(req.appointmentDate).Some? && AppointmentIndex(t.appointments, freshId).None?
    ensures var after := Create(t, caller, req, freshId).after;
            Delete(after, caller, freshId) == Transition(Deleted, Tables(after.users, t.appointments))
  {
    var k, a := CreateWrites(t, caller, req, freshId);
    var users := Create(t, caller, req, freshId).after.users;
    DeleteAppended(users, t.appointments, a);
  }

  lemma DeleteAppended(users: seq<User>, s: seq<Appointment>, a: Appointment)
    requires forall j :: 0 <= j < |s| ==> s[j].id != a.id
    ensures Delete(Tables(users, s + [a]), a.customerToken, a.id) == Transition(Deleted, Tables(users, s))
  {
    OwnedIndexOfAppended(s, a);
    CutAppended(s, a);
  }

  /** A DELETE by one user leaves every other user's listing as it was. */
  lemma DeleteInvisibleToOthers(t: Tables, caller: string, other: string, id: string)
    requires UserIndex(t.users, other).Some? && other != caller
    ensures var r := Delete(t, caller, id);
            UserIndex(r.after.users, other).Some? && List(r.after, other) == List(t, other)
  {
    var r := Delete(t, caller, id);
    if r.reply.Deleted? {
      var i := OwnedIndex(t.appointments, id, caller).value;
      OwnedByRemoveOther(t.appointments, i, other);
      ListDependsOnOwnRows(t, r.after, other);
    }
  }
}
