/**
 * The two tables of the database as one value, the three queries the request
 * handlers issue against them, and the integrity constraints the schema declares.
 *
 * Rows are kept in insertion order, and a query without `ORDER BY` is assumed to
 * return them in that order; nothing proved below depends on that assumption
 * except the position of a row in a listing.
 */
module Store {
  import opened Wrappers
  import opened DateFormat
  import opened Models

  datatype Tables = Tables(users: seq<User>, appointments: seq<Appointment>)

  // ---------------------------------------------------------------- queries

  /** `User.query.filter_by(token=token).first()`: the position of the first user holding `token`. */
  function UserIndex(users: seq<User>, token: string): (r: Option<nat>)
    ensures r.Some? ==> r.value < |users| && users[r.value].token == token
    ensures r.Some? ==> forall j :: 0 <= j < r.value ==> users[j].token != token
    ensures r.None? ==> forall j :: 0 <= j < |users| ==> users[j].token != token
  {
    if users == [] then None
    else if users[0].token == token then Some(0)
    else match UserIndex(users[1..], token)
      case None => None
      case Some(k) => Some(k + 1)
  }

  /**
   * `Appointment.query.filter_by(id=id, customer_token=token).first()`: the position of
   * the first appointment with this id that belongs to `token`.
   */
  function OwnedIndex(appts: seq<Appointment>, id: string, token: string): (r: Option<nat>)
    ensures r.Some? ==> r.value < |appts| && appts[r.value].id == id && appts[r.value].customerToken == token
    ensures r.Some? ==> forall j :: 0 <= j < r.value ==> !(appts[j].id == id && appts[j].customerToken == token)
    ensures r.None? ==> forall j :: 0 <= j < |appts| ==> !(appts[j].id == id && appts[j].customerToken == token)
  {
    if appts == [] then None
    else if appts[0].id == id && appts[0].customerToken == token then Some(0)
    else match OwnedIndex(appts[1..], id, token)
      case None => None
      case Some(k) => Some(k + 1)
  }

  /** The primary-key lookup the `INSERT` of a new appointment collides with. */
  function AppointmentIndex(appts: seq<Appointment>, id: string): (r: Option<nat>)
    ensures r.Some? ==> r.value < |appts| && appts[r.value].id == id
    ensures r.Some? ==> forall j :: 0 <= j < r.value ==> appts[j].id != id
    ensures r.None? ==> forall j :: 0 <= j < |appts| ==> appts[j].id != id
  {
    if appts == [] then None
    else if appts[0].id == id then Some(0)
    else match AppointmentIndex(appts[1..], id)
      case None => None
      case Some(k) => Some(k + 1)
  }

  /** `Appointment.query.filter_by(customer_token=token).all()`, in table order. */
  function OwnedBy(appts: seq<Appointment>, token: string): (r: seq<Appointment>)
    ensures forall a :: a in r <==> a in appts && a.customerToken == token
    ensures |r| <= |appts|
  {
    if appts == [] then []
    else if appts[0].customerToken == token then [appts[0]] + OwnedBy(appts[1..], token)
    else OwnedBy(appts[1..], token)
  }

  // ---------------------------------------------------------------- constraints

  /** The token column of the user table. */
  function Tokens(users: seq<User>): (ts: seq<string>)
    ensures |ts| == |users| && forall j :: 0 <= j < |users| ==> ts[j] == users[j].token
  {
    seq(|users|, j requires 0 <= j < |users| => users[j].token)
  }

  /** `User.id` is the primary key. */
  predicate UniqueUserIds(users: seq<User>) {
    forall i, j :: 0 <= i < j < |users| ==> users[i].id != users[j].id
  }

  /** `User.token` is declared `unique=True`. */
  predicate UniqueTokens(users: seq<User>) {
    forall i, j :: 0 <= i < j < |users| ==> users[i].token != users[j].token
  }

  /** `Appointment.id` is the primary key. */
  predicate UniqueAppointmentIds(appts: seq<Appointment>) {
    forall i, j :: 0 <= i < j < |appts| ==> appts[i].id != appts[j].id
  }

  /** `Appointment.customer_token` is a foreign key to `user.token`. */
  predicate OwnersExist(t: Tables) {
    forall i :: 0 <= i < |t.appointments| ==> t.appointments[i].customerToken in Tokens(t.users)
  }

  /** A `DateTime` column only ever holds a real calendar date. */
  predicate DatesValid(appts: seq<Appointment>) {
    forall i :: 0 <= i < |appts| ==> Valid(appts[i].appointmentDate)
  }

  /** Every constraint the schema declares. */
  predicate Consistent(t: Tables) {
    UniqueUserIds(t.users) && UniqueTokens(t.users) && UniqueAppointmentIds(t.appointments)
    && OwnersExist(t) && DatesValid(t.appointments)
  }

  // ---------------------------------------------------------------- lemmas

  /** A user lookup succeeds exactly when the token is in the token column. */
  lemma UserIndexFinds(users: seq<User>, token: string)
    ensures UserIndex(users, token).Some? <==> token in Tokens(users)
  {
    var ts := Tokens(users);
    if token in ts {
      var j :| 0 <= j < |ts| && ts[j] == token;
      assert users[j].token == token;
    }
  }

  /** With unique tokens, the lookup finds the one user holding the token, wherever it is. */
  lemma UserIndexUnique(users: seq<User>, j: nat)
    requires UniqueTokens(users) && j < |users|
    ensures UserIndex(users, users[j].token) == Some(j)
  {
  }

  /** A lookup only looks at the token column. */
  lemma UserIndexByTokens(u1: seq<User>, u2: seq<User>, token: string)
    requires Tokens(u1) == Tokens(u2)
    ensures UserIndex(u1, token) == UserIndex(u2, token)
  {
    assert |u1| == |u2|;
    assert forall j :: 0 <= j < |u1| ==> Tokens(u1)[j] == Tokens(u2)[j];
    assert forall j :: 0 <= j < |u1| ==> u1[j].token == u2[j].token;
  }

  /** Rewriting a user without touching the token keeps the token column. */
  lemma TokensAfterRewrite(users: seq<User>, k: nat, u: User)
    requires k < |users| && u.token == users[k].token
    ensures Tokens(users[k := u]) == Tokens(users)
  {
  }

  /** With unique ids, an owned lookup finds the one appointment holding that id. */
  lemma OwnedIndexUnique(appts: seq<Appointment>, i: nat)
    requires UniqueAppointmentIds(appts) && i < |appts|
    ensures OwnedIndex(appts, appts[i].id, appts[i].customerToken) == Some(i)
  {
  }

  /** The listing of two tables one after the other is the two listings one after the other. */
  lemma {:induction false} OwnedByConcat(s: seq<Appointment>, t: seq<Appointment>, token: string)
    ensures OwnedBy(s + t, token) == OwnedBy(s, token) + OwnedBy(t, token)
  {
    if s != [] {
      assert (s + t)[0] == s[0] && (s + t)[1..] == s[1..] + t;
      OwnedByConcat(s[1..], t, token);
      if s[0].customerToken == token {
        assert OwnedBy(s + t, token) == [s[0]] + (OwnedBy(s[1..], token) + OwnedBy(t, token));
      }
    } else {
      assert s + t == t;
    }
  }

  /** A row appended under a fresh id is found at the end. */
  lemma {:induction false} OwnedIndexOfAppended(s: seq<Appointment>, a: Appointment)
    requires forall j :: 0 <= j < |s| ==> s[j].id != a.id
    ensures OwnedIndex(s + [a], a.id, a.customerToken) == Some(|s|)
  {
    if s == [] {
      assert s + [a] == [a];
    } else {
      assert (s + [a])[0] == s[0] && (s + [a])[1..] == s[1..] + [a];
      OwnedIndexOfAppended(s[1..], a);
    }
  }

  /** Cutting the last row out of a table with one row appended gives the table back. */
  lemma CutAppended(s: seq<Appointment>, a: Appointment)
    ensures (s + [a])[..|s|] + (s + [a])[|s| + 1..] == s
  {
    assert (s + [a])[..|s|] == s;
  }

  /** Appending a row appends it to its owner's listing and to nobody else's. */
  lemma OwnedByAppend(s: seq<Appointment>, a: Appointment, token: string)
    ensures OwnedBy(s + [a], token) == OwnedBy(s, token) + (if a.customerToken == token then [a] else [])
  {
    OwnedByConcat(s, [a], token);
  }

  /** `s` split around position `i`. */
  lemma Around(s: seq<Appointment>, i: nat, b: Appointment)
    requires i < |s|
    ensures s == s[..i] + [s[i]] + s[i + 1..]
    ensures s[i := b] == s[..i] + [b] + s[i + 1..]
  {
  }

  /** The listing of a table cut around one row. */
  lemma OwnedByAround(s: seq<Appointment>, i: nat, b: Appointment, token: string)
    requires i < |s|
    ensures OwnedBy(s, token)
         == OwnedBy(s[..i], token) + OwnedBy([s[i]], token) + OwnedBy(s[i + 1..], token)
    ensures OwnedBy(s[i := b], token)
         == OwnedBy(s[..i], token) + OwnedBy([b], token) + OwnedBy(s[i + 1..], token)
    ensures OwnedBy(s[..i] + s[i + 1..], token) == OwnedBy(s[..i], token) + OwnedBy(s[i + 1..], token)
  {
    Around(s, i, b);
    OwnedByConcat(s[..i] + [s[i]], s[i + 1..], token);
    OwnedByConcat(s[..i], [s[i]], token);
    OwnedByConcat(s[..i] + [b], s[i + 1..], token);
    OwnedByConcat(s[..i], [b], token);
    OwnedByConcat(s[..i], s[i + 1..], token);
  }

  /** Replacing a row that neither before nor after belongs to `token` leaves `token`'s listing alone. */
  lemma OwnedByReplaceOther(s: seq<Appointment>, i: nat, b: Appointment, token: string)
    requires i < |s| && s[i].customerToken != token && b.customerToken != token
    ensures OwnedBy(s[i := b], token) == OwnedBy(s, token)
  {
    OwnedByAround(s, i, b, token);
  }

  /** Removing a row that does not belong to `token` leaves `token`'s listing alone. */
  lemma OwnedByRemoveOther(s: seq<Appointment>, i: nat, token: string)
    requires i < |s| && s[i].customerToken != token
    ensures OwnedBy(s[..i] + s[i + 1..], token) == OwnedBy(s, token)
  {
    OwnedByAround(s, i, s[i], token);
  }

  /** Cutting row `i` out removes that one row; with unique ids no row left carries its id. */
  lemma RemoveAt(s: seq<Appointment>, i: nat)
    requires i < |s|
    ensures multiset(s[..i] + s[i + 1..]) + multiset{s[i]} == multiset(s)
    ensures UniqueAppointmentIds(s) ==> forall b :: b in s[..i] + s[i + 1..] ==> b.id != s[i].id
  {
    var s' := s[..i] + s[i + 1..];
    assert s == s[..i] + [s[i]] + s[i + 1..];
    forall b | b in s'
      ensures exists j :: 0 <= j < |s| && j != i && s[j] == b
    {
      var j :| 0 <= j < |s'| && s'[j] == b;
      assert b == s[if j < i then j else j + 1];
    }
  }

  // ---------------------------------------------------------------- the constraints survive

  /** Rewriting one user (keeping id and token) and appending an appointment for a known owner. */
  lemma {:induction false} AppendKeepsConsistent(t: Tables, k: nat, u: User, a: Appointment)
    requires Consistent(t) && k < |t.users| && u.id == t.users[k].id && u.token == t.users[k].token
    requires a.customerToken in Tokens(t.users) && AppointmentIndex(t.appointments, a.id).None?
    requires Valid(a.appointmentDate)
    ensures Consistent(Tables(t.users[k := u], t.appointments + [a]))
  {
    var us := t.users[k := u];
    assert Tokens(us) == Tokens(t.users);
    var s := t.appointments + [a];
    assert forall j :: 0 <= j < |t.appointments| ==> s[j] == t.appointments[j];
  }

  /** Rewriting one user and one appointment, each keeping its keys. */
  lemma {:induction false} ReplaceKeepsConsistent(t: Tables, k: nat, u: User, i: nat, a: Appointment)
    requires Consistent(t) && k < |t.users| && u.id == t.users[k].id && u.token == t.users[k].token
    requires i < |t.appointments| && a.id == t.appointments[i].id
    requires a.customerToken == t.appointments[i].customerToken && Valid(a.appointmentDate)
    ensures Consistent(Tables(t.users[k := u], t.appointments[i := a]))
  {
    var us := t.users[k := u];
    assert Tokens(us) == Tokens(t.users);
  }

  /** Removing one appointment. */
  lemma {:induction false} RemoveKeepsConsistent(t: Tables, i: nat)
    requires Consistent(t) && i < |t.appointments|
    ensures Consistent(Tables(t.users, t.appointments[..i] + t.appointments[i + 1..]))
  {
    var s := t.appointments;
    var s' := s[..i] + s[i + 1..];
    assert forall j :: 0 <= j < |s'| ==> s'[j] == s[if j < i then j else j + 1];
  }
}
