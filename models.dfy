/**
 * The two records of the data store (`User`, `Appointment`), the rules their
 * constructors follow, and the restricted public view of an appointment.
 *
 * The random sources the constructors draw on (`uuid.uuid4`, `secrets.token_hex`,
 * `secrets.token_urlsafe`) and werkzeug's password hashing are parameters here:
 * the caller supplies the random values and the hash function.
 */
module Models {
  import opened DateFormat

  newtype byte = b: int | 0 <= b < 256

  // ---------------------------------------------------------------- users

  /**
   * A row of the `user` table. `token` is the bearer credential and also the key
   * appointments use to name their owner; `password` holds the hash only.
   */
  datatype User = User(
    id: string,
    firstName: string,
    lastName: string,
    phoneNumber: string,
    email: string,
    password: string,
    gAuthVerify: bool,
    token: string)

  predicate IsLowerHex(c: char) {
    '0' <= c <= '9' || 'a' <= c <= 'f'
  }

  function HexChar(n: int): char
    requires 0 <= n < 16
  {
    if n < 10 then ('0' as int + n) as char else ('a' as int + n - 10) as char
  }

  /** `bytes.hex()`: two lower-case hexadecimal digits per byte, high nibble first. */
  function HexEncode(bytes: seq<byte>): (s: string)
    ensures |s| == 2 * |bytes|
    ensures forall i :: 0 <= i < |s| ==> IsLowerHex(s[i])
  {
    if bytes == [] then []
    else [HexChar(bytes[0] as int / 16), HexChar(bytes[0] as int % 16)] + HexEncode(bytes[1..])
  }

  /** Different random bytes give different tokens. */
  lemma {:induction false} HexEncodeInjective(a: seq<byte>, b: seq<byte>)
    requires HexEncode(a) == HexEncode(b)
    ensures a == b
  {
    if a != [] {
      var ea, eb := HexEncode(a), HexEncode(b);
      assert |b| == |a|;
      assert ea[0] == eb[0] && ea[1] == eb[1];
      assert a[0] as int / 16 == b[0] as int / 16;
      assert a[0] as int % 16 == b[0] as int % 16;
      assert a[0] == b[0];
      assert ea[2..] == HexEncode(a[1..]) && eb[2..] == HexEncode(b[1..]);
      HexEncodeInjective(a[1..], b[1..]);
    }
  }

  /** The number of random bytes `set_token(24)` asks `secrets.token_hex` for. */
  const TokenBytes := 24

  /**
   * `User.__init__`. The `uuid` stands for `str(uuid.uuid4())`, `randomBytes` for the
   * bytes behind `secrets.token_hex(24)`, and `hash` for `generate_password_hash`.
   * The `token` argument is accepted and never used.
   */
  function NewUser(email: string, firstName: string, lastName: string, password: string,
                   phoneNumber: string, token: string, gAuthVerify: bool,
                   uuid: string, randomBytes: seq<byte>, hash: string -> string): (u: User)
    requires |randomBytes| == TokenBytes
    ensures |u.token| == 48 && forall i :: 0 <= i < |u.token| ==> IsLowerHex(u.token[i])
    ensures u.token == HexEncode(randomBytes)
    ensures u.id == uuid && u.password == hash(password)
    ensures u.email == email && u.firstName == firstName && u.lastName == lastName
    ensures u.phoneNumber == phoneNumber && u.gAuthVerify == gAuthVerify
  {
    User(uuid, firstName, lastName, phoneNumber, email, hash(password), gAuthVerify, HexEncode(randomBytes))
  }

  /** The token a new user receives does not depend on the `token` argument at all. */
  lemma NewUserIgnoresTokenArgument(email: string, firstName: string, lastName: string, password: string,
                                    phoneNumber: string, t1: string, t2: string, gAuthVerify: bool,
                                    uuid: string, randomBytes: seq<byte>, hash: string -> string)
    requires |randomBytes| == TokenBytes
    ensures NewUser(email, firstName, lastName, password, phoneNumber, t1, gAuthVerify, uuid, randomBytes, hash)
         == NewUser(email, firstName, lastName, password, phoneNumber, t2, gAuthVerify, uuid, randomBytes, hash)
  {
  }

  /** Tokens issued from different random bytes differ, so two new users never share one. */
  lemma DistinctEntropyDistinctTokens(r1: seq<byte>, r2: seq<byte>)
    requires |r1| == TokenBytes && |r2| == TokenBytes && r1 != r2
    ensures HexEncode(r1) != HexEncode(r2)
  {
    if HexEncode(r1) == HexEncode(r2) {
      HexEncodeInjective(r1, r2);
    }
  }

  // ---------------------------------------------------------------- appointments

  /** A row of the `appointment` table; `customerToken` is the owner's `User.token`. */
  datatype Appointment = Appointment(
    id: string,
    vehicleType: string,
    additionalNotes: string,
    appointmentDate: DateTime,
    customerToken: string)

  /**
   * `Appointment.__init__`: `id or self.set_id()`, so an empty id is replaced by
   * `freshId`, which stands for `secrets.token_urlsafe()`.
   */
  function NewAppointment(vehicleType: string, additionalNotes: string, appointmentDate: DateTime,
                          customerToken: string, id: string, freshId: string): (a: Appointment)
    ensures id != "" ==> a.id == id
    ensures id == "" ==> a.id == freshId
    ensures a.vehicleType == vehicleType && a.additionalNotes == additionalNotes
    ensures a.appointmentDate == appointmentDate && a.customerToken == customerToken
  {
    Appointment(if id != "" then id else freshId, vehicleType, additionalNotes, appointmentDate, customerToken)
  }

  /** `RelationSchema`: the fields a client is shown. There is no owner field. */
  datatype PublicAppointment = PublicAppointment(
    id: string,
    vehicleType: string,
    additionalNotes: string,
    appointmentDate: DateTime)

  function PublicView(a: Appointment): (v: PublicAppointment)
    ensures v.id == a.id && v.vehicleType == a.vehicleType
    ensures v.additionalNotes == a.additionalNotes && v.appointmentDate == a.appointmentDate
  {
    PublicAppointment(a.id, a.vehicleType, a.additionalNotes, a.appointmentDate)
  }

  /** The public view reveals nothing about the owner: changing the owner does not change it. */
  lemma PublicViewHidesOwner(a: Appointment, otherToken: string)
    ensures PublicView(a.(customerToken := otherToken)) == PublicView(a)
  {
  }

  /** Apart from the owner, the public view determines the record it came from. */
  lemma PublicViewDeterminesRecord(a: Appointment, b: Appointment)
    requires PublicView(a) == PublicView(b) && a.customerToken == b.customerToken
    ensures a == b
  {
  }
}
