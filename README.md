# Car-Flask appointment store, in Dafny

This project models the ownership-scoped appointment store of the Car-Flask service.
That store is the four `/api/user_appointment` handlers of `app/api/routes.py`,
together with the `User` and `Appointment` records of `models.py`. The handlers list,
create, update and delete the appointments of an authenticated caller.

- `wrappers.dfy` (module `Wrappers`): `Option`.
- `date_format.dfy` (module `DateFormat`): `datetime.strptime(s, '%Y-%m-%d %H:%M')` as
  CPython reads it, and `strftime` with the same format. The parser is exact over ASCII
  digits. It accepts unpadded fields (`2024-3-1 9:05`), a day written with a leading
  blank (`' 5'`), and any run of whitespace between the date and the time. It then
  applies `datetime`'s range checks: year at least 1, and a day the month has.
  `ParseDateCharacterization` states the exact language it accepts.
- `models.py` maps to `models.dfy` (module `Models`). It holds the two records as
  datatypes, their constructors with the random sources as parameters, the hex
  encoding of `secrets.token_hex`, and the `RelationSchema` public view.
- `store.dfy` (module `Store`):
  - both tables as one value, `Tables`;
  - the three `filter_by(...).first()` / `.all()` queries the handlers issue, as
    first-match searches;
  - the schema's constraints (`Consistent`), with lemmas showing that each kind of
    write keeps them.
- `routes.dfy` (module `Routes`):
  - each handler as a function from the tables before the request to a `Transition`,
    which is the reply together with the tables after it;
  - the class `AppointmentStore`, whose methods change the two table fields in place the
    way the handlers do. Each method is proved to produce exactly the function's
    transition and to keep `Consistent`. `GetAppointments` builds the listing with the
    handler's loop.
- `routes_properties.dfy` (module `RoutesProperties`): what the handlers promise.
  - Ownership isolation: a caller lists, changes and deletes only their own rows.
  - A request by one user leaves every other user's listing as it was.
  - Not-found and not-owned give the same 404 with no write.
  - A bad date gives a 400 with no write.
  - Create overwrites the whole profile, and update applies a partial patch.
  - An update without a date keeps the stored date.
  - Delete removes exactly its target, and a second delete finds nothing.

The create handler's comment asks for the exact format without seconds
(app/api/routes.py:46). `strptime` also takes unpadded fields and other whitespace. The
model follows `strptime`, and `StrptimeAcceptsUnpadded` shows such an input being accepted.

## Model

| member | source | states |
|---|---|---|
| DateFormat.ParseDate | app/api/routes.py:45-49 | a text strptime accepts yields a real calendar date (`Valid`); `None` is the ValueError that becomes a 400 |
| DateFormat.MakeDate | app/api/routes.py:47 | the range check of `datetime`: a date is built exactly when the year is at least 1 and the day exists in that month (leap years included) |
| DateFormat.Numeral | app/api/routes.py:47 | a numeric directive takes the whole run of digits at the head, and that run is one or two digits long |
| DateFormat.RenderParses | app/api/routes.py:47 | every layout the format allows (padded or not, any blank) reads back as the date, or is refused when the date does not exist |
| DateFormat.ParsedIsRendered | app/api/routes.py:47 | every accepted text is the returned date written in some allowed layout |
| DateFormat.ParseDateCharacterization | app/api/routes.py:47 | a text parses to `d` if and only if `d` is a real date and the text is `d` written in an allowed layout |
| DateFormat.ParseRejectsTrailingData | app/api/routes.py:46-49 | data left after the minute (such as `:00` seconds) makes strptime fail |
| DateFormat.FormatParseRoundTrip | app/api/routes.py:87-90 | the date strftime writes parses back to the same date, and is 16 characters long |
| DateFormat.StrptimeAcceptsPadded | app/api/routes.py:47 | `"2024-03-01 10:00"` parses to 1 March 2024, 10:00 |
| DateFormat.StrptimeAcceptsUnpadded | app/api/routes.py:47 | `"2024-3-1 9:05"` is accepted as well |
| DateFormat.StrptimeAcceptsLeapDay | app/api/routes.py:47 | 29 February 2024 is accepted |
| DateFormat.StrptimeRejectsSeconds | app/api/routes.py:46-49 | `"2024-03-01 10:00:00"` is refused |
| DateFormat.StrptimeRejectsMissingDay | app/api/routes.py:47-49 | 29 February 2023 is refused |
| DateFormat.GlibcFormatBreaksRoundTrip | app/api/routes.py:87-92 | with glibc's unpadded `%Y`, a stored date before year 1000 is printed in a form strptime refuses |
| Models.HexEncode | models.py:42-43 | `token_hex` writes two lower-case hex digits per byte |
| Models.HexEncodeInjective | models.py:42-43 | different bytes give different hex strings |
| Models.NewUser | models.py:32-50 | a new user gets the drawn uuid as id, the hash of the password in the password column, the profile fields as given, and a 48-character hex token of the 24 drawn bytes |
| Models.NewUserIgnoresTokenArgument | models.py:32-39 | the `token` argument has no effect on the user built |
| Models.DistinctEntropyDistinctTokens | models.py:39-43 | users built from different random bytes get different tokens |
| Models.NewAppointment | models.py:67-72 | a non-empty id is kept and an empty one is replaced by the drawn id; the other four fields are stored as given |
| Models.PublicView | models.py:82-87 | the public view carries exactly id, vehicle type, notes and date |
| Models.PublicViewHidesOwner | models.py:82-84 | the view does not depend on the owner's token |
| Models.PublicViewDeterminesRecord | models.py:84 | apart from the owner, the view determines the record |
| Store.UserIndex | app/api/routes.py:16 | the first user holding the token, or none when no user holds it |
| Store.OwnedIndex | app/api/routes.py:76 | the first appointment with that id and that owner token, or none when there is no such row |
| Store.AppointmentIndex | models.py:59 | the first appointment with that primary key, or none |
| Store.OwnedBy | app/api/routes.py:12 | exactly the rows whose owner is the token, none missing and none foreign |
| Store.UserIndexFinds | app/api/routes.py:16 | the user lookup succeeds exactly when the token is in the token column |
| Store.UserIndexUnique | models.py:29 | with unique tokens the lookup finds the single holder of the token |
| Store.UserIndexByTokens | app/api/routes.py:16 | the lookup depends only on the token column |
| Store.TokensAfterRewrite | app/api/routes.py:52-55 | rewriting a user's profile keeps the token column |
| Store.OwnedIndexUnique | models.py:59 | with unique ids the owned lookup finds the single row with that id |
| Store.OwnedByConcat | app/api/routes.py:12 | the owner filter distributes over table concatenation |
| Store.OwnedIndexOfAppended | app/api/routes.py:113 | a row appended under a fresh id is found at the end of the table |
| Store.OwnedByAppend | app/api/routes.py:12 | appending a row adds it to its owner's listing only |
| Store.OwnedByReplaceOther | app/api/routes.py:12 | replacing a row that is not the token's, before or after, leaves the token's listing alone |
| Store.OwnedByRemoveOther | app/api/routes.py:12 | removing a row that is not the token's leaves the token's listing alone |
| Store.RemoveAt | app/api/routes.py:118-119 | removing a row removes exactly that row, and with unique ids no remaining row has its id |
| Store.AppendKeepsConsistent | models.py:22-29 | rewriting a user's profile and adding an appointment with a fresh id, owned by a known token, keeps every constraint |
| Store.ReplaceKeepsConsistent | models.py:59-63 | rewriting a user and an appointment, keys kept, keeps every constraint |
| Store.RemoveKeepsConsistent | models.py:59-63 | deleting an appointment keeps every constraint |
| Routes.CreateKeepsConsistent | app/api/routes.py:52-66 | a POST keeps every schema constraint |
| Routes.UpdateKeepsConsistent | app/api/routes.py:95-105 | a PUT keeps every schema constraint |
| Routes.DeleteKeepsConsistent | app/api/routes.py:118-119 | a DELETE keeps every schema constraint |
| Routes.AppointmentStore.constructor | models.py:21-29 | the store starts from consistent tables |
| Routes.AppointmentStore.GetAppointments | app/api/routes.py:11-29 | the loop builds exactly the listing `List` and changes nothing |
| Routes.AppointmentStore.CreateAppointment | app/api/routes.py:35-69 | the in-place POST yields exactly the reply and tables of `Create`, and keeps the constraints |
| Routes.AppointmentStore.UpdateAppointment | app/api/routes.py:74-107 | the in-place PUT yields exactly the reply and tables of `Update`, and keeps the constraints |
| Routes.AppointmentStore.DeleteAppointment | app/api/routes.py:112-120 | the in-place DELETE yields exactly the reply and tables of `Delete`, and keeps the constraints |
| RoutesProperties.HoldsIffFound | app/api/routes.py:76 | the owned lookup succeeds exactly when the caller holds an appointment with the id |
| RoutesProperties.ListIsExactlyOwn | app/api/routes.py:12-27 | every listed entry is one of the caller's appointments with the caller's profile, and each of them is listed |
| RoutesProperties.ForeignAppointmentsHidden | app/api/routes.py:12 | no entry carries the id of another user's appointment |
| RoutesProperties.ListDependsOnOwnRows | app/api/routes.py:12-27 | a listing depends only on the token column, the user's row and the user's appointments |
| RoutesProperties.CreateOutcome | app/api/routes.py:45-69 | a POST writes exactly when the date parses and the id is free; it answers 400 exactly when the date does not parse; otherwise nothing changes |
| RoutesProperties.CreateRejectsSeconds | app/api/routes.py:45-49 | a date with seconds gets a 400 and no write |
| RoutesProperties.CreateAppendsOwnAppointment | app/api/routes.py:42-69 | a successful POST appends one row under the caller's token, with notes defaulting to empty, answers 201, and overwrites the four profile fields only |
| RoutesProperties.CreateShowsInListing | app/api/routes.py:12-27 | the new appointment ends the caller's listing |
| RoutesProperties.CreateInvisibleToOthers | app/api/routes.py:52-66 | a POST leaves every other user's listing as it was |
| RoutesProperties.UpdateFindsOnlyOwn | app/api/routes.py:76-79 | a PUT answers 404 exactly when the caller holds no such appointment, and then writes nothing |
| RoutesProperties.UpdateRejectsOnlySentBadDates | app/api/routes.py:87-92 | a PUT answers 400 exactly when a sent date does not parse, never for a missing one, and then writes nothing |
| RoutesProperties.UpdateWritesPatch | app/api/routes.py:81-107 | a successful PUT changes only the caller's profile and the one appointment; sent keys replace and missing keys keep the values; id and owner never change |
| RoutesProperties.EmptyPatchChangesNothing | app/api/routes.py:81-107 | a PUT with no key changes nothing and answers with the stored appointment |
| RoutesProperties.UpdateInvisibleToOthers | app/api/routes.py:95-105 | a PUT leaves every other user's listing as it was |
| RoutesProperties.DeleteFindsOnlyOwn | app/api/routes.py:113-120 | a DELETE answers 404 exactly when the caller holds no such appointment, with no write, and deletes otherwise |
| RoutesProperties.DeleteRemovesTarget | app/api/routes.py:113-120 | a successful DELETE removes exactly the one targeted row, touches no user, and leaves no row with that id |
| RoutesProperties.DeleteTwiceNotFound | app/api/routes.py:113-116 | a second DELETE of the same id answers 404 |
| RoutesProperties.CreateThenDeleteRestores | app/api/routes.py:57-66 | deleting the appointment a POST just added gives back the appointment table as it was |
| RoutesProperties.DeleteInvisibleToOthers | app/api/routes.py:118-119 | a DELETE leaves every other user's listing as it was |

## Left out

- Flask plumbing (`Blueprint`, `request.json`, `jsonify`, error texts): each reply is a `Reply` value, with `Status` giving its HTTP code.
- The JSON layer: a POST body missing a required key raises before any write, so the model takes the keys as present. Values are taken as strings, not `null` or numbers.
- `token_required` lives in a helper module that is not part of this model. A handler is only reached for a caller whose token is in the user table, hence the `UserIndex(...).Some?` preconditions.
- SQLAlchemy sessions, transactions and concurrent requests: each handler is one atomic transition. Rows are values in sequences, not aliased ORM objects. The query order is taken to be insertion order.
- A failing `commit` of a new appointment whose drawn id collides with a stored one is the `StoreError` reply. In the model nothing is written in that case, which is the rollback; the 500 text is not modelled.
- `uuid.uuid4`, `secrets.token_hex` and `secrets.token_urlsafe` are parameters: the caller supplies the drawn values. Their freshness is not modelled beyond the collision case above.
- werkzeug's `generate_password_hash` is a function parameter. The `pw_hash` attribute it writes on the side, `date_created`, `load_user` and `__repr__` are left out.
- The default argument values of `User.__init__` (empty strings, `False`) are not modelled separately: `NewUser` takes every argument explicitly.
- The `VARCHAR` length limits of the columns (models.py:23-26, 60-61) are not modelled. A back end that enforces them answers a too-long value with a 500 and writes nothing; the model accepts it.
- The JSON rendering of `appointment_date` in a reply is not modelled: replies carry the `DateTime` value.
- The commented-out `/cars` endpoints are not modelled, because they are unreachable.
- DateFormat.ParseDate: digits are ASCII only. CPython's `\d` also matches other Unicode decimal digits, and such input is refused here.

## Findings

| source | as written | input that shows it | evidently intended | confidence | as-written member | corrected member |
|---|---|---|---|---|---|---|
| app/api/routes.py:87-90 | the default date of a PUT is `strftime('%Y-%m-%d %H:%M')` of the stored date, parsed again with the same format; with the GNU C library, `%Y` is not zero-padded below year 1000 | an appointment created with date `"0999-01-01 10:00"`, then a PUT without `appointment_date`: the default text is `"999-01-01 10:00"`, which strptime refuses, so the PUT answers 400 although no date was sent | the stored date always reads back, so an update without a date never fails on it | medium; depends on the C library and the Python version; not executed | DateFormat.GlibcFormatBreaksRoundTrip | DateFormat.FormatParseRoundTrip |
