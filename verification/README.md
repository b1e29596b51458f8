# HealthConnect account store, in Dafny

This project models the account service of the HealthConnect hospital backend.
That service is a Flask application over one MongoDB collection of `User`
documents. Each user embeds a list of `Appointment`s and a list of
`MedicalRecord`s. The service has seven routes: register, login, update
profile, add appointment, add medical record, list patients and list medics
(doctors).

The model is a state machine.

- The collection is a `Store = map<string, User>` keyed by email. The
  invariant `Models.Wf` says each document sits under its own email. Together
  with the map's unique keys, that is the collection's unique index on
  `email`.
- A JSON request body is a `Json.Body = map<string, Option<string>>`. A key
  that was sent maps to a string, or to `None` for JSON `null`. The model keeps
  apart the three ways the handlers read a body. `data[key]` raises on a
  missing key. `data.get(key)` reads a missing key as `None`.
  `data.get(key, default)` uses the default only when the key is missing, so an
  explicit `null` replaces the stored value.
- Each handler is a pure function in module `Handlers`. It takes the store and
  the request, and returns the response envelope `{success, message, user}`
  with the new store. Login returns only the response, because it never
  writes. Saving a document is replacing its entry in the map.
- A request that would crash the Flask handler is excluded by a precondition.
  It crashes on a `KeyError` from `data[key]`, or on a `ValidationError` from a
  `save()` that sits outside any `try`. The handler's `*CrashFree` predicate
  states when neither happens. `register_user` calls `save()` inside a `try`,
  so there a `null` field is a reported failure (`Raised(ValidationError)`),
  not a crash. Mongo's `required=True` is modelled as "not null": an empty
  string passes, because the check rejects only null.
- `Service.Handle` routes a `Request` of any of the seven kinds to its
  handler. `Service.Run` handles a whole trace of requests, one after another.
- The two listings are sets of `Profile`s, because the database does not say
  in what order the role query returns users. `Handlers.CollectProfiles` models
  the handlers' loop, with the role query's filter folded into it: it walks
  all users in an arbitrary order and keeps those with the role.

Three behaviours of the handlers are easy to miss. The model follows the code
in each:

- An update that sends `"work_description": null` or `"phone": null` clears
  that field. An update that sends `"name": null` or `"surname": null` crashes
  on `save()`.
- Registration also fails when any of its five fields is `null`, not only when
  the email is taken. Validation runs before the insert, so a `null` field is
  reported as a validation error even when the email is taken.
- Adding an appointment or a medical record for an unknown email answers
  "User not found", even when required body fields are missing. The crash on
  missing fields happens only when the user exists.

## Model

| member | source | states |
|---|---|---|
| `Handlers.Register` | python-backend/python-backend/app.py:149-169 | Registration succeeds exactly when all five fields are non-null and the email is not yet taken. On success it adds exactly one document, under that email. The document holds the given password, name, surname and role. Its four lists are empty, and it has no work description and no phone. Every other document is unchanged. On failure the store is unchanged. A null field is reported as a validation error, and a taken email as a uniqueness error. |
| `Handlers.Login` | python-backend/python-backend/app.py:171-207 | Login has three outcomes. An unknown or null email gives "User not found". A known email with an unequal password gives "Incorrect password". An exactly equal password gives success and the user's projection. The projection has the name, email and role, the appointments in stored order, the medical history, the work description as `description`, and the prescriptions. No other outcome is possible. |
| `Handlers.Update` | python-backend/python-backend/app.py:69-84 | For an existing email, each of name, surname, work_description and phone takes the body's value when its key was sent. Otherwise it keeps the stored value. Email, password, role and all lists stay as they were, and so does every other document. An unknown or null email gives "User not found" and no change. |
| `Handlers.AddAppointment` | python-backend/python-backend/app.py:87-109 | For an existing email, the appointment list becomes the old list plus one new element at the end. The new element is built from the four body fields. Every other field of the user, and every other document, is unchanged. An unknown email gives "User not found" and no change. |
| `Handlers.AddMedicalRecord` | python-backend/python-backend/app.py:43-66 | Follows the same append law on the medical-record list. The new record carries the four required fields and the optional notes from the body. An unknown email gives "User not found" and no change. |
| `Handlers.Listing` | python-backend/python-backend/app.py:113-145 | Every listed profile has the queried role. In a well-formed store, a profile is listed exactly when it is the six-field projection of a stored user with that role. |
| `Handlers.CollectProfiles` | python-backend/python-backend/app.py:115-127 | The handlers' loop, with the role query's filter folded in: it walks all users in any order and keeps those with the role. It yields exactly the profiles of the role's listing, and never the same email twice. |
| `Service.Handle` | python-backend/python-backend/app.py:43-207 | Any crash-free request leaves every document unchanged except the one with its target email. Login and the two listings change nothing. Only registration can add a document, and only one. Handling a request keeps the store well-formed. |
| `Service.Run` | python-backend/python-backend/app.py:43-207 | Over a whole trace, no document is ever removed. The store grows by at most one document per request, and it stays well-formed. |
| `Service.RunFrame` | python-backend/python-backend/app.py:43-207 | If no request in a trace targets a document, that document ends as it started, and it exists at the end exactly when it existed at the start. |
| `Service.RunWithoutRegisterKeepsKeys` | python-backend/python-backend/app.py:149-169 | A trace without a registration creates no document and removes none. |
| `Laws.RegisterTwice` | python-backend/python-backend/app.py:153-169 | A second registration of a taken email fails and leaves the store as the first one left it. The first user keeps its password. |
| `Laws.LoginAfterRegister` | python-backend/python-backend/app.py:153-201 | Right after a registration, logging in with the same email and password succeeds. The projection shows the registered name, email and role, empty lists and no description. |
| `Laws.LoginWrongPasswordAfterRegister` | python-backend/python-backend/app.py:179-204 | Logging in as a just-registered user with any other password gives "Incorrect password" and no user. |
| `Laws.UpdateIdempotent` | python-backend/python-backend/app.py:76-81 | Sending the same update twice leaves the same store as sending it once. |
| `Laws.UpdateWithOnlyEmail` | python-backend/python-backend/app.py:77-81 | An update body that sends only the email never crashes and changes nothing. |
| `Laws.UpdateKeepsCredentials` | python-backend/python-backend/app.py:77-80 | An update never changes whether a login succeeds, or its message, because email and password are not among the fields it writes. |
| `Laws.AppointmentsAccumulate` | python-backend/python-backend/app.py:94-105 | After N appointment requests for an existing user, that user's list is the old list followed by the N new appointments in request order. Its length has grown by exactly N. No request of the trace crashes. |
| `Laws.AppointmentsTouchOnlyTheList` | python-backend/python-backend/app.py:94-105 | After N appointment requests for an existing user, nothing about that user but the appointment list has changed, and no other user has changed. |
| `Laws.AppointmentsForUnknownUser` | python-backend/python-backend/app.py:92-109 | Any number of appointment requests for an unknown email leave the store unchanged and never crash. |
| `Laws.LoginSeesAppointments` | python-backend/python-backend/app.py:184-196 | After N appointment requests, a login with the user's password shows exactly the old appointments followed by the new ones, in request order. |
| `Laws.DuplicateRecordIdAccepted` | python-backend/python-backend/app.py:48-64 | A medical record whose id the user already has is appended and not rejected. After the append, two records carry that id. |
| `Laws.MedicalRecordsAccumulate` | python-backend/python-backend/app.py:50-62 | After N medical-record requests for an existing user, that user's record list is the old list followed by the N new records in request order, repeated record ids included. Its length has grown by exactly N. No request of the trace crashes. |
| `Laws.MedicalRecordsTouchOnlyTheList` | python-backend/python-backend/app.py:50-62 | After N medical-record requests for an existing user, nothing about that user but the record list has changed, and no other user has changed. |
| `Laws.ListingsSplitByRole` | python-backend/python-backend/app.py:113-145 | Take any stored user. Its profile is in the patients listing exactly when its role is "patient", and in the medics listing exactly when its role is "doctor". No email is in both listings. A user with any other role is in neither. |
| `Laws.RegisterExtendsListing` | python-backend/python-backend/app.py:153-163 | A registration adds exactly the new user's profile to the listing of its role. That profile has no description and no phone. Every other listing stays as it was. |
| `Laws.AppointmentKeepsListings` | python-backend/python-backend/app.py:118-125 | Adding an appointment changes neither listing, because the appointment list is not part of a profile. |
| `Laws.MedicalRecordKeepsListings` | python-backend/python-backend/app.py:118-125 | Adding a medical record changes neither listing, because the record list is not part of a profile. |

## Left out

- Web layer: Flask routing, `request.get_json`, `jsonify`, HTTP status codes and CORS (app.py:1-13) are I/O plumbing. A route is modelled as a `Service.Request` constructor. A response is the envelope datatype, not JSON text.
- Database wiring: the MongoDB connection settings and the `save()` calls are library calls. Persisting a document is replacing its entry in the map. Each `save()` is taken to be atomic.
- Exception text: `str(e)` on a failed registration is library output. It is modelled as the kind of error only (`Raised(ValidationError)` or `Raised(NotUniqueError)`).
- Crash paths are preconditions, not responses. These are a missing key read with `data[key]`, and a `null` or missing required field that reaches a `save()` outside any `try`.
- A body that is not a JSON object (a JSON `null`, an array or a string) cannot be represented, because `Json.Body` is a map. Register, login and update would crash on such a body. The two append routes never read the body for an unknown email, so they would still answer "User not found".
- Only string and `null` JSON values are modelled. A number or an object where a string is expected is not.
- Result order of the role queries: the database does not specify it. The listings are sets, and `Handlers.CollectProfiles` may produce any order.
- Concurrent writes to the same document (last write wins) are out of scope. So is the `app.run` bootstrap (app.py:210-211).
