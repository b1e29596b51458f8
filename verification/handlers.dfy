/**
 The seven route handlers of the account service as pure functions from the
 store and the decoded request to the response and the new store. Persisting
 a document with `save()` is replacing (or inserting) its entry in the map.

 A request the Flask code would crash on (a `KeyError` from `data[key]`, or a
 `ValidationError` from a `save()` outside any `try`) is excluded by the
 handler's `*CrashFree` precondition rather than given a response.
 */
module Handlers {
  import opened Json
  import opened Models

  /** The kind of exception `save()` raised; its text is library output. */
  datatype SaveError = ValidationError | NotUniqueError

  /** The `message` of a response: a fixed text, or `str(e)` of a caught exception. */
  datatype Message = Text(text: string) | Raised(error: SaveError)

  /** The `{success, message}` envelope; only a successful login fills `user`. */
  datatype Response = Response(success: bool, message: Message, user: Option<UserView>)

  const UserNotFound := "User not found"
  const IncorrectPassword := "Incorrect password"
  const LoginSuccessful := "Login successful"
  const UserRegistered := "User registered successfully"
  const UserUpdated := "User information updated successfully"
  const AppointmentAdded := "Appointment added successfully"
  const MedicalRecordAdded := "Medical record added successfully"

  const PatientRole := "patient"
  const DoctorRole := "doctor"

  function Succeeded(text: string): Response
  {
    Response(true, Text(text), None)
  }

  function Failed(message: Message): Response
  {
    Response(false, message, None)
  }

  // ---------------------------------------------------------------------------
  // Register

  const RegisterKeys: set<string> := {"email", "password", "name", "surname", "role"}

  /** `register_user` reads its five fields with `data[key]`. */
  predicate RegisterCrashFree(body: Body)
  {
    HasKeys(body, RegisterKeys)
  }

  /** None of the five fields is `null`, so the new document passes validation. */
  predicate RegisterComplete(body: Body)
    requires RegisterCrashFree(body)
  {
    && body["email"].Some?
    && body["password"].Some?
    && body["name"].Some?
    && body["surname"].Some?
    && body["role"].Some?
  }

  /** `register_user`: build a document with empty lists and no work description,
      then `save()` inside a `try`. Validation runs before the insert, so a
      `null` field is reported as a validation error even for a taken email. */
  function Register(s: Store, body: Body): (out: (Response, Store))
    requires RegisterCrashFree(body)
    ensures out.0.user.None?
    ensures out.0.success <==> RegisterComplete(body) && body["email"].value !in s
    ensures !out.0.success ==> out.1 == s
    ensures !RegisterComplete(body) ==> out.0.message == Raised(ValidationError)
    ensures RegisterComplete(body) && body["email"].value in s ==>
              out.0.message == Raised(NotUniqueError)
    ensures out.0.success ==>
              var e := body["email"].value;
              && out.0.message == Text(UserRegistered)
              && out.1.Keys == s.Keys + {e}
              && out.1[e].email == e
              && Some(out.1[e].password) == body["password"]
              && Some(out.1[e].name) == body["name"]
              && Some(out.1[e].surname) == body["surname"]
              && Some(out.1[e].role) == body["role"]
              && out.1[e].appointments == []
              && out.1[e].medicalHistory == []
              && out.1[e].workDescription == None
              && out.1[e].prescriptions == []
              && out.1[e].phone == None
              && out.1[e].medicalRecords == []
              && OthersUnchanged(s, out.1, Some(e))
  {
    if !RegisterComplete(body) then
      (Failed(Raised(ValidationError)), s)
    else
      var e := body["email"].value;
      if e in s then
        (Failed(Raised(NotUniqueError)), s)
      else
        var u := User(e, body["password"].value, body["name"].value,
                      body["surname"].value, body["role"].value,
                      [], [], None, [], None, []);
        (Succeeded(UserRegistered), s[e := u])
  }

  // ---------------------------------------------------------------------------
  // Login

  const LoginKeys: set<string> := {"email", "password"}

  /** `login_user` reads `email` and `password` with `data[key]`. */
  predicate LoginCrashFree(body: Body)
  {
    HasKeys(body, LoginKeys)
  }

  /** `login_user`: look the user up, compare the password by plain equality,
      and on success return the login projection. The store is only read. */
  function Login(s: Store, body: Body): (r: Response)
    requires LoginCrashFree(body)
    ensures Lookup(s, body["email"]).None? ==>
              r == Response(false, Text(UserNotFound), None)
    ensures Lookup(s, body["email"]).Some? && body["password"] != Some(s[body["email"].value].password) ==>
              r == Response(false, Text(IncorrectPassword), None)
    ensures r.success <==>
              body["email"].Some? && body["email"].value in s
              && body["password"] == Some(s[body["email"].value].password)
    ensures r.success ==>
              var u := s[body["email"].value];
              && r.message == Text(LoginSuccessful)
              && r.user.Some?
              && r.user.value.name == u.name
              && r.user.value.email == u.email
              && r.user.value.role == u.role
              && r.user.value.appointments == u.appointments
              && r.user.value.medicalHistory == u.medicalHistory
              && r.user.value.description == u.workDescription
              && r.user.value.prescriptions == u.prescriptions
  {
    var found := Lookup(s, body["email"]);
    if found.None? then
      Failed(Text(UserNotFound))
    else if body["password"] == Some(found.value.password) then
      Response(true, Text(LoginSuccessful), Some(ViewOf(found.value)))
    else
      Failed(Text(IncorrectPassword))
  }

  // ---------------------------------------------------------------------------
  // Update

  /** A `null` name or surname would reach `save()` and fail validation uncaught. */
  predicate UpdateComplete(body: Body)
  {
    && ("name" in body ==> body["name"].Some?)
    && ("surname" in body ==> body["surname"].Some?)
  }

  /** `update_user` reads `email` with `data[key]`, and for an existing user
      saves outside any `try`. */
  predicate UpdateCrashFree(s: Store, body: Body)
  {
    "email" in body && (Lookup(s, body["email"]).Some? ==> UpdateComplete(body))
  }

  /** `update_user`: each of the four editable fields takes the body's value
      when its key was sent (an explicit `null` clears an optional field) and
      keeps the stored value otherwise. */
  function Update(s: Store, body: Body): (out: (Response, Store))
    requires UpdateCrashFree(s, body)
    ensures out.0.user.None?
    ensures out.0.success <==> Lookup(s, body["email"]).Some?
    ensures !out.0.success ==> out.0.message == Text(UserNotFound) && out.1 == s
    ensures out.0.success ==>
              var e := body["email"].value;
              && out.0.message == Text(UserUpdated)
              && e in s && out.1.Keys == s.Keys
              && ("name" in body ==> Some(out.1[e].name) == body["name"])
              && ("name" !in body ==> out.1[e].name == s[e].name)
              && ("surname" in body ==> Some(out.1[e].surname) == body["surname"])
              && ("surname" !in body ==> out.1[e].surname == s[e].surname)
              && ("work_description" in body ==> out.1[e].workDescription == body["work_description"])
              && ("work_description" !in body ==> out.1[e].workDescription == s[e].workDescription)
              && ("phone" in body ==> out.1[e].phone == body["phone"])
              && ("phone" !in body ==> out.1[e].phone == s[e].phone)
              && out.1[e].(name := s[e].name, surname := s[e].surname,
                           workDescription := s[e].workDescription, phone := s[e].phone) == s[e]
              && OthersUnchanged(s, out.1, Some(e))
  {
    var found := Lookup(s, body["email"]);
    if found.None? then
      (Failed(Text(UserNotFound)), s)
    else
      var u := found.value;
      var u' := u.(name := GetOr(body, "name", Some(u.name)).value,
                   surname := GetOr(body, "surname", Some(u.surname)).value,
                   workDescription := GetOr(body, "work_description", u.workDescription),
                   phone := GetOr(body, "phone", u.phone));
      (Succeeded(UserUpdated), s[body["email"].value := u'])
  }

  // ---------------------------------------------------------------------------
  // Add appointment

  /** All four appointment fields are present and not `null`. */
  predicate AppointmentComplete(body: Body)
  {
    && Get(body, "name").Some?
    && Get(body, "condition").Some?
    && Get(body, "appointmentDate").Some?
    && Get(body, "appointmentTime").Some?
  }

  /** `add_appointment` reads the fields with `data.get`, so a missing one is
      `None` and the `save()` of an existing user fails validation uncaught. */
  predicate AppointmentCrashFree(s: Store, email: string, body: Body)
  {
    email in s ==> AppointmentComplete(body)
  }

  function AppointmentOf(body: Body): Appointment
    requires AppointmentComplete(body)
  {
    Appointment(Get(body, "name").value, Get(body, "condition").value,
                Get(body, "appointmentDate").value, Get(body, "appointmentTime").value)
  }

  /** `add_appointment`: append one appointment built from the body to the
      user's list, with no check against the existing appointments. */
  function AddAppointment(s: Store, email: string, body: Body): (out: (Response, Store))
    requires AppointmentCrashFree(s, email, body)
    ensures out.0.user.None?
    ensures out.0.success <==> email in s
    ensures !out.0.success ==> out.0.message == Text(UserNotFound) && out.1 == s
    ensures out.0.success ==>
              var n := |s[email].appointments|;
              && out.0.message == Text(AppointmentAdded)
              && out.1.Keys == s.Keys
              && |out.1[email].appointments| == n + 1
              && out.1[email].appointments[..n] == s[email].appointments
              && Some(out.1[email].appointments[n].name) == Get(body, "name")
              && Some(out.1[email].appointments[n].condition) == Get(body, "condition")
              && Some(out.1[email].appointments[n].appointmentDate) == Get(body, "appointmentDate")
              && Some(out.1[email].appointments[n].appointmentTime) == Get(body, "appointmentTime")
              && out.1[email].(appointments := s[email].appointments) == s[email]
              && OthersUnchanged(s, out.1, Some(email))
  {
    if email in s then
      var u := s[email];
      (Succeeded(AppointmentAdded), s[email := u.(appointments := u.appointments + [AppointmentOf(body)])])
    else
      (Failed(Text(UserNotFound)), s)
  }

  // ---------------------------------------------------------------------------
  // Add medical record

  /** The four required record fields are present and not `null`; `notes` may be missing. */
  predicate MedicalRecordComplete(body: Body)
  {
    && Get(body, "record_id").Some?
    && Get(body, "diagnosis").Some?
    && Get(body, "treatment").Some?
    && Get(body, "date_of_visit").Some?
  }

  /** As for appointments: a missing required field makes the `save()` of an
      existing user fail validation uncaught. */
  predicate MedicalRecordCrashFree(s: Store, email: string, body: Body)
  {
    email in s ==> MedicalRecordComplete(body)
  }

  function MedicalRecordOf(body: Body): MedicalRecord
    requires MedicalRecordComplete(body)
  {
    MedicalRecord(Get(body, "record_id").value, Get(body, "diagnosis").value,
                  Get(body, "treatment").value, Get(body, "date_of_visit").value,
                  Get(body, "notes"))
  }

  /** `add_medical_record`: append one record built from the body, whatever
      records (with whatever ids) the user already has. */
  function AddMedicalRecord(s: Store, email: string, body: Body): (out: (Response, Store))
    requires MedicalRecordCrashFree(s, email, body)
    ensures out.0.user.None?
    ensures out.0.success <==> email in s
    ensures !out.0.success ==> out.0.message == Text(UserNotFound) && out.1 == s
    ensures out.0.success ==>
              var n := |s[email].medicalRecords|;
              && out.0.message == Text(MedicalRecordAdded)
              && out.1.Keys == s.Keys
              && |out.1[email].medicalRecords| == n + 1
              && out.1[email].medicalRecords[..n] == s[email].medicalRecords
              && Some(out.1[email].medicalRecords[n].recordId) == Get(body, "record_id")
              && Some(out.1[email].medicalRecords[n].diagnosis) == Get(body, "diagnosis")
              && Some(out.1[email].medicalRecords[n].treatment) == Get(body, "treatment")
              && Some(out.1[email].medicalRecords[n].dateOfVisit) == Get(body, "date_of_visit")
              && out.1[email].medicalRecords[n].notes == Get(body, "notes")
              && out.1[email].(medicalRecords := s[email].medicalRecords) == s[email]
              && OthersUnchanged(s, out.1, Some(email))
  {
    if email in s then
      var u := s[email];
      (Succeeded(MedicalRecordAdded),
       s[email := u.(medicalRecords := u.medicalRecords + [MedicalRecordOf(body)])])
    else
      (Failed(Text(UserNotFound)), s)
  }

  // ---------------------------------------------------------------------------
  // Listings

  /** The profiles of the users whose role is exactly `role`, as a set: the
      query's result order is not specified. */
  function Listing(s: Store, role: string): (r: set<Profile>)
    ensures forall p :: p in r ==> p.role == role
    ensures Wf(s) ==>
              forall p :: p in r <==>
                p.email in s && s[p.email].role == role && p == ProfileOf(s[p.email])
  {
    set e | e in s && s[e].role == role :: ProfileOf(s[e])
  }

  /** `get_patients`. */
  function Patients(s: Store): set<Profile>
  {
    Listing(s, PatientRole)
  }

  /** `get_medics`. */
  function Medics(s: Store): set<Profile>
  {
    Listing(s, DoctorRole)
  }

  /** The loop of `get_patients` and `get_medics`, with the role query's
      filter folded into it: walk every user in whatever order the store
      yields them and project those with the role. The result holds exactly
      the listing's profiles, each once. */
  method CollectProfiles(s: Store, role: string) returns (out: seq<Profile>)
    requires Wf(s)
    ensures forall p :: p in out <==> p in Listing(s, role)
    ensures forall i, j :: 0 <= i < j < |out| ==> out[i].email != out[j].email
  {
    out := [];
    var todo := s.Keys;
    while todo != {}
      invariant todo <= s.Keys
      invariant forall p :: p in out <==>
                  p.email in s && p.email !in todo && s[p.email].role == role
                  && p == ProfileOf(s[p.email])
      invariant forall i :: 0 <= i < |out| ==> out[i].email !in todo
      invariant forall i, j :: 0 <= i < j < |out| ==> out[i].email != out[j].email
      decreases todo
    {
      var e :| e in todo;
      todo := todo - {e};
      if s[e].role == role {
        out := out + [ProfileOf(s[e])];
      }
    }
  }
}
