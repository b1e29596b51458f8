/**
 Laws that relate several requests: what one handler leaves behind for the
 next, repeated appends, and how the two role listings split the users.
 */
module Laws {
  import opened Json
  import opened Models
  import opened Handlers
  import opened Service

  /** Leaving everyone but `e` unchanged composes. */
  lemma OthersUnchangedTrans(s1: Store, s2: Store, s3: Store, e: Option<string>)
    requires OthersUnchanged(s1, s2, e) && OthersUnchanged(s2, s3, e)
    ensures OthersUnchanged(s1, s3, e)
  {
  }

  // ---------------------------------------------------------------------------
  // Register and login

  /** A second registration of a taken email fails and the first user's
      document stays as it was. */
  lemma RegisterTwice(s: Store, first: Body, second: Body)
    requires RegisterCrashFree(first) && RegisterCrashFree(second)
    requires Register(s, first).0.success
    requires second["email"] == first["email"]
    ensures var s1 := Register(s, first).1;
            && !Register(s1, second).0.success
            && Register(s1, second).1 == s1
            && s1[first["email"].value].password == first["password"].value
  {
  }

  /** Right after registering, the same email and password log in, and the
      projection shows the registered name and role with empty lists. */
  lemma LoginAfterRegister(s: Store, reg: Body, login: Body)
    requires RegisterCrashFree(reg) && LoginCrashFree(login)
    requires Register(s, reg).0.success
    requires login["email"] == reg["email"] && login["password"] == reg["password"]
    ensures var r := Login(Register(s, reg).1, login);
            && r.success
            && r.user == Some(UserView(reg["name"].value, reg["email"].value, reg["role"].value,
                                       [], [], None, []))
  {
  }

  /** Login with a wrong password for a registered user is refused. */
  lemma LoginWrongPasswordAfterRegister(s: Store, reg: Body, login: Body)
    requires RegisterCrashFree(reg) && LoginCrashFree(login)
    requires Register(s, reg).0.success
    requires login["email"] == reg["email"] && login["password"] != reg["password"]
    ensures Login(Register(s, reg).1, login) == Response(false, Text(IncorrectPassword), None)
  {
  }

  // ---------------------------------------------------------------------------
  // Update

  /** Sending the same update twice is the same as sending it once. */
  lemma UpdateIdempotent(s: Store, body: Body)
    requires UpdateCrashFree(s, body)
    ensures UpdateCrashFree(Update(s, body).1, body)
    ensures Update(Update(s, body).1, body).1 == Update(s, body).1
  {
  }

  /** An update that names no field rewrites the document unchanged. */
  lemma UpdateWithOnlyEmail(s: Store, body: Body)
    requires body.Keys == {"email"}
    ensures UpdateCrashFree(s, body)
    ensures Update(s, body).1 == s
  {
  }

  /** An update never changes the outcome of a login: email and password are
      not among the fields it writes. */
  lemma UpdateKeepsCredentials(s: Store, upd: Body, login: Body)
    requires UpdateCrashFree(s, upd) && LoginCrashFree(login)
    ensures Login(Update(s, upd).1, login).success == Login(s, login).success
    ensures Login(Update(s, upd).1, login).message == Login(s, login).message
  {
  }

  // ---------------------------------------------------------------------------
  // Appends

  /** Appending one element and then a list is appending their concatenation. */
  lemma AppendThenConcat<T>(xs: seq<T>, x: T, ys: seq<T>)
    ensures (xs + [x]) + ys == xs + ([x] + ys)
  {
  }

  /** `n` appointment requests for one user, in order. */
  function AppointmentRequests(email: string, bodies: seq<Body>): (reqs: seq<Request>)
    ensures |reqs| == |bodies|
  {
    if bodies == [] then []
    else [PostAppointment(email, bodies[0])] + AppointmentRequests(email, bodies[1..])
  }

  /** The appointments the bodies describe, in order. */
  function AppointmentsOf(bodies: seq<Body>): (r: seq<Appointment>)
    requires forall i :: 0 <= i < |bodies| ==> AppointmentComplete(bodies[i])
    ensures |r| == |bodies|
    ensures forall i :: 0 <= i < |bodies| ==> r[i] == AppointmentOf(bodies[i])
  {
    if bodies == [] then [] else [AppointmentOf(bodies[0])] + AppointmentsOf(bodies[1..])
  }

  /** One appointment request for an existing user is the store update that
      appends the body's appointment. */
  lemma AppointmentStep(s: Store, email: string, body: Body)
    requires email in s && AppointmentComplete(body)
    ensures AddAppointment(s, email, body).1
            == s[email := s[email].(appointments := s[email].appointments + [AppointmentOf(body)])]
  {
  }

  /** The router sends an appointment request to its handler. */
  lemma HandleAppointment(s: Store, email: string, body: Body)
    requires AppointmentCrashFree(s, email, body)
    ensures CrashFree(s, PostAppointment(email, body))
    ensures Handle(s, PostAppointment(email, body)).1 == AddAppointment(s, email, body).1
  {
  }

  /** Routing one request of this kind for an existing user appends the
      body's element to that user's list. */
  lemma AppointmentHandled(s: Store, email: string, body: Body)
    requires email in s && AppointmentComplete(body)
    ensures CrashFree(s, PostAppointment(email, body))
    ensures Handle(s, PostAppointment(email, body)).1
            == s[email := s[email].(appointments := s[email].appointments + [AppointmentOf(body)])]
  {
    AppointmentStep(s, email, body);
    HandleAppointment(s, email, body);
  }

  /** After `n` successful appointment requests the user's list is the old
      list followed by the `n` new appointments in request order. */
  lemma {:induction false} AppointmentsAccumulate(s: Store, email: string, bodies: seq<Body>)
    requires email in s
    requires forall i :: 0 <= i < |bodies| ==> AppointmentComplete(bodies[i])
    ensures TraceCrashFree(s, AppointmentRequests(email, bodies))
    ensures var s' := Run(s, AppointmentRequests(email, bodies));
            && email in s'
            && s'[email].appointments == s[email].appointments + AppointmentsOf(bodies)
            && |s'[email].appointments| == |s[email].appointments| + |bodies|
    decreases |bodies|
  {
    if bodies != [] {
      var a := AppointmentOf(bodies[0]);
      var s1 := s[email := s[email].(appointments := s[email].appointments + [a])];
      var first := PostAppointment(email, bodies[0]);
      var rest := AppointmentRequests(email, bodies[1..]);
      AppointmentHandled(s, email, bodies[0]);
      assert forall i :: 0 <= i < |bodies[1..]| ==> AppointmentComplete(bodies[1..][i]);
      AppointmentsAccumulate(s1, email, bodies[1..]);
      assert AppointmentRequests(email, bodies) == [first] + rest;
      RunCons(s, first, rest);
      assert AppointmentsOf(bodies) == [a] + AppointmentsOf(bodies[1..]);
      assert Run(s, AppointmentRequests(email, bodies)) == Run(s1, rest);
      assert Run(s1, rest)[email].appointments == (s[email].appointments + [a]) + AppointmentsOf(bodies[1..]);
      AppendThenConcat(s[email].appointments, a, AppointmentsOf(bodies[1..]));
    }
  }

  /** Appointment requests for an existing user change nothing about that user
      but the appointment list, and nothing about any other user. */
  lemma {:induction false} AppointmentsTouchOnlyTheList(s: Store, email: string, bodies: seq<Body>)
    requires email in s
    requires forall i :: 0 <= i < |bodies| ==> AppointmentComplete(bodies[i])
    ensures TraceCrashFree(s, AppointmentRequests(email, bodies))
    ensures var s' := Run(s, AppointmentRequests(email, bodies));
            && email in s'
            && s'[email].(appointments := s[email].appointments) == s[email]
            && OthersUnchanged(s, s', Some(email))
    decreases |bodies|
  {
    if bodies != [] {
      var s1 := AddAppointment(s, email, bodies[0]).1;
      AppointmentStep(s, email, bodies[0]);
      var first := PostAppointment(email, bodies[0]);
      var rest := AppointmentRequests(email, bodies[1..]);
      assert AppointmentRequests(email, bodies) == [first] + rest;
      HandleAppointment(s, email, bodies[0]);
      AppointmentsTouchOnlyTheList(s1, email, bodies[1..]);
      RunCons(s, first, rest);
      OthersUnchangedTrans(s, s1, Run(s1, rest), Some(email));
    }
  }

  /** Appointment requests for an unknown email leave the store untouched. */
  lemma {:induction false} AppointmentsForUnknownUser(s: Store, email: string, bodies: seq<Body>)
    requires email !in s
    ensures TraceCrashFree(s, AppointmentRequests(email, bodies))
    ensures Run(s, AppointmentRequests(email, bodies)) == s
    decreases |bodies|
  {
    if bodies != [] {
      var reqs := AppointmentRequests(email, bodies);
      assert reqs[1..] == AppointmentRequests(email, bodies[1..]);
      AppointmentsForUnknownUser(s, email, bodies[1..]);
    }
  }

  /** The login projection shows the appointments exactly as they were added,
      in order. */
  lemma LoginSeesAppointments(s: Store, email: string, bodies: seq<Body>, login: Body)
    requires email in s
    requires forall i :: 0 <= i < |bodies| ==> AppointmentComplete(bodies[i])
    requires LoginCrashFree(login)
    requires login["email"] == Some(email) && login["password"] == Some(s[email].password)
    ensures TraceCrashFree(s, AppointmentRequests(email, bodies))
    ensures var r := Login(Run(s, AppointmentRequests(email, bodies)), login);
            && r.success
            && r.user.value.appointments == s[email].appointments + AppointmentsOf(bodies)
  {
    AppointmentsAccumulate(s, email, bodies);
    AppointmentsTouchOnlyTheList(s, email, bodies);
  }

  /** `n` medical-record requests for one user, in order. */
  function RecordRequests(email: string, bodies: seq<Body>): (reqs: seq<Request>)
    ensures |reqs| == |bodies|
  {
    if bodies == [] then []
    else [PostMedicalRecord(email, bodies[0])] + RecordRequests(email, bodies[1..])
  }

  /** The medical records the bodies describe, in order. */
  function MedicalRecordsOf(bodies: seq<Body>): (r: seq<MedicalRecord>)
    requires forall i :: 0 <= i < |bodies| ==> MedicalRecordComplete(bodies[i])
    ensures |r| == |bodies|
    ensures forall i :: 0 <= i < |bodies| ==> r[i] == MedicalRecordOf(bodies[i])
  {
    if bodies == [] then [] else [MedicalRecordOf(bodies[0])] + MedicalRecordsOf(bodies[1..])
  }

  /** One medical-record request for an existing user is the store update that
      appends the body's record. */
  lemma MedicalRecordStep(s: Store, email: string, body: Body)
    requires email in s && MedicalRecordComplete(body)
    ensures AddMedicalRecord(s, email, body).1
            == s[email := s[email].(medicalRecords := s[email].medicalRecords + [MedicalRecordOf(body)])]
  {
  }

  /** The router sends a medical-record request to its handler. */
  lemma HandleMedicalRecord(s: Store, email: string, body: Body)
    requires MedicalRecordCrashFree(s, email, body)
    ensures CrashFree(s, PostMedicalRecord(email, body))
    ensures Handle(s, PostMedicalRecord(email, body)).1 == AddMedicalRecord(s, email, body).1
  {
  }

  /** Routing one request of this kind for an existing user appends the
      body's element to that user's list. */
  lemma MedicalRecordHandled(s: Store, email: string, body: Body)
    requires email in s && MedicalRecordComplete(body)
    ensures CrashFree(s, PostMedicalRecord(email, body))
    ensures Handle(s, PostMedicalRecord(email, body)).1
            == s[email := s[email].(medicalRecords := s[email].medicalRecords + [MedicalRecordOf(body)])]
  {
    MedicalRecordStep(s, email, body);
    HandleMedicalRecord(s, email, body);
  }

  /** After `n` successful medical-record requests the user's list is the old
      list followed by the `n` new records in request order, duplicates of
      `record_id` included. */
  lemma {:induction false} MedicalRecordsAccumulate(s: Store, email: string, bodies: seq<Body>)
    requires email in s
    requires forall i :: 0 <= i < |bodies| ==> MedicalRecordComplete(bodies[i])
    ensures TraceCrashFree(s, RecordRequests(email, bodies))
    ensures var s' := Run(s, RecordRequests(email, bodies));
            && email in s'
            && s'[email].medicalRecords == s[email].medicalRecords + MedicalRecordsOf(bodies)
            && |s'[email].medicalRecords| == |s[email].medicalRecords| + |bodies|
    decreases |bodies|
  {
    if bodies != [] {
      var m := MedicalRecordOf(bodies[0]);
      var s1 := s[email := s[email].(medicalRecords := s[email].medicalRecords + [m])];
      var first := PostMedicalRecord(email, bodies[0]);
      var rest := RecordRequests(email, bodies[1..]);
      MedicalRecordHandled(s, email, bodies[0]);
      assert forall i :: 0 <= i < |bodies[1..]| ==> MedicalRecordComplete(bodies[1..][i]);
      MedicalRecordsAccumulate(s1, email, bodies[1..]);
      assert RecordRequests(email, bodies) == [first] + rest;
      RunCons(s, first, rest);
      assert MedicalRecordsOf(bodies) == [m] + MedicalRecordsOf(bodies[1..]);
      assert Run(s, RecordRequests(email, bodies)) == Run(s1, rest);
      assert Run(s1, rest)[email].medicalRecords == (s[email].medicalRecords + [m]) + MedicalRecordsOf(bodies[1..]);
      AppendThenConcat(s[email].medicalRecords, m, MedicalRecordsOf(bodies[1..]));
    }
  }

  /** Medical-record requests for an existing user change nothing about that
      user but the record list, and nothing about any other user. */
  lemma {:induction false} MedicalRecordsTouchOnlyTheList(s: Store, email: string, bodies: seq<Body>)
    requires email in s
    requires forall i :: 0 <= i < |bodies| ==> MedicalRecordComplete(bodies[i])
    ensures TraceCrashFree(s, RecordRequests(email, bodies))
    ensures var s' := Run(s, RecordRequests(email, bodies));
            && email in s'
            && s'[email].(medicalRecords := s[email].medicalRecords) == s[email]
            && OthersUnchanged(s, s', Some(email))
    decreases |bodies|
  {
    if bodies != [] {
      var s1 := AddMedicalRecord(s, email, bodies[0]).1;
      MedicalRecordStep(s, email, bodies[0]);
      var first := PostMedicalRecord(email, bodies[0]);
      var rest := RecordRequests(email, bodies[1..]);
      assert RecordRequests(email, bodies) == [first] + rest;
      HandleMedicalRecord(s, email, bodies[0]);
      MedicalRecordsTouchOnlyTheList(s1, email, bodies[1..]);
      RunCons(s, first, rest);
      OthersUnchangedTrans(s, s1, Run(s1, rest), Some(email));
    }
  }

  /** A record whose id the user already has is appended, not rejected. */
  lemma DuplicateRecordIdAccepted(s: Store, email: string, body: Body, i: nat)
    requires email in s && MedicalRecordComplete(body)
    requires i < |s[email].medicalRecords|
    requires s[email].medicalRecords[i].recordId == Get(body, "record_id").value
    ensures var out := AddMedicalRecord(s, email, body);
            var n := |s[email].medicalRecords|;
            && out.0.success
            && |out.1[email].medicalRecords| == n + 1
            && out.1[email].medicalRecords[i].recordId == out.1[email].medicalRecords[n].recordId
  {
  }

  // ---------------------------------------------------------------------------
  // Listings

  /** For every stored user: its profile is listed by `/patients` exactly when
      its role is "patient", by `/medics` exactly when it is "doctor"; no email
      is in both listings, and other roles are in neither. */
  lemma ListingsSplitByRole(s: Store)
    requires Wf(s)
    ensures forall e :: e in s ==> (ProfileOf(s[e]) in Patients(s) <==> s[e].role == PatientRole)
    ensures forall e :: e in s ==> (ProfileOf(s[e]) in Medics(s) <==> s[e].role == DoctorRole)
    ensures forall p, q :: p in Patients(s) && q in Medics(s) ==> p.email != q.email
    ensures forall p :: p in Patients(s) + Medics(s) ==>
              p.email in s && s[p.email].role in {PatientRole, DoctorRole}
  {
  }

  /** Registering a user adds exactly its profile to the listing of its role,
      with no description and no phone, and changes no other listing. */
  lemma RegisterExtendsListing(s: Store, body: Body, role: string)
    requires Wf(s) && RegisterCrashFree(body)
    requires Register(s, body).0.success
    ensures var s' := Register(s, body).1;
            var added := Profile(body["name"].value, body["email"].value, body["surname"].value,
                                 body["role"].value, None, None);
            && (role == body["role"].value ==> Listing(s', role) == Listing(s, role) + {added})
            && (role != body["role"].value ==> Listing(s', role) == Listing(s, role))
  {
  }

  /** A listing depends only on the users' profiles. */
  lemma SameProfilesSameListing(s: Store, s': Store, role: string)
    requires Wf(s) && Wf(s') && s'.Keys == s.Keys
    requires forall e :: e in s ==> ProfileOf(s'[e]) == ProfileOf(s[e])
    ensures Listing(s', role) == Listing(s, role)
  {
    assert forall p :: p in Listing(s', role) <==> p in Listing(s, role);
  }

  /** Adding an appointment changes no listing: the list is not part of a profile. */
  lemma AppointmentKeepsListings(s: Store, email: string, body: Body, role: string)
    requires Wf(s) && AppointmentCrashFree(s, email, body)
    ensures Listing(AddAppointment(s, email, body).1, role) == Listing(s, role)
  {
    var s' := AddAppointment(s, email, body).1;
    if email in s {
      assert ProfileOf(s'[email]) == ProfileOf(s[email]);
    }
    SameProfilesSameListing(s, s', role);
  }

  /** Adding a medical record changes no listing: the list is not part of a profile. */
  lemma MedicalRecordKeepsListings(s: Store, email: string, body: Body, role: string)
    requires Wf(s) && MedicalRecordCrashFree(s, email, body)
    ensures Listing(AddMedicalRecord(s, email, body).1, role) == Listing(s, role)
  {
    var s' := AddMedicalRecord(s, email, body).1;
    if email in s {
      assert ProfileOf(s'[email]) == ProfileOf(s[email]);
    }
    SameProfilesSameListing(s, s', role);
  }
}
