/**
 The account service as a state machine: one request of any of the seven
 routes at a time, each a single read-modify-write of at most one document.
 */
module Service {
  import opened Json
  import opened Models
  import opened Handlers

  /** One HTTP request, already routed and decoded. */
  datatype Request =
    | PostRegister(body: Body)
    | PostLogin(body: Body)
    | PutUpdate(body: Body)
    | PostAppointment(email: string, body: Body)
    | PostMedicalRecord(email: string, body: Body)
    | GetPatients
    | GetMedics

  /** What the route sends back: an envelope, or the profiles of a listing. */
  datatype Reply = Envelope(response: Response) | Entries(profiles: set<Profile>)

  /** The request does not take any of the handler's crash paths. */
  predicate CrashFree(s: Store, req: Request)
  {
    match req
    case PostRegister(body) => RegisterCrashFree(body)
    case PostLogin(body) => LoginCrashFree(body)
    case PutUpdate(body) => UpdateCrashFree(s, body)
    case PostAppointment(email, body) => AppointmentCrashFree(s, email, body)
    case PostMedicalRecord(email, body) => MedicalRecordCrashFree(s, email, body)
    case GetPatients => true
    case GetMedics => true
  }

  /** The email of the only document the request may write, if any. */
  function Target(req: Request): Option<string>
  {
    match req
    case PostRegister(body) => Get(body, "email")
    case PutUpdate(body) => Get(body, "email")
    case PostAppointment(email, _) => Some(email)
    case PostMedicalRecord(email, _) => Some(email)
    case PostLogin(_) => None
    case GetPatients => None
    case GetMedics => None
  }

  /** Route a request to its handler. */
  function Handle(s: Store, req: Request): (out: (Reply, Store))
    requires CrashFree(s, req)
    ensures OthersUnchanged(s, out.1, Target(req))
    ensures Target(req).None? ==> out.1 == s
    ensures out.1.Keys == s.Keys || (req.PostRegister? && |out.1| == |s| + 1)
    ensures Wf(s) ==> Wf(out.1)
  {
    match req
    case PostRegister(body) =>
      var out := Register(s, body); (Envelope(out.0), out.1)
    case PostLogin(body) => (Envelope(Login(s, body)), s)
    case PutUpdate(body) =>
      var out := Update(s, body); (Envelope(out.0), out.1)
    case PostAppointment(email, body) =>
      var out := AddAppointment(s, email, body); (Envelope(out.0), out.1)
    case PostMedicalRecord(email, body) =>
      var out := AddMedicalRecord(s, email, body); (Envelope(out.0), out.1)
    case GetPatients => (Entries(Patients(s)), s)
    case GetMedics => (Entries(Medics(s)), s)
  }

  /** Every request of the trace is crash-free in the store it meets. */
  predicate TraceCrashFree(s: Store, reqs: seq<Request>)
    decreases |reqs|
  {
    reqs == [] || (CrashFree(s, reqs[0]) && TraceCrashFree(Handle(s, reqs[0]).1, reqs[1..]))
  }

  /** The store after handling the requests one after another. */
  function Run(s: Store, reqs: seq<Request>): (s': Store)
    requires TraceCrashFree(s, reqs)
    ensures s.Keys <= s'.Keys
    ensures |s'| <= |s| + |reqs|
    ensures Wf(s) ==> Wf(s')
    decreases |reqs|
  {
    if reqs == [] then s else Run(Handle(s, reqs[0]).1, reqs[1..])
  }

  /** Running one request and then a trace is running the longer trace. */
  lemma RunCons(s: Store, req: Request, rest: seq<Request>)
    requires CrashFree(s, req) && TraceCrashFree(Handle(s, req).1, rest)
    ensures TraceCrashFree(s, [req] + rest)
    ensures Run(s, [req] + rest) == Run(Handle(s, req).1, rest)
  {
  }

  /** A document that no request of the trace targets ends as it started. */
  lemma {:induction false} RunFrame(s: Store, reqs: seq<Request>, e: string)
    requires TraceCrashFree(s, reqs)
    requires forall i :: 0 <= i < |reqs| ==> Target(reqs[i]) != Some(e)
    ensures e in Run(s, reqs) <==> e in s
    ensures e in s ==> Run(s, reqs)[e] == s[e]
    decreases |reqs|
  {
    if reqs != [] {
      var s1 := Handle(s, reqs[0]).1;
      assert Target(reqs[0]) != Some(e);
      forall i | 0 <= i < |reqs[1..]|
        ensures Target(reqs[1..][i]) != Some(e)
      {
        assert reqs[1..][i] == reqs[i + 1];
      }
      RunFrame(s1, reqs[1..], e);
    }
  }

  /** A trace with no registration creates no document. */
  lemma {:induction false} RunWithoutRegisterKeepsKeys(s: Store, reqs: seq<Request>)
    requires TraceCrashFree(s, reqs)
    requires forall i :: 0 <= i < |reqs| ==> !reqs[i].PostRegister?
    ensures Run(s, reqs).Keys == s.Keys
    decreases |reqs|
  {
    if reqs != [] {
      assert !reqs[0].PostRegister?;
      forall i | 0 <= i < |reqs[1..]|
        ensures !reqs[1..][i].PostRegister?
      {
        assert reqs[1..][i] == reqs[i + 1];
      }
      RunWithoutRegisterKeepsKeys(Handle(s, reqs[0]).1, reqs[1..]);
    }
  }
}
