/**
 The documents of the account store: `User` with its embedded `Appointment`
 and `MedicalRecord` lists, the store itself, and the two projections the
 handlers hand back to clients.
 */
module Models {
  import opened Json

  /** An embedded appointment; all four fields are required strings. */
  datatype Appointment = Appointment(
    name: string,
    condition: string,
    appointmentDate: string,
    appointmentTime: string)

  /** An embedded medical record; `recordId` is chosen by the caller and is not unique. */
  datatype MedicalRecord = MedicalRecord(
    recordId: string,
    diagnosis: string,
    treatment: string,
    dateOfVisit: string,
    notes: Option<string>)

  /** A stored user document. The required string fields are never null in a
      saved document, so they are plain strings; `prescriptions` is the
      document's `retete_medicale` list. */
  datatype User = User(
    email: string,
    password: string,
    name: string,
    surname: string,
    role: string,
    appointments: seq<Appointment>,
    medicalHistory: seq<string>,
    workDescription: Option<string>,
    prescriptions: seq<string>,
    phone: Option<string>,
    medicalRecords: seq<MedicalRecord>)

  /** The `User` collection, keyed by the unique `email` index. */
  type Store = map<string, User>

  /** The store invariant: each document sits under its own email. Together with
      the map's unique keys this is the collection's unique index on `email`. */
  predicate Wf(s: Store)
  {
    forall e :: e in s ==> s[e].email == e
  }

  /** `User.objects(email=email).first()`. A `null` email matches nothing, since
      every saved document has an email. */
  function Lookup(s: Store, email: Option<string>): Option<User>
  {
    if email.Some? && email.value in s then Some(s[email.value]) else None
  }

  /** Every document other than the one under `target` is present in `s'`
      exactly when it is present in `s`, with the same contents. */
  predicate OthersUnchanged(s: Store, s': Store, target: Option<string>)
  {
    && (forall k :: k in s && Some(k) != target ==> k in s' && s'[k] == s[k])
    && (forall k :: k in s' && Some(k) != target ==> k in s)
  }

  /** One entry of the `/patients` and `/medics` listings. */
  datatype Profile = Profile(
    name: string,
    email: string,
    surname: string,
    role: string,
    description: Option<string>,
    phone: Option<string>)

  /** What a successful login returns about the user. There is no field for
      the password, the surname, the phone or the medical records. */
  datatype UserView = UserView(
    name: string,
    email: string,
    role: string,
    appointments: seq<Appointment>,
    medicalHistory: seq<string>,
    description: Option<string>,
    prescriptions: seq<string>)

  function ProfileOf(u: User): Profile
  {
    Profile(u.name, u.email, u.surname, u.role, u.workDescription, u.phone)
  }

  function ViewOf(u: User): UserView
  {
    UserView(u.name, u.email, u.role, u.appointments, u.medicalHistory,
             u.workDescription, u.prescriptions)
  }
}
