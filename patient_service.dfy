/** The patient repository client of src/services/patientService.ts: the
    request each operation sends, and the mapping of what comes back from the
    wire shape (`dataOfBirth`, no registration date) to the domain entity.
    The outcome of each HTTP exchange is a parameter; `today` is the call-time
    date, `new Date().toISOString().split('T')[0]`. */
module PatientService {
  import opened Types

  datatype Verb = Get | Post | Put | Delete

  /** `/patients` or `/patients/{id}` under the API base. */
  datatype Path = Patients | PatientById(id: string)

  datatype HttpRequest = HttpRequest(verb: Verb, path: Path, body: Option<PatientRequest>)

  /** The per-record mapping shared by all three reading operations. */
  function ToPatient(w: PatientResponse, today: string): (p: Patient)
    ensures p.id == w.id && p.name == w.name && p.email == w.email && p.address == w.address
    ensures p.dateOfBirth == w.dataOfBirth
    ensures p.registeredDate == today
  {
    Patient(w.id, w.name, w.email, w.address, w.dataOfBirth, today)
  }

  /** The mapping loses nothing of the wire record: it can be read back. */
  function ToWire(p: Patient): PatientResponse {
    PatientResponse(p.id, p.name, p.email, p.address, p.dateOfBirth)
  }

  lemma ToPatientRoundTrip(w: PatientResponse, today: string)
    ensures ToWire(ToPatient(w, today)) == w
  {
  }

  /** `registeredDate` is the call-time date whatever the server sent: two
      records mapped on the same day differ only where the wire records do. */
  lemma RegisteredDateIgnoresRecord(w1: PatientResponse, w2: PatientResponse, today: string)
    ensures ToPatient(w1, today).registeredDate == ToPatient(w2, today).registeredDate
    ensures ToPatient(w1, today) == ToPatient(w2, today) <==> w1 == w2
  {
    ToPatientRoundTrip(w1, today);
    ToPatientRoundTrip(w2, today);
  }

  /** `response.data.map(...)`: element-wise, in server order. */
  function MapPatients(ws: seq<PatientResponse>, today: string): (ps: seq<Patient>)
    ensures |ps| == |ws|
    ensures forall i | 0 <= i < |ws| :: ps[i] == ToPatient(ws[i], today)
  {
    if ws == [] then [] else [ToPatient(ws[0], today)] + MapPatients(ws[1..], today)
  }

  /** Mapping a concatenation maps each part. */
  lemma MapPatientsAppend(a: seq<PatientResponse>, b: seq<PatientResponse>, today: string)
    ensures MapPatients(a + b, today) == MapPatients(a, today) + MapPatients(b, today)
  {
    var whole, parts := MapPatients(a + b, today), MapPatients(a, today) + MapPatients(b, today);
    forall i | 0 <= i < |whole| ensures whole[i] == parts[i] {
      if i < |a| {
        assert (a + b)[i] == a[i];
      } else {
        assert (a + b)[i] == b[i - |a|];
      }
    }
  }

  /** A failure is passed on as it came (after logging, which is not modelled). */
  function Rethrow<T, U>(outcome: Result<T, HttpFailure>, f: T -> U): (r: Result<U, HttpFailure>)
    ensures outcome.Ok? ==> r == Ok(f(outcome.value))
    ensures outcome.Err? ==> r == Err(outcome.error)
  {
    match outcome
    case Ok(v) => Ok(f(v))
    case Err(e) => Err(e)
  }

  /** GET on the collection, with no body. */
  function GetPatientsRequest(): (req: HttpRequest)
    ensures req.verb == Get && req.path == Patients && req.body == None
  {
    HttpRequest(Get, Patients, None)
  }

  /** `getPatients`: the mapped list, or the failure unchanged. */
  function GetPatients(outcome: Result<seq<PatientResponse>, HttpFailure>, today: string): (r: Result<seq<Patient>, HttpFailure>)
    ensures outcome.Err? <==> r.Err?
    ensures outcome.Err? ==> r.error == outcome.error
    ensures outcome.Ok? ==> |r.value| == |outcome.value|
    ensures outcome.Ok? ==> forall i | 0 <= i < |outcome.value| :: r.value[i] == ToPatient(outcome.value[i], today)
  {
    Rethrow(outcome, ws => MapPatients(ws, today))
  }

  /** POST to the collection with the request as body. */
  function CreatePatientRequest(p: PatientRequest): (req: HttpRequest)
    ensures req.verb == Post && req.path == Patients && req.body == Some(p)
  {
    HttpRequest(Post, Patients, Some(p))
  }

  /** `createPatient`: the returned record, mapped as in `getPatients`. */
  function CreatePatient(outcome: Result<PatientResponse, HttpFailure>, today: string): (r: Result<Patient, HttpFailure>)
    ensures outcome.Ok? ==> r == Ok(ToPatient(outcome.value, today))
    ensures outcome.Err? ==> r == Err(outcome.error)
  {
    Rethrow(outcome, w => ToPatient(w, today))
  }

  /** PUT to the record's own path; the id is not part of the body. */
  function UpdatePatientRequest(id: string, p: PatientRequest): (req: HttpRequest)
    ensures req.verb == Put && req.path == PatientById(id) && req.body == Some(p)
  {
    HttpRequest(Put, PatientById(id), Some(p))
  }

  /** `updatePatient`: the returned record, mapped as in `getPatients`. */
  function UpdatePatient(outcome: Result<PatientResponse, HttpFailure>, today: string): (r: Result<Patient, HttpFailure>)
    ensures outcome.Ok? ==> r == Ok(ToPatient(outcome.value, today))
    ensures outcome.Err? ==> r == Err(outcome.error)
  {
    Rethrow(outcome, w => ToPatient(w, today))
  }

  function DeletePatientRequest(id: string): (req: HttpRequest)
    ensures req.verb == Delete && req.path == PatientById(id) && req.body == None
  {
    HttpRequest(Delete, PatientById(id), None)
  }

  /** `deletePatient`: nothing on success, the failure unchanged otherwise. */
  function DeletePatient(outcome: Result<Unit, HttpFailure>): (r: Result<Unit, HttpFailure>)
    ensures r == outcome
  {
    Rethrow(outcome, (u: Unit) => u)
  }

  /** Create, update and list agree record by record: a record created or
      updated on a given day is exactly the element a list fetched that day
      would hold for it. */
  lemma SameMappingEverywhere(w: PatientResponse, before: seq<PatientResponse>, after: seq<PatientResponse>, today: string)
    ensures var listed := GetPatients(Ok(before + [w] + after), today);
      listed.Ok? && listed.value[|before|] == CreatePatient(Ok(w), today).value
      && CreatePatient(Ok(w), today) == UpdatePatient(Ok(w), today)
  {
    assert (before + [w] + after)[|before|] == w;
  }
}
