/** The patient list of src/components/PatientList.tsx: its `patients`,
    `loading` and `error` state, the fetch that fills it and the delete that
    removes one record from it locally. */
module PatientListComponent {
  import opened Types
  import opened PatientService
  import Auth

  const FetchFailedMessage: string := "Failed to fetch patients. Please try again."
  const DeleteFailedMessage: string := "Failed to delete patient. Please try again."

  /** `patients.filter(patient => patient.id !== id)`. */
  function RemoveById(ps: seq<Patient>, id: string): (r: seq<Patient>)
    ensures |r| <= |ps|
  {
    if ps == [] then []
    else (if ps[0].id != id then [ps[0]] else []) + RemoveById(ps[1..], id)
  }

  /** The entries kept are exactly those whose id differs. */
  lemma {:induction false} RemoveByIdMembers(ps: seq<Patient>, id: string, p: Patient)
    ensures p in RemoveById(ps, id) <==> p in ps && p.id != id
  {
    if ps != [] {
      RemoveByIdMembers(ps[1..], id, p);
      assert p in ps <==> p == ps[0] || p in ps[1..];
    }
  }

  /** The filter works piece by piece, so the kept entries stay in order. */
  lemma {:induction false} RemoveByIdAppend(a: seq<Patient>, b: seq<Patient>, id: string)
    ensures RemoveById(a + b, id) == RemoveById(a, id) + RemoveById(b, id)
  {
    if a == [] {
      assert a + b == b;
    } else {
      var head := if a[0].id != id then [a[0]] else [];
      calc {
        RemoveById(a + b, id);
      == { assert (a + b)[0] == a[0] && (a + b)[1..] == a[1..] + b; }
        head + RemoveById(a[1..] + b, id);
      == { RemoveByIdAppend(a[1..], b, id); }
        head + (RemoveById(a[1..], id) + RemoveById(b, id));
      ==
        (head + RemoveById(a[1..], id)) + RemoveById(b, id);
      }
    }
  }

  /** A list without the id is left exactly as it was. */
  lemma {:induction false} RemoveByIdAbsent(ps: seq<Patient>, id: string)
    requires forall k | 0 <= k < |ps| :: ps[k].id != id
    ensures RemoveById(ps, id) == ps
  {
    if ps != [] {
      RemoveByIdAbsent(ps[1..], id);
    }
  }

  /** Deleting twice is deleting once. */
  lemma RemoveByIdIdempotent(ps: seq<Patient>, id: string)
    ensures RemoveById(RemoveById(ps, id), id) == RemoveById(ps, id)
  {
    var r := RemoveById(ps, id);
    forall k | 0 <= k < |r| ensures r[k].id != id {
      RemoveByIdMembers(ps, id, r[k]);
    }
    RemoveByIdAbsent(r, id);
  }

  /** Deleting the one entry with the id from between two lists without it
      leaves the two lists joined. */
  lemma RemoveBetween(before: seq<Patient>, hit: Patient, after: seq<Patient>, id: string)
    requires hit.id == id
    requires forall j | 0 <= j < |before| :: before[j].id != id
    requires forall j | 0 <= j < |after| :: after[j].id != id
    ensures RemoveById(before + ([hit] + after), id) == before + after
  {
    var rest := [hit] + after;
    assert rest[0] == hit && rest[1..] == after;
    assert RemoveById(rest, id) == RemoveById(after, id);
    calc {
      RemoveById(before + rest, id);
    == { RemoveByIdAppend(before, rest, id); }
      RemoveById(before, id) + RemoveById(rest, id);
    == { RemoveByIdAbsent(before, id); }
      before + RemoveById(after, id);
    == { RemoveByIdAbsent(after, id); }
      before + after;
    }
  }

  /** With ids unique, deleting an id that is present removes exactly that
      one entry and keeps the others, in order. */
  lemma RemoveUniqueEntry(ps: seq<Patient>, k: nat, id: string)
    requires k < |ps| && ps[k].id == id
    requires forall j | 0 <= j < |ps| && j != k :: ps[j].id != id
    ensures RemoveById(ps, id) == ps[..k] + ps[k + 1..]
  {
    var before, after := ps[..k], ps[k + 1..];
    assert forall j | 0 <= j < |before| :: before[j].id != id by {
      forall j | 0 <= j < |before| ensures before[j].id != id {
        assert before[j] == ps[j];
      }
    }
    assert forall j | 0 <= j < |after| :: after[j].id != id by {
      forall j | 0 <= j < |after| ensures after[j].id != id {
        assert after[j] == ps[k + 1 + j];
      }
    }
    assert ps == before + ([ps[k]] + after);
    RemoveBetween(before, ps[k], after, id);
  }

  class PatientList {
    /** The session whose response interceptor sees every call. */
    const auth: Auth.AuthService
    var patients: seq<Patient>
    var loading: bool
    var error: Option<string>

    constructor (auth: Auth.AuthService)
      ensures this.auth == auth
      ensures patients == [] && loading && error == None
    {
      this.auth := auth;
      patients := [];
      loading := true;
      error := None;
    }

    /** `fetchPatients`: on success the list is replaced by the mapped server
        list and the error cleared; on failure only the error is set. Loading
        is off afterwards either way. */
    method FetchPatients(outcome: Result<seq<PatientResponse>, HttpFailure>, today: string)
      modifies this, auth
      ensures outcome.Ok? ==> patients == GetPatients(outcome, today).value && error == None
      ensures outcome.Err? ==> patients == old(patients) && error == Some(FetchFailedMessage)
      ensures !loading
      ensures outcome.Err? && IsUnauthorized(outcome.error) ==>
        auth.State() == Auth.AfterLogout(old(auth.State()))
      ensures !(outcome.Err? && IsUnauthorized(outcome.error)) ==> auth.State() == old(auth.State())
    {
      loading := true;
      var response := auth.Exchange(outcome);
      var data := GetPatients(response, today);
      if data.Ok? {
        patients := data.value;
        error := None;
      } else {
        error := Some(FetchFailedMessage);
      }
      loading := false;
    }

    /** `handleDelete`: asks for confirmation (`confirmed`), sends the delete,
        and on success filters the id out of the local list. Returns the
        request sent, if any. */
    method HandleDelete(id: string, confirmed: bool, outcome: Result<Unit, HttpFailure>)
      returns (sent: Option<HttpRequest>)
      modifies this, auth
      ensures !confirmed ==> sent == None && unchanged(this) && auth.State() == old(auth.State())
      ensures confirmed ==> sent == Some(DeletePatientRequest(id))
      ensures confirmed && outcome.Ok? ==> patients == RemoveById(old(patients), id) && error == old(error)
      ensures confirmed && outcome.Err? ==> patients == old(patients) && error == Some(DeleteFailedMessage)
      ensures loading == old(loading)
      ensures confirmed && outcome.Err? && IsUnauthorized(outcome.error) ==>
        auth.State() == Auth.AfterLogout(old(auth.State()))
      ensures !(confirmed && outcome.Err? && IsUnauthorized(outcome.error)) ==> auth.State() == old(auth.State())
    {
      if !confirmed {
        return None;
      }
      sent := Some(DeletePatientRequest(id));
      var response := auth.Exchange(outcome);
      var result := DeletePatient(response);
      if result.Ok? {
        patients := RemoveById(patients, id);
      } else {
        error := Some(DeleteFailedMessage);
      }
    }
  }
}
