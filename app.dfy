/** The application shell of src/App.tsx: the session as the shell sees it,
    the view state machine (`list`, `add`, `edit`) with the patient being
    edited, and the save and delete calls it makes. */
module AppComponent {
  import opened Types
  import opened PatientService
  import Auth

  datatype View = List | Add | Edit

  const SaveFailedMessage: string := "Failed to save patient. Please try again."
  const DeleteFailedMessage: string := "Failed to delete patient. Please try again."

  /** The shell's session record when nobody is signed in. */
  const SignedOut: AuthState := AuthState(false, None, None, false, None)

  /** The startup check: signed in exactly when the stored token is non-empty
      and a stored user is present; otherwise both are dropped. */
  function StartupAuthState(token: Option<string>, user: Option<User>): (s: AuthState)
    ensures s.isAuthenticated <==> Auth.HasToken(token) && user.Some?
    ensures s.isAuthenticated ==> s.token == token && s.user == user
    ensures !s.isAuthenticated ==> s == SignedOut
    ensures !s.loading && s.error == None
  {
    if token.Some? && token.value != "" && user.Some? then
      AuthState(true, user, token, false, None)
    else
      SignedOut
  }

  class App {
    const auth: Auth.AuthService
    var authState: AuthState
    var currentView: View
    var editingPatient: Option<Patient>
    var loading: bool
    var error: Option<string>

    /** The add view never has a patient being edited; the edit view always has one. */
    ghost predicate Valid()
      reads this
    {
      (currentView == Add ==> editingPatient.None?) &&
      (currentView == Edit ==> editingPatient.Some?)
    }

    /** Mount, with the startup check done. */
    constructor (auth: Auth.AuthService)
      ensures Valid() && this.auth == auth
      ensures authState == StartupAuthState(auth.token, auth.user)
      ensures currentView == List && editingPatient == None && !loading && error == None
    {
      this.auth := auth;
      authState := StartupAuthState(auth.token, auth.user);
      currentView := List;
      editingPatient := None;
      loading := false;
      error := None;
    }

    /** `handleLoginSuccess`: the shell copies the service's session. */
    method HandleLoginSuccess()
      requires Valid()
      modifies this
      ensures Valid()
      ensures authState == AuthState(true, auth.user, auth.token, false, None)
      ensures currentView == old(currentView) && editingPatient == old(editingPatient)
      ensures loading == old(loading) && error == old(error)
    {
      authState := AuthState(true, auth.user, auth.token, false, None);
    }

    /** `handleLogout`: clears the session everywhere and returns to the list. */
    method HandleLogout()
      requires Valid()
      modifies this, auth
      ensures Valid()
      ensures auth.State() == Auth.AfterLogout(old(auth.State()))
      ensures authState == SignedOut
      ensures currentView == List && editingPatient == None && error == None
      ensures loading == old(loading)
    {
      auth.Logout();
      authState := SignedOut;
      currentView := List;
      editingPatient := None;
      error := None;
    }

    method HandleAddPatient()
      requires Valid()
      modifies this
      ensures Valid()
      ensures currentView == Add && editingPatient == None && error == None
      ensures authState == old(authState) && loading == old(loading)
    {
      editingPatient := None;
      currentView := Add;
      error := None;
    }

    method HandleEditPatient(patient: Patient)
      requires Valid()
      modifies this
      ensures Valid()
      ensures currentView == Edit && editingPatient == Some(patient) && error == None
      ensures authState == old(authState) && loading == old(loading)
    {
      editingPatient := Some(patient);
      currentView := Edit;
      error := None;
    }

    method HandleCancel()
      requires Valid()
      modifies this
      ensures Valid()
      ensures currentView == List && editingPatient == None && error == None
      ensures authState == old(authState) && loading == old(loading)
    {
      currentView := List;
      editingPatient := None;
      error := None;
    }

    /** The "Patient List" navigation button: only the view changes. */
    method ShowList()
      requires Valid()
      modifies this
      ensures Valid()
      ensures currentView == List
      ensures editingPatient == old(editingPatient) && error == old(error)
      ensures authState == old(authState) && loading == old(loading)
    {
      currentView := List;
    }

    /** The "Dismiss" button of the global error banner. */
    method DismissError()
      requires Valid()
      modifies this
      ensures Valid()
      ensures error == None
      ensures currentView == old(currentView) && editingPatient == old(editingPatient)
      ensures authState == old(authState) && loading == old(loading)
    {
      error := None;
    }

    /** `handleSubmit`: updates the patient being edited, or creates one when
        there is none. Success returns to the list; failure keeps the view and
        the patient and sets the error. Returns the request sent; the record
        that comes back is not used. */
    method HandleSubmit(data: PatientRequest, outcome: Result<PatientResponse, HttpFailure>)
      returns (sent: HttpRequest)
      requires Valid()
      modifies this, auth
      ensures Valid()
      ensures old(editingPatient).Some? ==> sent == UpdatePatientRequest(old(editingPatient).value.id, data)
      ensures old(editingPatient).None? ==> sent == CreatePatientRequest(data)
      ensures outcome.Ok? ==> currentView == List && editingPatient == None && error == None
      ensures outcome.Err? ==>
        currentView == old(currentView) && editingPatient == old(editingPatient) && error == Some(SaveFailedMessage)
      ensures !loading && authState == old(authState)
      ensures outcome.Err? && IsUnauthorized(outcome.error) ==>
        auth.State() == Auth.AfterLogout(old(auth.State()))
      ensures !(outcome.Err? && IsUnauthorized(outcome.error)) ==> auth.State() == old(auth.State())
    {
      loading := true;
      error := None;
      if editingPatient.Some? {
        sent := UpdatePatientRequest(editingPatient.value.id, data);
      } else {
        sent := CreatePatientRequest(data);
      }
      var response := auth.Exchange(outcome);
      if response.Ok? {
        currentView := List;
        editingPatient := None;
      } else {
        error := Some(SaveFailedMessage);
      }
      loading := false;
    }

    /** `handleDelete`: the view is never changed; a failure only sets the error. */
    method HandleDelete(id: string, outcome: Result<Unit, HttpFailure>) returns (sent: HttpRequest)
      requires Valid()
      modifies this, auth
      ensures Valid()
      ensures sent == DeletePatientRequest(id)
      ensures currentView == old(currentView) && editingPatient == old(editingPatient)
      ensures authState == old(authState) && loading == old(loading)
      ensures outcome.Ok? ==> error == old(error)
      ensures outcome.Err? ==> error == Some(DeleteFailedMessage)
      ensures outcome.Err? && IsUnauthorized(outcome.error) ==>
        auth.State() == Auth.AfterLogout(old(auth.State()))
      ensures !(outcome.Err? && IsUnauthorized(outcome.error)) ==> auth.State() == old(auth.State())
    {
      sent := DeletePatientRequest(id);
      var response := auth.Exchange(outcome);
      var result := DeletePatient(response);
      if result.Err? {
        error := Some(DeleteFailedMessage);
      }
    }
  }
}
