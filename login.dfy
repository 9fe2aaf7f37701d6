/** The sign-in form of src/components/Login.tsx: its form data, `loading`
    and `error`, the presence check and the lifecycle around the login call. */
module LoginComponent {
  import opened Types
  import Auth

  const FillAllFieldsMessage: string := "Please fill in all fields"

  datatype LoginField = EmailField | PasswordField

  /** `{...prev, [name]: value}`. */
  function SetField(cred: LoginRequest, field: LoginField, value: string): (c: LoginRequest)
    ensures field == EmailField ==> c == LoginRequest(value, cred.password)
    ensures field == PasswordField ==> c == LoginRequest(cred.email, value)
  {
    match field
    case EmailField => cred.(email := value)
    case PasswordField => cred.(password := value)
  }

  class Login {
    const auth: Auth.AuthService
    var formData: LoginRequest
    var loading: bool
    var error: Option<string>

    constructor (auth: Auth.AuthService)
      ensures this.auth == auth
      ensures formData == LoginRequest("", "") && !loading && error == None
    {
      this.auth := auth;
      formData := LoginRequest("", "");
      loading := false;
      error := None;
    }

    /** `handleInputChange`: writes one field and clears any error. */
    method HandleInputChange(field: LoginField, value: string)
      modifies this
      ensures formData == SetField(old(formData), field, value)
      ensures error == None && loading == old(loading)
    {
      formData := SetField(formData, field, value);
      if error.Some? {
        error := None;
      }
    }

    /** `handleSubmit`: an empty field stops before any login call; otherwise
        the service is asked, and `notified` says whether `onLoginSuccess` was
        called. Loading is off after every attempt that was made. */
    method HandleSubmit(now: nat) returns (notified: bool)
      modifies this, auth
      ensures formData == old(formData)
      ensures old(formData).email == "" || old(formData).password == "" ==>
        !notified && error == Some(FillAllFieldsMessage) && loading == old(loading) &&
        auth.State() == old(auth.State())
      ensures old(formData).email != "" && old(formData).password != "" ==>
        !loading &&
        (notified <==> Auth.IsDemoCredential(formData)) &&
        (notified ==> error == None && auth.State() == Auth.AfterLogin(old(auth.State()), Auth.SimulateLogin(formData, now).value)) &&
        (!notified ==> error == Some(Auth.LoginFailedMessage) && auth.State() == old(auth.State()))
    {
      if formData.email == "" || formData.password == "" {
        error := Some(FillAllFieldsMessage);
        return false;
      }
      loading := true;
      error := None;
      var r := auth.Login(formData, now);
      if r.Ok? {
        notified := true;
      } else {
        notified := false;
        error := Some(r.error);
      }
      loading := false;
    }

    /** `handleDemoLogin`: fills in the given credentials and logs in with
        them, without the presence check. */
    method HandleDemoLogin(email: string, password: string, now: nat) returns (notified: bool)
      modifies this, auth
      ensures formData == LoginRequest(email, password)
      ensures !loading
      ensures notified <==> Auth.IsDemoCredential(formData)
      ensures notified ==> error == None
      ensures notified ==>
        auth.State() == Auth.AfterLogin(old(auth.State()), Auth.SimulateLogin(formData, now).value)
      ensures !notified ==> error == Some(Auth.LoginFailedMessage) && auth.State() == old(auth.State())
    {
      formData := LoginRequest(email, password);
      error := None;
      loading := true;
      var r := auth.Login(LoginRequest(email, password), now);
      if r.Ok? {
        notified := true;
      } else {
        notified := false;
        error := Some(r.error);
      }
      loading := false;
    }
  }
}
