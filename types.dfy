/** Records shared by the services and components: the patient shapes of
    src/types/Patient.ts, the login shapes of src/types/Auth.ts, and the
    abstract outcome of one HTTP exchange. */
module Types {

  /** A nullable value (`T | null` in the source). */
  datatype Option<+T> = None | Some(value: T)

  /** A call that either returns a value or throws. */
  datatype Result<+T, +E> = Ok(value: T) | Err(error: E)

  /** The domain entity. */
  datatype Patient = Patient(
    id: string,
    name: string,
    email: string,
    address: string,
    dateOfBirth: string,
    registeredDate: string)

  /** The write-side shape: a patient without its server-assigned id. */
  datatype PatientRequest = PatientRequest(
    name: string,
    email: string,
    address: string,
    dateOfBirth: string,
    registeredDate: string)

  /** The record the server sends back. Its birth-date field is spelt
      `dataOfBirth` and it carries no registration date. */
  datatype PatientResponse = PatientResponse(
    id: string,
    name: string,
    email: string,
    address: string,
    dataOfBirth: string)

  datatype LoginRequest = LoginRequest(email: string, password: string)

  datatype User = User(id: string, email: string, name: string, role: string)

  datatype LoginResponse = LoginResponse(token: string, user: User)

  /** The session as the application shell keeps it. */
  datatype AuthState = AuthState(
    isAuthenticated: bool,
    user: Option<User>,
    token: Option<string>,
    loading: bool,
    error: Option<string>)

  /** A failed HTTP exchange: the response status, or None when no response
      arrived at all (network failure). */
  datatype HttpFailure = HttpFailure(status: Option<int>)

  const Unauthorized: int := 401

  /** The only failure the response interceptor reacts to. */
  predicate IsUnauthorized(f: HttpFailure) {
    f.status == Some(Unauthorized)
  }

  /** The empty body of a successful DELETE. */
  datatype Unit = Unit
}
