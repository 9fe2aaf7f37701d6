# Patient management front end — a verified model of its client core

This project models the client-side core of a single-page patient-record
application written in TypeScript/React: the session store and demo credential
check (`AuthService`), the repository client that maps the server's patient
records to the domain entity (`patientService`), the patient form's validator
and handlers, the patient list's fetch and delete handlers, the application
shell's view state machine, and the sign-in form's submission lifecycle.

Every HTTP exchange is an abstract outcome passed in as a parameter
(`Result<T, HttpFailure>`, where a failure carries the response status or
none). The clock is a parameter: `now` (milliseconds, rendered in decimal
into the token) and `today` (the `YYYY-MM-DD` date that the mapping writes
into `registeredDate`). `window.confirm` is a boolean parameter. Device-local
storage is a `map<string, Stored>` field of the `AuthService` class. A stored
value is either a raw string or the user profile whose JSON text it holds.

Modules, one per source file, except `Types`, which covers two record files, and `JsText`, which corresponds to no source file and holds the JavaScript string semantics the form relies on:

- `Types` (types.dfy): the records of `src/types/Patient.ts` and `src/types/Auth.ts`, plus `Option`, `Result` and `HttpFailure`.
- `JsText` (js_text.dfy): the JavaScript white-space set, `trim`, the semantics of `/\S+@\S+\.\S+/.test`, and the decimal rendering of numbers.
- `Auth` (auth_service.dfy): class `AuthService` with its fields `token`, `user` and `storage`, the credential table, and both interceptors.
- `PatientService` (patient_service.dfy): pure functions for the request each call sends and for the wire-to-domain mapping.
- `PatientFormComponent` (patient_form.dfy): the validator as a pure function, and class `PatientForm` for the form state.
- `PatientListComponent` (patient_list.dfy): the local delete filter, and class `PatientList`.
- `AppComponent` (app.dfy): class `App`. Its invariant `Valid()` says the `add` view has no patient being edited and the `edit` view always has one. Every handler preserves it.
- `LoginComponent` (login.dfy): class `Login`.

Every HTTP call that a component makes passes through
`AuthService.Exchange`, the response interceptor. A 401 therefore logs the
session out before the component sees the failure. Each component's
contract states that effect.

Behaviour of the source worth noting:

- The stored user is read back by an unguarded `JSON.parse` (src/services/authService.ts:8). Text that is not valid JSON makes the service throw at load time. The `Auth.AuthService` constructor therefore requires the entries to be restorable (`Restorable`).
- A failed login surfaces the fixed message `Login failed. Please check your credentials.` (src/services/authService.ts:50), whatever the identity provider said.
- The form checks the two dates for emptiness only (src/components/PatientForm.tsx:57-63), so a date made of white space passes.

## Model

| member | source | states |
|---|---|---|
| JsText.TrimStart | src/components/PatientForm.tsx:43 | the result is a suffix of the input; everything dropped is white space; the result is empty or starts with a non-space |
| JsText.TrimEnd | src/components/PatientForm.tsx:43 | the result is a prefix of the input; everything dropped is white space; the result is empty or ends with a non-space |
| JsText.Trim | src/components/PatientForm.tsx:43 | `s.trim()` is no longer than `s`, and is empty or neither starts nor ends with white space |
| JsText.TrimEmptyIffBlank | src/components/PatientForm.tsx:43-55 | `s.trim()` is empty exactly when every character of `s` is JavaScript white space |
| JsText.MatchesEmailPattern | src/components/PatientForm.tsx:49 | `/\S+@\S+\.\S+/.test(s)` holds when some substring of `s` matches; a matching string has at least five characters |
| JsText.NonSpaceRunShift | src/components/PatientForm.tsx:49 | a run of non-white-space characters is still one after text is put in front of it |
| JsText.EmailPatternUnanchored | src/components/PatientForm.tsx:49 | the email test is unanchored: text added before or after a matching string never makes it fail |
| JsText.EmailPatternNeedsAtAndDot | src/components/PatientForm.tsx:49 | a string that passes the email test contains an `@` and a `.` |
| JsText.Decimal | src/services/authService.ts:61 | the rendering of `Date.now()` is a non-empty string of decimal digits |
| JsText.ParseDecimalOfDecimal | src/services/authService.ts:61 | the decimal rendering round-trips: parsing it gives the number back |
| JsText.DecimalInjective | src/services/authService.ts:61 | different numbers render differently |
| Auth.DemoToken | src/services/authService.ts:61 | every issued token starts with `demo-jwt-token-` and is non-empty |
| Auth.DemoTokenInjective | src/services/authService.ts:71 | equal tokens come from equal clock readings, so logins at different instants get different tokens |
| Auth.SimulateLogin | src/services/authService.ts:54-82 | succeeds iff the pair is (`admin@example.com`, `password`) or (`user@example.com`, `password`); these give users `1`/`Admin User`/`admin` and `2`/`Regular User`/`user`; the user's email is the submitted one; the token is the prefixed clock reading; every other pair fails with `Invalid credentials` |
| Auth.AfterLogin | src/services/authService.ts:42-46 | after login both fields hold the response; storage gains `token` (raw token) and `user` (the profile); other entries are kept |
| Auth.AfterLogout | src/services/authService.ts:84-89 | after logout both fields are null; both storage keys are gone; other entries are kept |
| Auth.LogoutIdempotent | src/services/authService.ts:84-89 | logging out twice gives the same state as logging out once |
| Auth.RestoredToken | src/services/authService.ts:7 | the token field at load is present iff the `token` entry is, and then holds that entry's text |
| Auth.RestoredUser | src/services/authService.ts:8 | the user field at load is the stored profile when there is one; otherwise the entry is absent, empty or `null`, and the field is null |
| Auth.SessionSurvivesRestart | src/services/authService.ts:7-8 | a service rebuilt from the storage after a login holds that login's token and user; after a logout it holds neither |
| Auth.AuthService.constructor | src/services/authService.ts:7-8 | at load the fields are read back from storage: the token entry, and the parsed user entry (null when absent or empty) |
| Auth.AuthService.Login | src/services/authService.ts:36-52 | on a demo credential it returns the table's response, writes fields and storage through, and is authenticated afterwards, so every later request carries `Bearer demo-jwt-token-<now>`; otherwise it fails with `Login failed. Please check your credentials.` and changes nothing |
| Auth.AuthService.Logout | src/services/authService.ts:84-89 | the state becomes the logout state, the service is no longer authenticated, and the request interceptor adds no header any more |
| Auth.AuthService.IsAuthenticated | src/services/authService.ts:99-101 | true iff the token is non-null and non-empty |
| Auth.AuthService.AuthorizeHeaders | src/services/authService.ts:12-18 | when authenticated, the `Authorization` header is `Bearer <token>`; no other header is added or changed; otherwise the headers pass through unchanged |
| Auth.AuthService.Exchange | src/services/authService.ts:25-33 | every outcome is passed on unchanged; a 401 failure first logs out, after which requests carry no `Authorization` header; any other outcome leaves the session untouched |
| PatientService.ToPatient | src/services/patientService.ts:11-18 | id, name, email and address are copied; `dateOfBirth` is the wire `dataOfBirth`; `registeredDate` is the call-time date |
| PatientService.ToPatientRoundTrip | src/services/patientService.ts:11-16 | the wire record can be rebuilt from the mapped patient, so the mapping loses nothing |
| PatientService.RegisteredDateIgnoresRecord | src/services/patientService.ts:17 | two records mapped on one day get the same `registeredDate`, whatever they hold; mapped records are equal iff the wire records are |
| PatientService.MapPatients | src/services/patientService.ts:11 | the list keeps the server's length and order: element i is the mapping of server element i |
| PatientService.MapPatientsAppend | src/services/patientService.ts:11 | mapping a concatenation concatenates the mappings |
| PatientService.Rethrow | src/services/patientService.ts:19-22 | a failure is passed on unchanged, with no retry; a success is mapped |
| PatientService.GetPatientsRequest | src/services/patientService.ts:10 | GET on the collection, with no body |
| PatientService.GetPatients | src/services/patientService.ts:8-23 | fails exactly when the exchange fails, with the same failure; on success element i is the mapping of server element i |
| PatientService.CreatePatientRequest | src/services/patientService.ts:28 | POST to the collection, with the request as body |
| PatientService.CreatePatient | src/services/patientService.ts:26-41 | the returned record is mapped as in `getPatients`, and a failure is passed on unchanged |
| PatientService.UpdatePatientRequest | src/services/patientService.ts:46 | PUT addressed by `id` in the path, with the request as body |
| PatientService.UpdatePatient | src/services/patientService.ts:44-59 | the returned record is mapped as in `getPatients`, and a failure is passed on unchanged |
| PatientService.DeletePatientRequest | src/services/patientService.ts:64 | DELETE addressed by `id` in the path, with no body |
| PatientService.DeletePatient | src/services/patientService.ts:62-69 | the outcome is returned as it came |
| PatientService.SameMappingEverywhere | src/services/patientService.ts:29-36 | a record created or updated on a day equals what a list fetched that day holds for it at its position |
| PatientFormComponent.Set | src/components/PatientForm.tsx:78-81 | the named field takes the value, and every other field is unchanged |
| PatientFormComponent.FieldError | src/components/PatientForm.tsx:43-63 | the per-field rule: the email has no error iff it matches the pattern; `Email is invalid` is given exactly to a non-blank email |
| PatientFormComponent.SourceCheck | src/components/PatientForm.tsx:43-63 | each check as written (through `trim()`) gives the same error as the rule on blank fields |
| PatientFormComponent.FillIsPerField | src/components/PatientForm.tsx:40-66 | whatever the other checks give, a field is in the filled map iff its own check failed, and then it holds that check's message |
| PatientFormComponent.FillEmptyIffAllPass | src/components/PatientForm.tsx:40-66 | the filled map is empty iff every one of the five checks passes |
| PatientFormComponent.NoErrorsIffNoFieldError | src/components/PatientForm.tsx:40-66 | `validateForm` returns an empty map iff no field has an error under the rules |
| PatientFormComponent.Validate | src/components/PatientForm.tsx:40-66 | each key holds its own field's message (the email one of its two); a date key is present iff that date is empty |
| PatientFormComponent.ValidateIsPerField | src/components/PatientForm.tsx:40-66 | the error map holds exactly the failing fields, each with its own field's message |
| PatientFormComponent.EmailMatchNotBlank | src/components/PatientForm.tsx:47-51 | an email that passes the pattern is never blank, so "required" and "invalid" never apply together |
| PatientFormComponent.ValidIffAllRulesHold | src/components/PatientForm.tsx:40-66 | validation passes iff name and address are non-blank, the email matches the pattern, and both dates are non-empty |
| PatientFormComponent.EmailWithoutAtIsInvalid | src/components/PatientForm.tsx:47-51 | a non-blank email without `@` gets `Email is invalid` |
| PatientFormComponent.DatesAreNotTrimmed | src/components/PatientForm.tsx:57-59 | a date of birth made only of white space raises no error |
| PatientFormComponent.PatientForm.constructor | src/components/PatientForm.tsx:18-38 | the initial form is empty with `registeredDate` set to today; a supplied patient's five fields are copied in; there are no errors |
| PatientFormComponent.PatientForm.HandleChange | src/components/PatientForm.tsx:76-90 | updates only the named field and removes only that field's error |
| PatientFormComponent.PatientForm.HandleSubmit | src/components/PatientForm.tsx:69-74 | the error map is replaced by the validation result; the data is submitted iff that map is empty, and then it is the current form data |
| PatientListComponent.RemoveById | src/components/PatientList.tsx:38 | the filtered list is no longer than the original |
| PatientListComponent.RemoveByIdMembers | src/components/PatientList.tsx:38 | an entry is kept iff it was in the list and its id differs from the deleted one |
| PatientListComponent.RemoveByIdAppend | src/components/PatientList.tsx:38 | the filter distributes over concatenation, so the kept entries keep their relative order |
| PatientListComponent.RemoveByIdAbsent | src/components/PatientList.tsx:38 | a list without the id is left exactly as it was |
| PatientListComponent.RemoveByIdIdempotent | src/components/PatientList.tsx:38 | filtering twice gives the same list as filtering once |
| PatientListComponent.RemoveBetween | src/components/PatientList.tsx:38 | deleting the one entry with the id from between two lists without it leaves the two lists joined |
| PatientListComponent.RemoveUniqueEntry | src/components/PatientList.tsx:37-38 | with unique ids, deleting entry k leaves the list without exactly that entry |
| PatientListComponent.PatientList.constructor | src/components/PatientList.tsx:12-14 | the list starts empty and loading, with no error |
| PatientListComponent.PatientList.FetchPatients | src/components/PatientList.tsx:20-32 | success replaces the list with the mapped list and clears the error; failure keeps the list and sets the fetch error; loading is false afterwards; a 401 logs the session out |
| PatientListComponent.PatientList.HandleDelete | src/components/PatientList.tsx:34-44 | when declined, nothing is sent or changed; otherwise DELETE by id is sent; success filters the id out; failure keeps the list and sets the delete error; loading is untouched |
| AppComponent.StartupAuthState | src/App.tsx:26-47 | signed in iff a non-empty token and a user are both present; otherwise token and user are dropped; loading is off |
| AppComponent.App.constructor | src/App.tsx:12-47 | the shell starts in the list view with no patient being edited, no error and the startup session |
| AppComponent.App.HandleLoginSuccess | src/App.tsx:49-60 | copies the service's token and user into a signed-in session; the view is unchanged |
| AppComponent.App.HandleLogout | src/App.tsx:62-74 | the service logs out and the shell's session is signed out; the view becomes `list` with no patient being edited and no error |
| AppComponent.App.HandleAddPatient | src/App.tsx:76-80 | the view becomes `add`, with no patient being edited and no error |
| AppComponent.App.HandleEditPatient | src/App.tsx:82-86 | the view becomes `edit`, the given patient is being edited, and there is no error |
| AppComponent.App.HandleCancel | src/App.tsx:88-92 | the view becomes `list`, with no patient being edited and no error |
| AppComponent.App.ShowList | src/App.tsx:190 | only the view changes, to `list`, and the invariant still holds |
| AppComponent.App.DismissError | src/App.tsx:215 | only the error is cleared |
| AppComponent.App.HandleSubmit | src/App.tsx:94-115 | sends an update by the edited patient's id, or a create when no patient is being edited; success gives `list` with no patient being edited; failure keeps view and patient and sets the save error; loading is false afterwards |
| AppComponent.App.HandleDelete | src/App.tsx:117-125 | sends DELETE by id; view and edited patient never change; failure only sets the delete error |
| LoginComponent.SetField | src/components/Login.tsx:21-24 | the named field takes the value, and the other field is unchanged |
| LoginComponent.Login.constructor | src/components/Login.tsx:11-16 | the form starts empty, not loading, with no error |
| LoginComponent.Login.HandleInputChange | src/components/Login.tsx:19-29 | updates only the named field and clears any error |
| LoginComponent.Login.HandleSubmit | src/components/Login.tsx:31-50 | an empty email or password sets `Please fill in all fields` and changes neither the session nor loading; otherwise success is reported iff the credentials are a demo pair, a failure sets the service's message, and loading is false afterwards |
| LoginComponent.Login.HandleDemoLogin | src/components/Login.tsx:52-65 | fills in the given credentials and logs in with no presence check; success is reported iff they are a demo pair; loading is false afterwards |

## Left out

- The 1000 ms delay inside `simulateLogin` is not modelled. The clock and date readings are parameters.
- JSON serialisation of the stored user is not modelled. A `UserJson(u)` entry stands for the JSON text of `u`.
- Auth.AuthService.constructor: requires a `user` entry to be a profile, `null` or empty. Text that is not valid JSON makes the source throw at load time; valid JSON that is not a profile (such as `{}` or `1`) loads in the source as a value that is not a user, which is outside the model.
- The axios transport is not modelled: URLs, the base address, and interceptor registration. The request interceptor's rejection path only passes the error on.
- `console.error` logging is not modelled.
- Rendering, CSS, and date display formatting are not modelled. Neither is the `loading` prop that disables the form's submit button.
- Async interleavings are not modelled, such as a delete racing a fetch, or React batching and re-rendering. Each handler is one atomic step.
- PatientFormComponent.PatientForm.constructor: models mount only. The prefill effect that re-runs when the `patient` prop changes later is not modelled.
- PatientFormComponent.PatientForm.HandleChange: removes the field's key from the error map. The source sets that key to `undefined`, which only affects display, because validation always builds a fresh map.
- The shell's `onDelete` prop is not modelled as a link to the list. The list calls the service's delete itself. `AppComponent.App.HandleDelete` is modelled on its own.
- The patient record returned by create and update is not used by the shell, so `AppComponent.App.HandleSubmit` does not map it.
- The `showPassword` toggle of the sign-in form is not modelled. It only affects display.
