/** The part of the identity-provider client (`@azure/msal-browser`) that the
    App component touches, reduced to plain values: the client is outside the
    model, so what it returns arrives as arguments to the functions of the
    other modules. */
module Msal {

  datatype Option<+T> = None | Some(value: T)

  /** An event handed to a registered callback. The App callback reads only its
      `eventType` and compares it with two of the client's event-type strings. */
  datatype Event = Event(eventType: string)

  /** Values of `EventType.LOGIN_SUCCESS` and `EventType.LOGOUT_SUCCESS` in the client library. */
  const LOGIN_SUCCESS: string := "msal:loginSuccess"
  const LOGOUT_SUCCESS: string := "msal:logoutSuccess"

  /** A cached account as listed by `getAllAccounts`; the App only counts them. */
  datatype Account = Account(username: string)

  /** What `addEventCallback` returns: the id under which the callback was
      registered, or null (None) when the client registered nothing. */
  type CallbackId = Option<string>

  /** JavaScript truthiness of a callback id, the test made before removing it:
      null and the empty string are falsy. */
  predicate Truthy(id: CallbackId) {
    id.Some? && id.value != ""
  }

  /** How the promise of `loginRedirect` / `logoutRedirect` settles. On success
      the page navigates away, so nothing comes back to the caller. */
  datatype RedirectOutcome = Redirected | Rejected(error: string)
}
