/** The sign-in and sign-out handlers of `MainContent`. Each starts a redirect
    through the client and reports a rejection on the console; neither
    reaches the state of `App`, which it is given here only to make that
    visible. */
module MainContent {
  import opened Msal
  import opened AppEffect

  /** Which redirect a handler asked the client for. */
  datatype Redirect = LoginRedirect | LogoutRedirect

  /** What a handler leaves behind: the redirect it requested, the App state
      after it, and the lines written to the error console. */
  datatype Initiation = Initiation(request: Redirect, app: App, logged: seq<string>)

  /** The redirect request plus its `.catch`: a rejection is logged once and
      a successful redirect logs nothing. */
  function Initiate(request: Redirect, app: App, outcome: RedirectOutcome): (r: Initiation)
    ensures r.request == request
    ensures r.app == app
    ensures outcome.Redirected? ==> r.logged == []
    ensures outcome.Rejected? ==> r.logged == [outcome.error]
  {
    match outcome
    case Redirected => Initiation(request, app, [])
    case Rejected(error) => Initiation(request, app, [error])
  }

  function HandleLogin(app: App, outcome: RedirectOutcome): (r: Initiation)
    ensures r.request == LoginRedirect && r.app == app
    ensures |r.logged| <= 1 && (|r.logged| == 1 <==> outcome.Rejected?)
  {
    Initiate(LoginRedirect, app, outcome)
  }

  function HandleLogout(app: App, outcome: RedirectOutcome): (r: Initiation)
    ensures r.request == LogoutRedirect && r.app == app
    ensures |r.logged| <= 1 && (|r.logged| == 1 <==> outcome.Rejected?)
  {
    Initiate(LogoutRedirect, app, outcome)
  }
}
