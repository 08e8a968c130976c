# App session state of react-entra-id, in Dafny

The `App` component of this React demo keeps two pieces of state:
`isAuthenticated` and `loading`. Its mount effect changes them in two ways.
It registers a callback with the MSAL client, which reacts to
`LOGIN_SUCCESS` and `LOGOUT_SUCCESS` events. It also makes a one-time probe
of the cached accounts. The effect's cleanup removes the callback again. This
project models that state machine as pure functions on immutable records and
proves the properties the code promises.

- `Msal` holds the values that cross the boundary to the client library: an
  event (only its `eventType` string is read), a cached account, the callback
  id (`null` is `None`), the JavaScript truthiness of that id, and how a
  redirect promise settles.
- `AppState` holds the initial `useState` values, the callback as `Step`,
  the probe as `Probe`, and the callback folded over an event sequence as `Run`.
- `AppEffect` holds the mount (register, then probe), delivery of client
  events, and the cleanup. An event changes the session only while the
  callback is registered and the component is mounted, because React drops
  setter calls made after unmount.
- `MainContent` holds the sign-in and sign-out handlers. They start a
  redirect and log a rejection, and they never touch `App`'s state directly.
  A client event fired because of a redirect reaches `App` only through the
  callback, which `Lifecycle` covers as a fired event.
- `Lifecycle` holds a whole life of one mount: any interleaving of events,
  button presses and unmounts, with the loading trace from first render on.
  It allows more lives than React produces, such as a button press after
  unmount or a second unmount. Every lemma about lives covers these extra
  lives too.

Facts about the code that shape the model:

- The session is two booleans. The code has no `Initializing` state and
  keeps no identity.
- Every delivered event releases the loading gate, including unrecognised ones.
- A probe that finds no account does not set `isAuthenticated` to false. It
  leaves the value as it was, which is false at mount.
- The probe runs in the same synchronous effect body right after
  registration, so no event can come before it. `AppState.ProbeEventOrder`
  shows that if one did, only the gate would be order-independent: a logout
  success before a probe of a non-empty cache would end signed in, while the
  reverse order ends signed out.
- The cleanup tests `if (callbackId)`, which is JavaScript truthiness. A null
  id means nothing was registered. An empty-string id would not be removed,
  so the callback would stay registered after unmount. Its setter calls
  would then be dropped by React, so the session would still not change.
  The client library's ids are generated and never empty, but the model
  keeps all three cases as written.

The value shown on screen comes from the library hook `useIsAuthenticated`,
not from `App`'s own `isAuthenticated`. The model covers `App`'s state only.

## Model

| member | source | states |
|---|---|---|
| AppState.Initial | src/App.js:22-23 | before the effect runs, the user is not signed in and the loading gate is raised |
| AppState.Step | src/App.js:28-36 | a login success signs in from any state, a logout success signs out from any state, any other event kind keeps the flag, and every delivered event releases the gate |
| AppState.Probe | src/App.js:39-43 | at least one cached account signs in; zero accounts keep the prior flag; the gate is released either way |
| AppState.Run | src/App.js:28-36 | after delivering a sequence of events, the gate is still raised if and only if it was raised before and the sequence is empty |
| AppState.RunVerdict | src/App.js:28-36 | after any event sequence the flag is set by the last recognised event (signed in if and only if it is a login success), or is the starting flag when no event is recognised |
| AppState.RunAppend | src/App.js:28-36 | delivering two sequences one after the other is the same as delivering their concatenation |
| AppState.StepIdempotent | src/App.js:29-35 | delivering the same event twice in a row, a login success included, gives the same state as delivering it once |
| AppState.DuplicateDeliveryHarmless | src/App.js:28-36 | a duplicated event anywhere in a run, such as a second consecutive login success, does not change the run's outcome |
| AppState.ProbeEventOrder | src/App.js:28-43 | probe and callback release the gate in either order, but the verdict depends on which runs last |
| AppEffect.Mount | src/App.js:26-44 | after the effect body the component is mounted, the gate is released, the user is signed in if and only if an account was cached, and the callback is registered if and only if the client returned an id |
| AppEffect.Deliver | src/App.js:28-36 | an event changes nothing unless the callback is registered and the component mounted; then it releases the gate, a login success signs in, a logout success signs out, and any other kind keeps the flag |
| AppEffect.Teardown | src/App.js:46-50 | remove is called if and only if the callback id is truthy, and with that id; the session is untouched; the component is unmounted; the callback stays registered only if it was registered and the id is falsy |
| AppEffect.DeliverAllFollowsRun | src/App.js:28-36 | while mounted and registered, the events the client fires act on the session as the fold of the callback over them |
| AppEffect.DetachedIgnoresEvents | src/App.js:46-50 | when no callback is registered or the component is unmounted, no sequence of events changes anything |
| AppEffect.NoEffectAfterTeardown | src/App.js:46-50 | after the cleanup, events still queued in the client leave the session as it was at unmount, whatever the id; the callback stays registered afterwards if and only if it was registered and the id is falsy |
| AppEffect.TeardownTwice | src/App.js:46-50 | running the cleanup again repeats the same remove call and changes nothing more |
| AppEffect.MountedRun | src/App.js:26-43 | with an id, the session after any events is the fold of the callback starting from the probe's result; without an id it stays the probe's result |
| MainContent.Initiate | src/App.js:95-107 | a redirect request leaves the App state as it was; a rejection is logged once; a successful redirect logs nothing |
| MainContent.HandleLogin | src/App.js:95-100 | the sign-in handler requests the login redirect, leaves the App state unchanged, and logs one line exactly when the redirect is rejected |
| MainContent.HandleLogout | src/App.js:102-107 | the sign-out handler requests the logout redirect, leaves the App state unchanged, and logs one line exactly when the redirect is rejected |
| Lifecycle.GateStaysReleased | src/App.js:23-43 | once the gate is released, no event, button press or unmount raises it again |
| Lifecycle.GateReleasedOnce | src/App.js:22-43 | over any life, `loading` is true at first render and false at every later point, so it goes from true to false exactly once and never reverts |
| Lifecycle.AfterUnmount | src/App.js:46-50 | once the callback is removed or the component unmounted, no later action changes the session |
| Lifecycle.LifeFollowsHeardEvents | src/App.js:26-50 | over any life from a mounted App with the callback registered, button presses change nothing and the final session is the fold of the callback over the events fired before the first unmount |
| Lifecycle.RegistrationAtEnd | src/App.js:46-50 | at the end of a life the client still holds the callback if and only if it held it at the start and either no unmount happened or the id is falsy |
| Lifecycle.MountedLife | src/App.js:22-50 | from first render on, the final session is the probe's result with the events fired before the first unmount folded in when the client returned an id, and the probe's result alone when the id is null |

## Left out

- The MSAL client itself (`PublicClientApplication`, `getAllAccounts`, `addEventCallback`, `removeEventCallback`, `loginRedirect`, `logoutRedirect`) is a foreign library. Its results enter the model as arguments: the cached account list, the event sequence, the callback id and the redirect outcome.
- The event-type strings `"msal:loginSuccess"` and `"msal:logoutSuccess"` are taken from the client library, which is not part of this model.
- The `msalConfig` constants (src/App.js:6-12) are configuration, not logic.
- Rendering is not modelled: the JSX, the spinner, `MsalProvider`, `useMsal` and `useIsAuthenticated` (src/App.js:53-139, apart from the two handlers).
- React scheduling and batching of `setState` are not modelled. Each setter is an immediate assignment while the component is mounted and is dropped after unmount; nothing else of React's update queue is modelled.
- The asynchronous redirect promises are not modelled: a handler sees only how its promise settles. Page navigation after a successful redirect is not modelled either.
- Console output is not modelled as I/O. A rejected redirect is recorded as one logged line holding the error.
- The event payload (account, tokens) is not modelled, because the callback reads only `eventType`.
- The handlers have no rethrow path: the model records only the logged line, so it does not state that a rejection never escapes the `.catch`.
