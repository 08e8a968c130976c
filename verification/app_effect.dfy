/** The mount effect of `App`: it registers the event callback, probes the
    cached accounts, and returns a cleanup that removes the callback again.
    `listening` records whether the client still holds the callback, and
    `mounted` whether React still keeps the component: setter calls made
    after unmount are dropped, so an event fired by the client reaches the
    state only while both hold. */
module AppEffect {
  import opened Msal
  import opened AppState

  datatype App = App(session: Session, callbackId: CallbackId, listening: bool, mounted: bool)

  /** Runs the effect body once: `callbackId` is what the client returned
      for the registration and `accounts` what it lists as cached. The
      callback is registered exactly when an id came back. */
  function Mount(callbackId: CallbackId, accounts: seq<Account>): (app: App)
    ensures app.listening <==> callbackId.Some?
    ensures app.callbackId == callbackId && app.mounted
    ensures !app.session.loading
    ensures app.session.isAuthenticated <==> |accounts| > 0
  {
    App(Probe(Initial(), accounts), callbackId, callbackId.Some?, true)
  }

  /** The client fires one event: it runs the callback only if registered,
      and the callback's setters take effect only while mounted. */
  function Deliver(app: App, e: Event): (r: App)
    ensures r.callbackId == app.callbackId && r.listening == app.listening && r.mounted == app.mounted
    ensures !(app.listening && app.mounted) ==> r == app
    ensures app.listening && app.mounted ==>
              && !r.session.loading
              && (e.eventType == LOGIN_SUCCESS ==> r.session.isAuthenticated)
              && (e.eventType == LOGOUT_SUCCESS ==> !r.session.isAuthenticated)
              && (!Recognised(e) ==> r.session.isAuthenticated == app.session.isAuthenticated)
  {
    if app.listening && app.mounted then app.(session := Step(app.session, e)) else app
  }

  /** The client fires `events` in order. */
  function DeliverAll(app: App, events: seq<Event>): App
    decreases |events|
  {
    if |events| == 0 then app else DeliverAll(Deliver(app, events[0]), events[1..])
  }

  /** What the cleanup returns: the resulting App and the id passed to
      `removeEventCallback`, if it was called. */
  datatype Cleanup = Cleanup(app: App, removed: Option<string>)

  /** The cleanup, run when React unmounts the component: the callback is
      removed only when the id is truthy, and then under that id; the
      session is not touched. */
  function Teardown(app: App): (c: Cleanup)
    ensures c.removed.Some? <==> Truthy(app.callbackId)
    ensures c.removed.Some? ==> c.removed == app.callbackId
    ensures c.app.session == app.session && c.app.callbackId == app.callbackId
    ensures c.app.listening <==> app.listening && !Truthy(app.callbackId)
    ensures !c.app.mounted
  {
    if Truthy(app.callbackId) then
      Cleanup(app.(listening := false, mounted := false), app.callbackId)
    else
      Cleanup(app.(mounted := false), None)
  }

  /** While the component is mounted and the callback registered, the events the client fires act on
      the session exactly as the fold of the callback over them. */
  lemma {:induction false} DeliverAllFollowsRun(app: App, events: seq<Event>)
    requires app.listening && app.mounted
    ensures DeliverAll(app, events) == app.(session := Run(app.session, events))
    decreases |events|
  {
    if |events| > 0 {
      DeliverAllFollowsRun(Deliver(app, events[0]), events[1..]);
    }
  }

  /** Once no callback is registered or the component is unmounted, no event
      changes anything. */
  lemma {:induction false} DetachedIgnoresEvents(app: App, events: seq<Event>)
    requires !app.listening || !app.mounted
    ensures DeliverAll(app, events) == app
    decreases |events|
  {
    if |events| > 0 {
      DetachedIgnoresEvents(Deliver(app, events[0]), events[1..]);
    }
  }

  /** After the cleanup, events still queued in the client leave the session
      as it was at unmount, whatever the id. A truthy id is removed; a falsy
      one leaves the callback registered, but its setters are dropped. */
  lemma {:induction false} NoEffectAfterTeardown(app: App, events: seq<Event>)
    ensures DeliverAll(Teardown(app).app, events).session == app.session
    ensures DeliverAll(Teardown(app).app, events).listening <==> app.listening && !Truthy(app.callbackId)
  {
    DetachedIgnoresEvents(Teardown(app).app, events);
  }

  /** Running the cleanup a second time calls remove again with the same id
      and changes nothing more. */
  lemma TeardownTwice(app: App)
    ensures Teardown(Teardown(app).app).app == Teardown(app).app
    ensures Teardown(Teardown(app).app).removed == Teardown(app).removed
  {
  }

  /** From mount on, the session is the probe's result with every later event
      folded into it; if the client returned no id, nothing was registered and
      the probe's result stands. */
  lemma {:induction false} MountedRun(callbackId: CallbackId, accounts: seq<Account>, events: seq<Event>)
    ensures callbackId.Some? ==>
              DeliverAll(Mount(callbackId, accounts), events).session == Run(Probe(Initial(), accounts), events)
    ensures callbackId.None? ==>
              DeliverAll(Mount(callbackId, accounts), events).session == Probe(Initial(), accounts)
  {
    if callbackId.Some? {
      DeliverAllFollowsRun(Mount(callbackId, accounts), events);
    } else {
      DetachedIgnoresEvents(Mount(callbackId, accounts), events);
    }
  }
}
