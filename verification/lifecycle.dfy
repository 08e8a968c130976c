/** A whole life of one mounted `App`: after the effect has run, the client
    fires events, the user presses the sign-in or sign-out button, and the
    component is unmounted, in any order and any number of times. */
module Lifecycle {
  import opened Msal
  import opened AppState
  import opened AppEffect
  import opened MainContent

  datatype Action =
    | Fire(e: Event)
    | Unmount
    | PressLogin(outcome: RedirectOutcome)
    | PressLogout(outcome: RedirectOutcome)

  /** One action's effect on the App state. */
  function Apply(app: App, a: Action): App {
    match a
    case Fire(e) => Deliver(app, e)
    case Unmount => Teardown(app).app
    case PressLogin(outcome) => HandleLogin(app, outcome).app
    case PressLogout(outcome) => HandleLogout(app, outcome).app
  }

  /** The App state before each action and after the last one. */
  function States(app: App, actions: seq<Action>): (r: seq<App>)
    ensures |r| == |actions| + 1 && r[0] == app
    decreases |actions|
  {
    if |actions| == 0 then [app] else [app] + States(Apply(app, actions[0]), actions[1..])
  }

  /** The events the callback hears: those fired before the first unmount. */
  function HeardEvents(actions: seq<Action>): seq<Event>
    decreases |actions|
  {
    if |actions| == 0 then []
    else match actions[0]
      case Fire(e) => [e] + HeardEvents(actions[1..])
      case Unmount => []
      case _ => HeardEvents(actions[1..])
  }

  /** The value of `loading` from the first render on: the initial value,
      then its value after the effect and after every later action. */
  function LoadingTrace(callbackId: CallbackId, accounts: seq<Account>, actions: seq<Action>): seq<bool> {
    var st := States(Mount(callbackId, accounts), actions);
    [Initial().loading] + seq(|st|, i requires 0 <= i < |st| => st[i].session.loading)
  }

  /** No action raises the gate again once it is released. */
  lemma {:induction false} GateStaysReleased(app: App, actions: seq<Action>)
    requires !app.session.loading
    ensures forall i :: 0 <= i < |States(app, actions)| ==> !States(app, actions)[i].session.loading
    decreases |actions|
  {
    if |actions| > 0 {
      var next := Apply(app, actions[0]);
      assert !next.session.loading;
      GateStaysReleased(next, actions[1..]);
      var st := States(app, actions);
      forall i | 0 <= i < |st| ensures !st[i].session.loading {
        if i > 0 {
          assert st[i] == States(next, actions[1..])[i - 1];
        }
      }
    }
  }

  /** The gate is raised at first render, released by the effect, and never
      raised again: over any life it goes from true to false exactly once. */
  lemma GateReleasedOnce(callbackId: CallbackId, accounts: seq<Account>, actions: seq<Action>)
    ensures LoadingTrace(callbackId, accounts, actions)[0]
    ensures forall i :: 1 <= i < |LoadingTrace(callbackId, accounts, actions)| ==>
              !LoadingTrace(callbackId, accounts, actions)[i]
  {
    var st := States(Mount(callbackId, accounts), actions);
    GateStaysReleased(Mount(callbackId, accounts), actions);
    var t := LoadingTrace(callbackId, accounts, actions);
    forall i | 1 <= i < |t| ensures !t[i] {
      assert t[i] == st[i - 1].session.loading;
    }
  }

  /** Final state of a life from a mounted, registered App: button presses
      change nothing, and the session is the fold of the callback over the
      events fired before the first unmount. */
  lemma {:induction false} LifeFollowsHeardEvents(app: App, actions: seq<Action>)
    requires app.listening && app.mounted
    ensures States(app, actions)[|actions|].session == Run(app.session, HeardEvents(actions))
    decreases |actions|
  {
    if |actions| > 0 {
      var next := Apply(app, actions[0]);
      var rest := actions[1..];
      assert States(app, actions)[|actions|] == States(next, rest)[|rest|];
      match actions[0]
      case Fire(e) =>
        LifeFollowsHeardEvents(next, rest);
        assert ([e] + HeardEvents(rest))[1..] == HeardEvents(rest);
      case Unmount =>
        AfterUnmount(next, rest);
      case PressLogin(_) =>
        LifeFollowsHeardEvents(next, rest);
      case PressLogout(_) =>
        LifeFollowsHeardEvents(next, rest);
    }
  }

  /** The client still holds the callback at the end of a life exactly when
      it held it at the start and either no unmount happened or the id is
      falsy, so that the cleanup skipped the removal. */
  lemma {:induction false} RegistrationAtEnd(app: App, actions: seq<Action>)
    ensures var last := States(app, actions)[|actions|];
            last.listening <==> app.listening && (Unmount !in actions || !Truthy(app.callbackId))
    decreases |actions|
  {
    if |actions| > 0 {
      var next := Apply(app, actions[0]);
      var rest := actions[1..];
      assert States(app, actions)[|actions|] == States(next, rest)[|rest|];
      assert next.callbackId == app.callbackId;
      RegistrationAtEnd(next, rest);
      assert actions == [actions[0]] + rest;
      assert Unmount in actions <==> actions[0] == Unmount || Unmount in rest;
    }
  }

  /** Once the callback is gone or the component unmounted, no action
      changes the session. */
  lemma {:induction false} AfterUnmount(app: App, actions: seq<Action>)
    requires !app.listening || !app.mounted
    ensures States(app, actions)[|actions|].session == app.session
    decreases |actions|
  {
    if |actions| > 0 {
      var next := Apply(app, actions[0]);
      assert (!next.listening || !next.mounted) && next.session == app.session;
      AfterUnmount(next, actions[1..]);
      assert States(app, actions)[|actions|] == States(next, actions[1..])[|actions| - 1];
    }
  }

  /** A whole life from mount. With an id the final session is the probe's
      result with the events fired before the first unmount folded in; with
      a null id nothing was registered and the probe's result stands. An
      empty-string id leaves the callback registered after unmount, yet
      changes nothing, because React drops the setter calls. */
  lemma {:induction false} MountedLife(callbackId: CallbackId, accounts: seq<Account>, actions: seq<Action>)
    ensures callbackId.Some? ==>
              States(Mount(callbackId, accounts), actions)[|actions|].session
                == Run(Probe(Initial(), accounts), HeardEvents(actions))
    ensures callbackId.None? ==>
              States(Mount(callbackId, accounts), actions)[|actions|].session == Probe(Initial(), accounts)
  {
    if callbackId.Some? {
      LifeFollowsHeardEvents(Mount(callbackId, accounts), actions);
    } else {
      AfterUnmount(Mount(callbackId, accounts), actions);
    }
  }
}
