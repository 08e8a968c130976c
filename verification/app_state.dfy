/** The two pieces of React state held by `App` (`isAuthenticated`, `loading`)
    and the two ways the effect changes them: the event callback and the
    one-time probe of cached accounts. Each setter is an immediate assignment. */
module AppState {
  import opened Msal

  datatype Session = Session(isAuthenticated: bool, loading: bool)

  /** The values given to `useState` when `App` first renders. */
  function Initial(): (s: Session)
    ensures !s.isAuthenticated && s.loading
  {
    Session(false, true)
  }

  /** The event kinds the callback reacts to; every other kind is ignored. */
  predicate Recognised(e: Event) {
    e.eventType == LOGIN_SUCCESS || e.eventType == LOGOUT_SUCCESS
  }

  /** The registered event callback: a login success signs in, a logout
      success signs out, anything else keeps the flag; the loading gate is
      released on every delivery. */
  function Step(s: Session, e: Event): (r: Session)
    ensures !r.loading
    ensures e.eventType == LOGIN_SUCCESS ==> r.isAuthenticated
    ensures e.eventType == LOGOUT_SUCCESS ==> !r.isAuthenticated
    ensures !Recognised(e) ==> r.isAuthenticated == s.isAuthenticated
  {
    var authenticated :=
      if e.eventType == LOGIN_SUCCESS then true
      else if e.eventType == LOGOUT_SUCCESS then false
      else s.isAuthenticated;
    Session(authenticated, false)
  }

  /** The probe run once in the effect: at least one cached account signs in,
      none leaves the flag as it was (it never sets it to false), and the
      loading gate is released either way. */
  function Probe(s: Session, accounts: seq<Account>): (r: Session)
    ensures !r.loading
    ensures |accounts| > 0 ==> r.isAuthenticated
    ensures |accounts| == 0 ==> r.isAuthenticated == s.isAuthenticated
  {
    var authenticated := if |accounts| > 0 then true else s.isAuthenticated;
    Session(authenticated, false)
  }

  /** The callback applied to events in delivery order. The gate is still
      raised afterwards only if it was raised before and nothing was delivered. */
  function Run(s: Session, events: seq<Event>): (r: Session)
    ensures r.loading <==> s.loading && |events| == 0
    decreases |events|
  {
    if |events| == 0 then s else Run(Step(s, events[0]), events[1..])
  }

  /** The event at index `i` is the last recognised one in `events`. */
  ghost predicate LastRecognisedAt(events: seq<Event>, i: int) {
    && 0 <= i < |events|
    && Recognised(events[i])
    && forall j :: i < j < |events| ==> !Recognised(events[j])
  }

  /** The verdict after a run is decided by the last recognised event, and is
      the starting verdict when no event is recognised: an independent,
      non-recursive description of what folding the callback computes. */
  lemma {:induction false} RunVerdict(s: Session, events: seq<Event>)
    ensures (forall i :: 0 <= i < |events| ==> !Recognised(events[i])) ==>
              Run(s, events).isAuthenticated == s.isAuthenticated
    ensures forall i :: LastRecognisedAt(events, i) ==>
              (Run(s, events).isAuthenticated <==> events[i].eventType == LOGIN_SUCCESS)
    decreases |events|
  {
    if |events| > 0 {
      var rest := events[1..];
      RunVerdict(Step(s, events[0]), rest);
      forall i | LastRecognisedAt(events, i)
        ensures Run(s, events).isAuthenticated <==> events[i].eventType == LOGIN_SUCCESS
      {
        if i == 0 {
          assert forall k :: 0 <= k < |rest| ==> !Recognised(rest[k]) by {
            forall k | 0 <= k < |rest| ensures !Recognised(rest[k]) {
              assert rest[k] == events[k + 1];
            }
          }
        } else {
          assert LastRecognisedAt(rest, i - 1) by {
            forall j | i - 1 < j < |rest| ensures !Recognised(rest[j]) {
              assert rest[j] == events[j + 1];
            }
          }
        }
      }
      if forall i :: 0 <= i < |events| ==> !Recognised(events[i]) {
        assert !Recognised(events[0]);
        forall k | 0 <= k < |rest| ensures !Recognised(rest[k]) {
          assert rest[k] == events[k + 1];
        }
      }
    }
  }

  /** Delivering `a` and then `b` is the same as delivering `a + b`. */
  lemma {:induction false} RunAppend(s: Session, a: seq<Event>, b: seq<Event>)
    ensures Run(s, a + b) == Run(Run(s, a), b)
    decreases |a|
  {
    if |a| == 0 {
      assert a + b == b;
    } else {
      assert (a + b)[1..] == a[1..] + b;
      RunAppend(Step(s, a[0]), a[1..], b);
    }
  }

  /** One delivery of an event is as good as two: the second copy of any event,
      a login success among them, changes nothing. */
  lemma StepIdempotent(s: Session, e: Event)
    ensures Step(Step(s, e), e) == Step(s, e)
  {
  }

  /** A duplicated delivery anywhere in a run, in particular a second
      consecutive login success, leaves the outcome of the run unchanged. */
  lemma {:induction false} DuplicateDeliveryHarmless(s: Session, before: seq<Event>, e: Event, after: seq<Event>)
    ensures Run(s, before + [e, e] + after) == Run(s, before + [e] + after)
  {
    var mid := Run(s, before);
    RunAppend(s, before + [e, e], after);
    RunAppend(s, before, [e, e]);
    RunAppend(s, before + [e], after);
    RunAppend(s, before, [e]);
    assert [e, e][1..] == [e];
    assert Run(mid, [e, e]) == Run(Step(mid, e), [e]);
    assert Run(Step(mid, e), [e]) == Run(Step(Step(mid, e), e), []);
    StepIdempotent(mid, e);
  }

  /** Probe and callback both release the gate, in either order; the verdict,
      however, depends on which runs last (a logout before the probe of a
      non-empty cache ends signed in, the reverse order signed out). */
  lemma ProbeEventOrder(s: Session, e: Event, accounts: seq<Account>)
    ensures !Probe(Step(s, e), accounts).loading && !Step(Probe(s, accounts), e).loading
    ensures e.eventType == LOGOUT_SUCCESS && |accounts| > 0 ==>
              Probe(Step(s, e), accounts).isAuthenticated && !Step(Probe(s, accounts), e).isAuthenticated
  {
  }
}
