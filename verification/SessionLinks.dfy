/** The browser-side modules of the session renewal as they mutate their state: the link handlers, the latch of
    `refreshSession` and the terminal redirect.  Each runs one step of the transition system. */
module SessionLinks {
  import opened Options
  import opened SessionOutcomes
  import opened SessionRenewal

  class BrowserTab {
    const browser: bool
    var path: string
    var userKey: bool
    var logoutInProgress: bool
    var navigations: nat
    var ops: seq<Op>
    var flights: seq<Flight>
    var inFlight: Option<nat>
    var jar: Cookies
    ghost var sessions: seq<Session>

    ghost function Value(): Tab
      reads this
    {
      Tab(Page(browser, path, userKey, logoutInProgress, navigations), ops,
          Renewals(flights, inFlight, jar, sessions))
    }

    constructor (browser: bool, path: string, userKey: bool, user: string, serial: nat)
      ensures Initial(Value()) && Inv(Value()) && Value().page == Page(browser, path, userKey, false, 0)
      ensures jar == Cookies(None, Some(Token(0, serial)))
    {
      this.browser, this.path, this.userKey := browser, path, userKey;
      logoutInProgress, navigations, ops, flights, inFlight := false, 0, [], [], None;
      jar, sessions := Cookies(None, Some(Token(0, serial))), [Session(user, serial, false, false)];
    }

    method TriggerAuthExpiredRedirect()
      modifies this`userKey, this`logoutInProgress, this`navigations
      ensures Value() == old(Value()).(page := Redirect(old(Value()).page))
    {
      if logoutInProgress || !browser { return; }
      if !userKey { return; }
      if IsAuthRoute(path) {
        userKey := false;
        return;
      }
      logoutInProgress := true;
      userKey := false;
      navigations := navigations + 1;
    }

    /** The terminal link's handler, after the operation has failed with `error`. */
    method AuthExpiryLink(op: Op, error: Error)
      modifies this`userKey, this`logoutInProgress, this`navigations
      ensures Value() == old(Value()).(page := Terminal(old(Value()).page, op, error))
    {
      if op.isLogout { return; }
      if !IsAuthExpired(error) { return; }
      if op.skipRedirect { return; }
      if !browser { return; }
      TriggerAuthExpiredRedirect();
    }

    /** The error leaves the renewal link upward: the operation has failed, and the terminal link sees the error. */
    method PassUp(i: nat, op: Op, error: Error)
      requires i < |ops|
      modifies this`ops, this`userKey, this`logoutInProgress, this`navigations
      ensures Value() == Surface(old(Value()), i, op, error)
      ensures |ops| == |old(ops)| && ops[i].state == Errored(error)
    {
      ops := ops[i := op.(state := Errored(error))];
      AuthExpiryLink(op, error);
    }

    method RefreshSession() returns (f: nat)
      modifies this`flights, this`inFlight
      ensures Value() == old(Value()).(net := Refresh(old(Value()).net).0)
      ensures f == Refresh(old(Value()).net).1
    {
      if inFlight.None? {
        inFlight := Some(|flights|);
        flights := flights + [Flight(jar, Requested)];
      }
      f := inFlight.value;
    }

    /** The latch's `finally`: released on every outcome. */
    method ReleaseLatch(f: nat)
      requires NetEnabled(Value().net, Release(f))
      modifies this`flights, this`inFlight
      ensures Value() == Apply(old(Value()), Net(Release(f)))
      ensures inFlight == None
    {
      flights := flights[f := flights[f].(phase := Released(flights[f].phase.outcome))];
      inFlight := None;
    }

    /** The renewal link's error handler and, where it does not apply, the terminal link above it. */
    method SessionRefreshLink(i: nat, response: Option<Error>)
      requires Enabled(Value(), FirstResponse(i, response)) && Inv(Value())
      modifies this
      ensures Value() == Apply(old(Value()), FirstResponse(i, response)) && Inv(Value())
      ensures |ops| == |old(ops)| && ops[i].state ==
                if response.None? then Delivered
                else if TriesRenewal(old(Value()).page, old(ops[i]), response.value) then Joined(response.value)
                else Errored(response.value)
    {
      ghost var t0 := Value();
      var op := ops[i];
      if response.None? {
        ops := ops[i := op.(state := Delivered)];
      } else {
        var error := response.value;
        if op.isLogout || !IsAuthExpired(error) || op.authRetried || !browser || IsAuthRoute(path) {
          PassUp(i, op, error);
        } else {
          var f := RefreshSession();
          ops := ops[i := op.(state := Joined(error), flight := Some(f))];
        }
      }
      assert Value() == Apply(t0, FirstResponse(i, response));
      FirstResponseEnds(t0, i, response);
      StepKeepsInv(t0, FirstResponse(i, response));
    }

    /** The continuation of a joined operation, once its renewal is released. */
    method OnRefreshed(i: nat)
      requires Enabled(Value(), Resume(i)) && Inv(Value())
      modifies this
      ensures Value() == Apply(old(Value()), Resume(i)) && Inv(Value())
      ensures |ops| == |old(ops)| && ops[i].state ==
                if old(flights[ops[i].flight.value].phase.outcome) == Renewed then Retrying
                else Errored(old(ops[i].state.error))
    {
      ghost var t0 := Value();
      var op := ops[i];
      var outcome := flights[op.flight.value].phase.outcome;
      if outcome == Renewed {
        op := op.(authRetried := true, state := Retrying, forwards := op.forwards + 1, renewal := Some(Renewed));
        ops := ops[i := op];
      } else {
        if outcome == Unavailable {
          op := op.(skipRedirect := true);
        }
        PassUp(i, op.(renewal := Some(outcome)), op.state.error);
      }
      assert Value() == Apply(t0, Resume(i));
      ResumeEnds(t0, i);
      StepKeepsInv(t0, Resume(i));
    }
  }
}
