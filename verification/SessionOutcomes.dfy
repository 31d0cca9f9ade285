/** How the operations of a tab end, over the runs of the session renewal, said in terms of the responses they got and
    of what the renewal endpoint did. */
module SessionOutcomes {
  import opened Options
  import opened SessionRenewal

  // ---------- what counts as a failed authentication ----------

  /** The code `UNAUTHENTICATED` among GraphQL errors, or the status 401 or 403 of any other error. */
  predicate SaysUnauthenticated(e: Error) {
    || (e.GraphQLErrors? && exists k :: 0 <= k < |e.codes| && e.codes[k] == Some("UNAUTHENTICATED"))
    || e == OtherError(Some(401)) || e == OtherError(Some(403))
  }

  predicate SignInPage(path: string) {
    || (|path| >= 6 && path[..6] == "/login")
    || (|path| >= 9 && path[..9] == "/register")
    || (|path| >= 6 && path[..6] == "/auth/")
  }

  /** An operation other than `Logout` fails authentication for the first time, in a browser, on a page that is not for
      signing in. */
  predicate TriesRenewal(p: Page, op: Op, error: Error) {
    !op.isLogout && !op.authRetried && p.browser && !SignInPage(p.path) && SaysUnauthenticated(error)
  }

  lemma TriesIffRenewable(p: Page, op: Op, error: Error)
    ensures TriesRenewal(p, op, error) <==> Renewable(p, op, error)
    ensures SaysUnauthenticated(error) <==> IsAuthExpired(error)
    ensures SignInPage(p.path) <==> IsAuthRoute(p.path)
  {
    assert "/login" <= p.path <==> |p.path| >= 6 && p.path[..6] == "/login";
    assert "/register" <= p.path <==> |p.path| >= 9 && p.path[..9] == "/register";
    assert "/auth/" <= p.path <==> |p.path| >= 6 && p.path[..6] == "/auth/";
  }

  // ---------- one step ----------

  /** A first response without an error is delivered; one with an error makes the operation wait for a renewal where one
      is tried, and otherwise fail with just this error. */
  lemma FirstResponseEnds(t: Tab, i: nat, response: Option<Error>)
    requires Enabled(t, FirstResponse(i, response))
    ensures var state := Apply(t, FirstResponse(i, response)).ops[i].state;
            match response
            case None => state == Delivered
            case Some(error) => state == if TriesRenewal(t.page, t.ops[i], error) then Joined(error) else Errored(error)
  {
    if response.Some? { TriesIffRenewable(t.page, t.ops[i], response.value); }
  }

  /** A retry is delivered, or fails with its own error. */
  lemma RetryEnds(t: Tab, i: nat, response: Option<Error>)
    requires Enabled(t, RetryResponse(i, response))
    ensures Apply(t, RetryResponse(i, response)).ops[i].state
         == if response.None? then Delivered else Errored(response.value)
  {
  }

  /** After a renewal the operation is sent again; after an expired or unavailable one it fails with the error it joined
      with. */
  lemma ResumeEnds(t: Tab, i: nat)
    requires Enabled(t, Resume(i))
    ensures var outcome := t.net.flights[t.ops[i].flight.value].phase.outcome;
            var op' := Apply(t, Resume(i)).ops[i];
            && op'.renewal == Some(outcome)
            && op'.state == if outcome == Renewed then Retrying else Errored(t.ops[i].state.error)
  {
  }

  // ---------- over runs ----------

  function ResponseIn(e: Event, i: nat): Option<Option<Error>> {
    match e
    case FirstResponse(j, response) => if i == j then Some(response) else None
    case RetryResponse(j, response) => if i == j then Some(response) else None
    case _ => None
  }

  /** The last response the operation got in the first `n` steps, if it got one. */
  function LastResponse(es: seq<Event>, i: nat, n: nat): Option<Option<Error>>
    requires n <= |es|
  {
    if n == 0 then None
    else if ResponseIn(es[n - 1], i).Some? then ResponseIn(es[n - 1], i)
    else LastResponse(es, i, n - 1)
  }

  /** The state of an operation whose last response is the given one. */
  predicate StateFits(state: OpState, last: Option<Option<Error>>) {
    match last
    case None => state.Sent? || state.Cancelled?
    case Some(None) => state.Delivered?
    case Some(Some(error)) => state == Errored(error) || state == Joined(error) || state.Retrying? || state.Cancelled?
  }

  lemma StepFits(t: Tab, e: Event, i: nat, last: Option<Option<Error>>)
    requires Inv(t) && Enabled(t, e) && i < |Apply(t, e).ops|
    requires if i < |t.ops| then StateFits(t.ops[i].state, last) else last == None
    ensures StateFits(Apply(t, e).ops[i].state, if ResponseIn(e, i).Some? then ResponseIn(e, i) else last)
  {
    if Subject(e) != Some(i) {
      OtherOpsStay(t, e, i);
    } else {
      match e {
        case FirstResponse(_, response) => FirstResponseEnds(t, i, response);
        case RetryResponse(_, response) => RetryEnds(t, i, response);
        case Resume(_) => ResumeEnds(t, i);
        case Cancel(_) =>
      }
    }
  }

  /** Operations are only added. */
  lemma OpsGrow(t: Tab, e: Event)
    requires Enabled(t, e)
    ensures |t.ops| <= |Apply(t, e).ops|
  {
  }

  lemma NoResponseBefore(t: Tab, e: Event, i: nat)
    requires Enabled(t, e) && i >= |t.ops|
    ensures ResponseIn(e, i) == None
  {
  }

  lemma {:induction false} NotTold(ts: seq<Tab>, es: seq<Event>, i: nat, n: nat)
    requires IsRun(ts, es) && n <= |es| && i >= |ts[n].ops|
    ensures LastResponse(es, i, n) == None
  {
    if n > 0 {
      OpsGrow(ts[n - 1], es[n - 1]);
      NoResponseBefore(ts[n - 1], es[n - 1], i);
      NotTold(ts, es, i, n - 1);
    }
  }

  lemma {:induction false} RunFits(ts: seq<Tab>, es: seq<Event>, i: nat, n: nat)
    requires IsRun(ts, es) && n <= |es| && i < |ts[n].ops|
    ensures StateFits(ts[n].ops[i].state, LastResponse(es, i, n))
  {
    assert n > 0;
    var k := n - 1;
    RunKeepsInv(ts, es, k);
    if i < |ts[k].ops| { RunFits(ts, es, i, k); } else { NotTold(ts, es, i, k); }
    StepFits(ts[k], es[k], i, LastResponse(es, i, k));
  }

  /** Over every run an operation is delivered if and only if its last response had no error; and of those that have
      ended and were not cancelled, each has failed with an error if and only if that is the error of its last response:
      after an expired or unavailable renewal the one it had failed with at first. */
  lemma ReportedAsAnswered(ts: seq<Tab>, es: seq<Event>, i: nat)
    requires IsRun(ts, es) && i < |ts[|es|].ops|
    ensures var state := ts[|es|].ops[i].state;
            var last := LastResponse(es, i, |es|);
            && (state == Delivered <==> last == Some(None))
            && (state.Errored? ==> last == Some(Some(state.error)))
            && (Final(state) && !state.Cancelled? ==> forall e :: state == Errored(e) <==> last == Some(Some(e)))
  {
    RunFits(ts, es, i, |es|);
  }

  /** Nobody waits without a reason: a waiting operation has joined a renewal that is not over or whose outcome it can
      take now, and a retrying one has had its renewal. */
  lemma WaitsForRenewal(ts: seq<Tab>, es: seq<Event>, i: nat)
    requires IsRun(ts, es) && i < |ts[|es|].ops|
    ensures var op := ts[|es|].ops[i];
            && (op.state.Joined? ==>
                  && op.flight.Some? && op.flight.value < |ts[|es|].net.flights|
                  && (ts[|es|].net.flights[op.flight.value].phase.Released? ==> Enabled(ts[|es|], Resume(i))))
            && (op.state.Retrying? ==> op.renewal == Some(Renewed))
  {
    RunKeepsInv(ts, es, |es|);
    assert OpOk(ts[|es|].net, ts[|es|].ops[i]);
  }

  // ---------- what a renewal comes back as ----------

  /** In step `k` the renewal is answered, or its answer given up, in the given phase. */
  predicate SettledAt(ts: seq<Tab>, es: seq<Event>, k: nat, f: nat, answered: bool, phase: Phase) {
    && k < |es| && k < |ts| && es[k] == (if answered then Net(Answer(f)) else Net(Drop(f)))
    && f < |ts[k].net.flights| && ts[k].net.flights[f].phase == phase
  }

  ghost predicate AnsweredIn(ts: seq<Tab>, es: seq<Event>, f: nat, n: nat, outcome: Outcome) {
    exists k: nat, phase ::
      k < n && SettledAt(ts, es, k, f, true, phase)
      && (outcome.Renewed? ==> phase.Granted?) && (outcome.Expired? ==> phase.Rejected?)
      && (outcome.Unavailable? ==> phase.Declined?)
  }

  ghost predicate GivenUp(ts: seq<Tab>, es: seq<Event>, f: nat, n: nat) {
    exists k: nat, phase :: k < n && SettledAt(ts, es, k, f, false, phase)
  }

  /** The outcome a settled or released renewal has. */
  function OutcomeOf(p: Phase): Option<Outcome> {
    match p
    case Settled(outcome) => Some(outcome)
    case Released(outcome) => Some(outcome)
    case _ => None
  }

  /** A renewal gets its outcome when it is answered or given up, and keeps it. */
  lemma OutcomeStep(n: Renewals, e: NetEvent, f: nat)
    requires NetEnabled(n, e) && f < |n.flights|
    ensures var p, p' := n.flights[f].phase, NetApply(n, e).flights[f].phase;
            OutcomeOf(p') == (if e == Answer(f) then
                                Some(if p.Granted? then Renewed else if p.Rejected? then Expired else Unavailable)
                              else if e == Drop(f) then Some(Unavailable)
                              else OutcomeOf(p))
  {
  }

  lemma OutcomeAfter(t: Tab, e: Event, f: nat)
    requires Enabled(t, e) && f < |Apply(t, e).net.flights| && OutcomeOf(Apply(t, e).net.flights[f].phase).Some?
    ensures f < |t.net.flights|
    ensures var p, o := t.net.flights[f].phase, OutcomeOf(Apply(t, e).net.flights[f].phase).value;
            || OutcomeOf(p) == Some(o)
            || (e == Net(Answer(f)) && UnderWay(p)
                && o == if p.Granted? then Renewed else if p.Rejected? then Expired else Unavailable)
            || (e == Net(Drop(f)) && o == Unavailable)
  {
    NetAfter(t, e);
    if e.Net? { OutcomeStep(t.net, e.e, f); }
  }

  /** Over every run a renewal comes back as renewed only if the endpoint granted it and the answer arrived, as expired
      only if the endpoint rejected it and the answer arrived, and as unavailable only if the endpoint declined it or no
      answer arrived. */
  lemma {:induction false} OutcomeTells(ts: seq<Tab>, es: seq<Event>, f: nat, n: nat)
    requires IsRun(ts, es) && n <= |es| && f < |ts[n].net.flights| && OutcomeOf(ts[n].net.flights[f].phase).Some?
    ensures var o := OutcomeOf(ts[n].net.flights[f].phase).value;
            AnsweredIn(ts, es, f, n, o) || (o == Unavailable && GivenUp(ts, es, f, n))
  {
    assert n > 0;
    var k := n - 1;
    OutcomeAfter(ts[k], es[k], f);
    var p, o := ts[k].net.flights[f].phase, OutcomeOf(ts[n].net.flights[f].phase).value;
    if OutcomeOf(p) == Some(o) {
      OutcomeTells(ts, es, f, k);
    } else {
      assert SettledAt(ts, es, k, f, es[k] == Net(Answer(f)), p);
    }
  }

  /** And an operation that joined it takes over just this outcome. */
  lemma ResumedWithOutcome(ts: seq<Tab>, es: seq<Event>, i: nat)
    requires IsRun(ts, es) && i < |ts[|es|].ops| && ts[|es|].ops[i].renewal.Some?
    ensures var op := ts[|es|].ops[i];
            && op.flight.Some?
            && (AnsweredIn(ts, es, op.flight.value, |es|, op.renewal.value)
                || (op.renewal.value == Unavailable && GivenUp(ts, es, op.flight.value, |es|)))
  {
    RunKeepsInv(ts, es, |es|);
    assert OpOk(ts[|es|].net, ts[|es|].ops[i]);
    OutcomeTells(ts, es, ts[|es|].ops[i].flight.value, |es|);
  }

  /** An answer that says neither yes nor no, and one that does not arrive, leave the cookies alone. */
  lemma UnavailableKeepsCookies(n: Renewals, e: NetEvent)
    requires NetEnabled(n, e)
    requires e.Drop? || e.ProviderBusy? || (e.Answer? && n.flights[e.f].phase.Declined?)
    ensures NetApply(n, e).jar == n.jar
  {
  }

  // ---------- who is signed in, as far as the page knows ----------

  /** On a page for signing in an operation fails authentication at first: no renewal is tried. */
  predicate FailsOnSignInPage(t: Tab, e: Event)
    requires Enabled(t, e)
  {
    && e.FirstResponse? && e.response.Some? && SaysUnauthenticated(e.response.value)
    && !t.ops[e.i].isLogout && SignInPage(t.page.path)
  }

  /** A step forgets the stored user if and only if it ends the session, or an operation fails authentication on a page
      for signing in, before any redirect; and only a sign-in stores one. */
  lemma ForgetsUserIff(t: Tab, e: Event)
    requires Inv(t) && Enabled(t, e)
    ensures t.page.userKey ==>
              (!Apply(t, e).page.userKey <==>
                 && (EndsSession(t, e) || FailsOnSignInPage(t, e)) && t.page.browser && !t.page.logoutInProgress)
    ensures !t.page.userKey ==> (Apply(t, e).page.userKey <==> e.SignedIn?)
  {
    if e.Resume? || e.RetryResponse? || e.FirstResponse? {
      assert OpOk(t.net, t.ops[e.i]);
    }
    if e.FirstResponse? && e.response.Some? { TriesIffRenewable(t.page, t.ops[e.i], e.response.value); }
  }
}
