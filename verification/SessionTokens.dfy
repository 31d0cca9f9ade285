/** Who a tab is signed in as, over the runs of the session renewal: lost tokens, sign-ins and sign-outs while a renewal
    is outstanding, and the endpoint's comparison of users. */
module SessionTokens {
  import opened Options
  import opened SessionOutcomes
  import opened SessionRenewal

  // ---------- lost tokens ----------

  /** If renewal `f` belongs to session `x`, it has not succeeded. */
  predicate NoSuccess(n: Renewals, x: nat, f: nat) {
    f < |n.flights| && n.flights[f].presented.refresh.Some? && n.flights[f].presented.refresh.value.session == x ==>
      NotSuccessful(n.flights[f].phase)
  }

  /** The session cannot be renewed any more: a token of it was lost, or it was revoked. */
  predicate Dead(n: Renewals, x: nat) {
    Lost(n, x) || Revoked(n, x)
  }

  lemma NetStepKeepsLoss(n: Renewals, e: NetEvent, x: nat, f: nat)
    requires NetOk(n) && NetEnabled(n, e) && Dead(n, x) && NoSuccess(n, x, f)
    ensures var n' := NetApply(n, e); Dead(n', x) && NoSuccess(n', x, f)
  {
  }

  /** Losses and revocations are not forgotten, and no renewal of the session that was not successful before becomes it
      afterwards. */
  lemma LossIsKept(t: Tab, e: Event, x: nat, f: nat)
    requires NetOk(t.net) && Enabled(t, e) && Dead(t.net, x) && NoSuccess(t.net, x, f)
    ensures Dead(Apply(t, e).net, x) && NoSuccess(Apply(t, e).net, x, f)
  {
    NetAfter(t, e);
    if e.Net? { NetStepKeepsLoss(t.net, e.e, x, f); }
  }

  lemma {:induction false} DeadStaysDead(ts: seq<Tab>, es: seq<Event>, k: nat, x: nat, f: nat)
    requires IsRun(ts, es) && k <= |es| && Dead(ts[k].net, x) && NoSuccess(ts[k].net, x, f)
    ensures Dead(ts[|es|].net, x) && NoSuccess(ts[|es|].net, x, f)
    decreases |es| - k
  {
    if k < |es| {
      RunKeepsInv(ts, es, k);
      LossIsKept(ts[k], es[k], x, f);
      DeadStaysDead(ts, es, k + 1, x, f);
    }
  }

  /** Once a token issued for a session has failed to reach the browser, no renewal of that session ever succeeds again:
      neither the one whose answer was lost nor any later one, whatever happens in between. */
  lemma LostGrantForcesExpiry(ts: seq<Tab>, es: seq<Event>, k: nat, x: nat, f: nat)
    requires IsRun(ts, es) && k <= |es| && Lost(ts[k].net, x) && NoSuccess(ts[k].net, x, f)
    ensures NoSuccess(ts[|es|].net, x, f)
  {
    DeadStaysDead(ts, es, k, x, f);
  }

  /** Nor does any after the session was revoked, unless it had been granted before. */
  lemma RevocationForcesExpiry(ts: seq<Tab>, es: seq<Event>, k: nat, x: nat, f: nat)
    requires IsRun(ts, es) && k < |es| && es[k] == Net(Revoke(x)) && NoSuccess(ts[k].net, x, f)
    ensures NoSuccess(ts[|es|].net, x, f)
  {
    assert Revoked(ts[k + 1].net, x);
    DeadStaysDead(ts, es, k + 1, x, f);
  }

  // ---------- until the next sign-in ----------

  /** A sign-in that brings a refresh token. */
  predicate Renews(e: Event) {
    e.SignedIn? && e.renewable
  }

  /** No sign-in on the way brings a refresh token. */
  ghost predicate NoRenews(es: seq<Event>) {
    forall j :: 0 <= j < |es| ==> !Renews(es[j])
  }

  /** Neither the cookie nor any renewal from `m` on has a usable token, and none of these has succeeded. */
  predicate Hopeless(n: Renewals, m: nat) {
    && !Usable(n, n.jar.refresh)
    && forall f :: m <= f < |n.flights| ==>
         !Usable(n, n.flights[f].presented.refresh) && NotSuccessful(n.flights[f].phase)
  }

  /** What was not usable does not become it. */
  lemma UnusableStays(n: Renewals, e: NetEvent, t: Option<Token>)
    requires NetEnabled(n, e) && (t.Some? ==> t.value.session < |n.sessions|) && !Usable(n, t)
    ensures !Usable(NetApply(n, e), t)
  {
  }

  lemma HandlingUnusable(n: Renewals, f: nat)
    requires NetOk(n) && NetEnabled(n, ProviderHandles(f)) && !Usable(n, n.flights[f].presented.refresh)
    ensures NetApply(n, ProviderHandles(f)) == InPhase(n, f, Rejected)
  {
  }

  /** All renewals before `m` are over. */
  predicate NoneBefore(n: Renewals, m: nat) {
    forall f :: 0 <= f < m && f < |n.flights| ==> n.flights[f].phase.Released?
  }

  lemma NetStepHopeless(n: Renewals, e: NetEvent, m: nat)
    requires NetOk(n) && NetEnabled(n, e) && Hopeless(n, m) && NoneBefore(n, m)
    ensures Hopeless(NetApply(n, e), m) && NoneBefore(NetApply(n, e), m)
  {
    var n' := NetApply(n, e);
    if e.ProviderHandles? { HandlingUnusable(n, e.f); }
    UnusableStays(n, e, n.jar.refresh);
    forall f | m <= f < |n'.flights|
      ensures !Usable(n', n'.flights[f].presented.refresh) && NotSuccessful(n'.flights[f].phase)
    {
      UnusableStays(n, e, n.flights[f].presented.refresh);
    }
  }

  lemma StepHopeless(t: Tab, e: Event, m: nat)
    requires NetOk(t.net) && Enabled(t, e) && !Renews(e) && Hopeless(t.net, m) && NoneBefore(t.net, m)
    requires m <= |t.net.flights|
    ensures Hopeless(Apply(t, e).net, m) && NoneBefore(Apply(t, e).net, m) && m <= |Apply(t, e).net.flights|
  {
    NetAfter(t, e);
    if e.Net? { NetStepHopeless(t.net, e.e, m); }
  }

  lemma {:induction false} PathHopeless(ts: seq<Tab>, es: seq<Event>, k: nat)
    requires IsPath(ts, es) && Inv(ts[0]) && ts[0].net.inFlight.None? && !Usable(ts[0].net, ts[0].net.jar.refresh)
    requires k <= |es| && NoRenews(es)
    ensures var m := |ts[0].net.flights|;
            Hopeless(ts[k].net, m) && NoneBefore(ts[k].net, m) && m <= |ts[k].net.flights|
  {
    if k > 0 {
      PathHopeless(ts, es, k - 1);
      PathKeepsInv(ts, es, k - 1);
      StepHopeless(ts[k - 1], es[k - 1], |ts[0].net.flights|);
    }
  }

  /** An operation that joins a renewal while the cookie has no usable token, and before a sign-in brings another one,
      is resumed with `expired` or `unavailable`, never retried. */
  lemma JoinedInVain(ts: seq<Tab>, es: seq<Event>, i: nat)
    requires IsPath(ts, es) && Inv(ts[0]) && ts[0].net.inFlight.None? && !Usable(ts[0].net, ts[0].net.jar.refresh)
    requires i < |ts[|es|].ops| && NoRenews(es)
    requires ts[|es|].ops[i].flight.Some? && ts[|es|].ops[i].flight.value >= |ts[0].net.flights|
    ensures ts[|es|].ops[i].forwards == 1 && ts[|es|].ops[i].renewal != Some(Renewed)
  {
    PathKeepsInv(ts, es, |es|);
    PathHopeless(ts, es, |es|);
    assert OpOk(ts[|es|].net, ts[|es|].ops[i]);
  }

  // ---------- paths ----------

  lemma ExtendPath(ts: seq<Tab>, es: seq<Event>, e: Event, v: Tab)
    requires IsPath(ts, es) && Enabled(ts[|es|], e) && v == Apply(ts[|es|], e)
    ensures IsPath(ts + [v], es + [e])
  {
    var ts', es' := ts + [v], es + [e];
    forall k | 0 <= k < |es'|
      ensures Enabled(ts'[k], es'[k]) && ts'[k + 1] == Apply(ts'[k], es'[k])
    {
      assert ts'[k] == ts[k];
      if k < |es| { assert es'[k] == es[k] && ts'[k + 1] == ts[k + 1]; }
    }
  }

  /** A path leads from `t` to `u`; without a sign-in that brings a refresh token unless `renews`. */
  ghost predicate Leads(t: Tab, u: Tab, renews: bool) {
    exists ts, es :: IsPath(ts, es) && ts[0] == t && ts[|es|] == u && (renews || NoRenews(es))
  }

  lemma LeadsToItself(t: Tab, renews: bool)
    ensures Leads(t, t, renews)
  {
    assert IsPath([t], []) && NoRenews([]);
  }

  lemma LeadsNext(t: Tab, u: Tab, renews: bool, e: Event) returns (v: Tab)
    requires Leads(t, u, renews) && Enabled(u, e) && (Renews(e) ==> renews)
    ensures v == Apply(u, e) && Leads(t, v, renews)
  {
    v := Apply(u, e);
    var ts, es :| IsPath(ts, es) && ts[0] == t && ts[|es|] == u && (renews || NoRenews(es));
    ExtendPath(ts, es, e, v);
    assert (ts + [v])[0] == t && (ts + [v])[|es + [e]|] == v;
    assert renews || NoRenews(es + [e]);
  }

  const UNAUTHORIZED := OtherError(Some(401))

  /** When its access token has expired, a tab starts a renewal with the next operation. */
  lemma StartRenewal(t: Tab, u: Tab, renews: bool) returns (v: Tab)
    requires Leads(t, u, renews) && u.page.browser && u.net.inFlight.None?
    ensures Leads(t, v, renews) && v.page.browser && v.net == Refresh(NetApply(u.net, AccessExpires)).0
  {
    var i := |u.ops|;
    v := LeadsNext(t, u, renews, Net(AccessExpires));
    v := LeadsNext(t, v, renews, Visit("/"));
    v := LeadsNext(t, v, renews, Issue(false));
    assert !IsAuthRoute("/");
    v := LeadsNext(t, v, renews, FirstResponse(i, Some(UNAUTHORIZED)));
  }

  /** And the provider grants it where the cookie has a usable token. */
  lemma GrantRenewal(t: Tab, u: Tab, renews: bool, f: nat) returns (v: Tab)
    requires Leads(t, u, renews) && f < |u.net.flights| && u.net.flights[f].phase.Requested?
    requires u.net.flights[f].presented.access.None? && u.net.flights[f].presented.refresh.Some?
    requires Accepted(u.net, u.net.flights[f].presented.refresh.value)
    ensures Leads(t, v, renews) && v.page == u.page
    ensures v.net == Grant(u.net, f, u.net.flights[f].presented.refresh.value)
  {
    v := LeadsNext(t, u, renews, Net(ProviderHandles(f)));
  }

  /** A renewal started from `t` on has succeeded. */
  predicate Succeeded(t: Tab, u: Tab) {
    exists f :: |t.net.flights| <= f < |u.net.flights| && u.net.flights[f].phase == Settled(Renewed)
  }

  lemma UsableSucceeds(t: Tab, u: Tab, renews: bool) returns (v: Tab)
    requires Leads(t, u, renews) && Inv(u) && u.page.browser && u.net.inFlight.None?
    requires Usable(u.net, u.net.jar.refresh) && |u.net.flights| == |t.net.flights|
    ensures Leads(t, v, renews) && Succeeded(t, v)
    ensures v.net.jar.refresh == Some(Token(u.net.jar.refresh.value.session, u.net.jar.refresh.value.serial + 1))
  {
    var f := |u.net.flights|;
    v := StartRenewal(t, u, renews);
    v := GrantRenewal(t, v, renews, f);
    v := LeadsNext(t, v, renews, Net(Answer(f)));
    assert v.net.flights[f].phase == Settled(Renewed);
  }

  /** From a reachable state without an outstanding renewal, some renewal can succeed before a sign-in brings another
      refresh token if and only if the cookie holds a token of a session that was not revoked and of which no token was
      lost. */
  lemma RenewalPossibleIff(t: Tab)
    requires Inv(t) && t.page.browser && t.net.inFlight.None?
    ensures (exists u :: Leads(t, u, false) && Succeeded(t, u)) <==> Usable(t.net, t.net.jar.refresh)
  {
    if Usable(t.net, t.net.jar.refresh) {
      LeadsToItself(t, false);
      var u := UsableSucceeds(t, t, false);
    } else {
      forall u | Leads(t, u, false)
        ensures !Succeeded(t, u)
      {
        var ts, es :| IsPath(ts, es) && ts[0] == t && ts[|es|] == u && NoRenews(es);
        PathHopeless(ts, es, |es|);
      }
    }
  }

  /** A sign-in that brings a refresh token ends all this, in the same page load, whatever was lost or revoked. */
  lemma SignInRestores(t: Tab, user: string) returns (v: Tab)
    requires Inv(t) && t.page.browser && t.net.inFlight.None?
    ensures Leads(t, v, true) && Succeeded(t, v) && v.net.jar.refresh == Some(Token(|t.net.sessions|, 1))
  {
    LeadsToItself(t, true);
    StepKeepsInv(t, SignedIn(user, true));
    v := LeadsNext(t, t, true, SignedIn(user, true));
    v := UsableSucceeds(t, v, true);
  }

  /** The loss can happen, to the first renewal of any tab with a token of a session that was not revoked. */
  lemma LossIsReachable(t: Tab) returns (v: Tab)
    requires Initial(t) && t.page.browser && Usable(t.net, t.net.jar.refresh)
    ensures Leads(t, v, false) && v.page.browser && v.net.inFlight.None?
    ensures v.net.jar.refresh == t.net.jar.refresh && Lost(v.net, v.net.jar.refresh.value.session)
  {
    LeadsToItself(t, false);
    v := StartRenewal(t, t, false);
    v := GrantRenewal(t, v, false, 0);
    v := LeadsNext(t, v, false, Net(Drop(0)));
    v := LeadsNext(t, v, false, Net(Release(0)));
  }

  // ---------- a sign-in or sign-out while a renewal is outstanding ----------

  /** A renewal starts exactly when an operation fails auth outside the auth routes while none is outstanding, and
      presents the cookies of that moment: none starts on an auth route. */
  lemma RenewalStartsIff(t: Tab, e: Event)
    requires Enabled(t, e)
    ensures var n := Apply(t, e).net;
            && (|n.flights| > |t.net.flights|
                <==> && e.FirstResponse? && e.response.Some? && TriesRenewal(t.page, t.ops[e.i], e.response.value)
                     && t.net.inFlight.None?)
            && (|n.flights| > |t.net.flights| ==>
                  && |n.flights| == |t.net.flights| + 1 && n.jar == t.net.jar
                  && n.flights[|t.net.flights|] == Flight(n.jar, Requested) && !SignInPage(t.page.path))
  {
    NetAfter(t, e);
    if e.FirstResponse? && e.response.Some? { TriesIffRenewable(t.page, t.ops[e.i], e.response.value); }
  }

  predicate Unanswered(p: Phase) {
    p.Requested? || UnderWay(p)
  }

  lemma CookieInNetStep(n: Renewals, e: NetEvent, f: nat)
    requires NetOk(n) && NetEnabled(n, e) && f < |n.flights|
    ensures var n' := NetApply(n, e);
            && f < |n'.flights| && n'.flights[f].presented == n.flights[f].presented
            && (Unanswered(n'.flights[f].phase) ==>
                  && Unanswered(n.flights[f].phase)
                  && n'.jar.refresh == if e.ClearCookies? then None else n.jar.refresh)
  {
  }

  /** While a renewal is unanswered only a sign-in and a sign-out change the refresh cookie. */
  lemma CookieWhileUnanswered(t: Tab, e: Event, f: nat)
    requires NetOk(t.net) && Enabled(t, e) && f < |t.net.flights|
    ensures var n := Apply(t, e).net;
            && f < |n.flights| && n.flights[f].presented == t.net.flights[f].presented
            && (Unanswered(n.flights[f].phase) ==>
                  && Unanswered(t.net.flights[f].phase)
                  && n.jar.refresh == if Renews(e) then Some(Token(|t.net.sessions|, 0))
                                      else if e == Net(ClearCookies) then None
                                      else t.net.jar.refresh)
  {
    NetAfter(t, e);
    if e.Net? { CookieInNetStep(t.net, e.e, f); }
  }

  /** What happened last to the refresh cookie between the steps `k` and `n`. */
  datatype Since = Untouched | SignedOut | SignedInAnew

  function LastSince(es: seq<Event>, k: nat, n: nat): Since
    requires k <= n <= |es|
    decreases n
  {
    if k == n then Untouched
    else if Renews(es[n - 1]) then SignedInAnew
    else if es[n - 1] == Net(ClearCookies) then SignedOut
    else LastSince(es, k, n - 1)
  }

  /** The cookie that an unanswered renewal meets. */
  predicate Meets(jar: Option<Token>, presented: Option<Token>, since: Since) {
    match since
    case Untouched => jar == presented
    case SignedOut => jar == None
    case SignedInAnew => jar.Some? && (presented.Some? ==> presented.value.session < jar.value.session)
  }

  lemma {:induction false} CookieSince(ts: seq<Tab>, es: seq<Event>, k: nat, n: nat, f: nat)
    requires IsRun(ts, es) && k <= n <= |es|
    requires f < |ts[k].net.flights| && ts[k].net.flights[f].presented == ts[k].net.jar
    ensures f < |ts[n].net.flights| && ts[n].net.flights[f].presented == ts[k].net.jar
    ensures Unanswered(ts[n].net.flights[f].phase) ==>
              Meets(ts[n].net.jar.refresh, ts[n].net.flights[f].presented.refresh, LastSince(es, k, n))
    decreases n
  {
    if k < n {
      CookieSince(ts, es, k, n - 1, f);
      RunKeepsInv(ts, es, n - 1);
      CookieWhileUnanswered(ts[n - 1], es[n - 1], f);
    }
  }

  /** A renewal that was started in step `k` is answered.  Granted, it puts both cookies of the session it has renewed
      into the jar; rejected, it clears the jar.  The refresh cookie that this replaces is the one presented exactly
      when nobody signed in or out since the start, none exactly when a sign-out was the last of these, and one of a
      newer session exactly when a sign-in was. */
  lemma AnswerReplaces(ts: seq<Tab>, es: seq<Event>, k: nat, f: nat)
    requires IsRun(ts, es) && k < |es| && |ts[k].net.flights| == f < |ts[k + 1].net.flights|
    requires f < |ts[|es|].net.flights|
    requires ts[|es|].net.flights[f].phase.Granted? || ts[|es|].net.flights[f].phase.Rejected?
    ensures var n := ts[|es|].net;
            var n' := Apply(ts[|es|], Net(Answer(f))).net;
            var presented, since := ts[k].net.jar.refresh, LastSince(es, k + 1, |es|);
            && (if n.flights[f].phase.Rejected? then n'.jar == NO_COOKIES
                else presented.Some? && n'.jar.refresh.Some? && Newest(n', n'.jar.refresh.value)
                     && n'.jar.refresh.value.session == presented.value.session
                     && n'.jar.access == Some(n.sessions[presented.value.session].user))
            && (presented.Some? ==>
                  && (n.jar.refresh == presented <==> since == Untouched)
                  && (n.jar.refresh == None <==> since == SignedOut))
            && (n.jar.refresh.Some? && (presented.Some? ==> presented.value.session < n.jar.refresh.value.session)
                <==> since == SignedInAnew)
  {
    RenewalStartsIff(ts[k], es[k]);
    CookieSince(ts, es, k + 1, |es|, f);
    RunKeepsInv(ts, es, |es|);
  }

  /** A user signs in on the login page while a renewal is outstanding. */
  lemma SignInMeanwhile(t: Tab, user: string) returns (v: Tab)
    requires Initial(t) && t.page.browser
    ensures Leads(t, v, true) && v.page.path == "/login" && v.page.userKey
    ensures v.net == SignIn(Refresh(NetApply(t.net, AccessExpires)).0, user, true)
  {
    LeadsToItself(t, true);
    v := StartRenewal(t, t, true);
    v := LeadsNext(t, v, true, Visit("/login"));
    v := LeadsNext(t, v, true, SignedIn(user, true));
  }

  /** The guard on the auth routes does not prevent the replacement of a newer session: it keeps renewals from starting
      there, and does not stop one that is on its way when the user comes to sign in.  The tab is then signed in as the
      user before. */
  lemma SwapIsReachable(t: Tab, user: string) returns (v: Tab)
    requires Initial(t) && t.page.browser && Usable(t.net, t.net.jar.refresh)
    ensures Leads(t, v, true) && v.page.path == "/login" && v.page.userKey
    ensures |v.net.sessions| == |t.net.sessions| + 1 && v.net.sessions[|t.net.sessions|].user == user
    ensures v.net.jar == CookiesFor(t.net, Token(t.net.jar.refresh.value.session, t.net.jar.refresh.value.serial + 1))
  {
    v := SignInMeanwhile(t, user);
    v := GrantRenewal(t, v, true, 0);
    v := LeadsNext(t, v, true, Net(Answer(0)));
  }

  // ---------- the endpoint's comparison of users ----------

  /** The access token is of the user whose session the refresh token belongs to. */
  predicate OneUser(n: Renewals, c: Cookies) {
    c.access.Some? ==>
      && c.refresh.Some? && c.refresh.value.session < |n.sessions|
      && c.access.value == n.sessions[c.refresh.value.session].user
  }

  predicate AllOneUser(n: Renewals) {
    OneUser(n, n.jar) && forall f :: 0 <= f < |n.flights| ==> OneUser(n, n.flights[f].presented)
  }

  lemma UsersStay(n: Renewals, e: NetEvent, c: Cookies)
    requires NetOk(n) && NetEnabled(n, e) && OneUser(n, c)
    ensures OneUser(NetApply(n, e), c)
  {
  }

  lemma PresentedStaysInNetStep(n: Renewals, e: NetEvent)
    requires NetEnabled(n, e)
    ensures var n' := NetApply(n, e);
            |n'.flights| == |n.flights| && forall f :: 0 <= f < |n.flights| ==>
              n'.flights[f].presented == n.flights[f].presented
  {
  }

  lemma JarInNetStep(n: Renewals, e: NetEvent)
    requires NetOk(n) && NetEnabled(n, e) && OneUser(n, n.jar)
    ensures OneUser(NetApply(n, e), NetApply(n, e).jar)
  {
    UsersStay(n, e, n.jar);
  }

  lemma NetStepKeepsUser(n: Renewals, e: NetEvent)
    requires NetOk(n) && NetEnabled(n, e) && AllOneUser(n)
    ensures AllOneUser(NetApply(n, e))
  {
    JarInNetStep(n, e);
    PresentedStaysInNetStep(n, e);
    forall f | 0 <= f < |n.flights|
      ensures OneUser(NetApply(n, e), NetApply(n, e).flights[f].presented)
    {
      UsersStay(n, e, n.flights[f].presented);
    }
  }

  lemma StepKeepsUser(t: Tab, e: Event)
    requires NetOk(t.net) && Enabled(t, e) && AllOneUser(t.net) && (e.SignedIn? ==> e.renewable)
    ensures AllOneUser(Apply(t, e).net)
  {
    NetAfter(t, e);
    if e.Net? { NetStepKeepsUser(t.net, e.e); }
  }

  /** The endpoint's comparison of the users never refuses a renewal, as long as every sign-in brings a refresh token:
      both cookies are set and cleared together, and a request carries those of the moment it was sent. */
  lemma {:induction false} ComparisonNeverRefuses(ts: seq<Tab>, es: seq<Event>, k: nat)
    requires IsRun(ts, es) && k <= |es| && OneUser(ts[0].net, ts[0].net.jar)
    requires forall j :: 0 <= j < |es| && es[j].SignedIn? ==> es[j].renewable
    ensures AllOneUser(ts[k].net)
    ensures forall f :: 0 <= f < |ts[k].net.flights| ==> !Mismatch(ts[k].net, ts[k].net.flights[f].presented)
  {
    if k > 0 {
      ComparisonNeverRefuses(ts, es, k - 1);
      RunKeepsInv(ts, es, k - 1);
      StepKeepsUser(ts[k - 1], es[k - 1]);
    }
  }

  /** After a sign-in without a refresh token it does: the session before is renewed and its new token thrown away. */
  lemma ComparisonRefuses(t: Tab, user: string) returns (v: Tab)
    requires Initial(t) && t.page.browser && !IsAuthRoute(t.page.path) && Usable(t.net, t.net.jar.refresh)
    requires user != t.net.sessions[t.net.jar.refresh.value.session].user
    ensures Leads(t, v, false) && |v.net.flights| == 1 && v.net.flights[0].phase.Rejected?
    ensures Lost(v.net, t.net.jar.refresh.value.session)
  {
    LeadsToItself(t, false);
    v := LeadsNext(t, t, false, SignedIn(user, false));
    v := LeadsNext(t, v, false, Issue(false));
    v := LeadsNext(t, v, false, FirstResponse(0, Some(UNAUTHORIZED)));
    v := LeadsNext(t, v, false, Net(ProviderHandles(0)));
  }
}
