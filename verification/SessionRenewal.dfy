/** Silent session renewal in one browser tab: the error links, the single-flight latch and the terminal redirect.
    Handlers run to completion; everything between them interleaves freely. */
module SessionRenewal {
  import opened Options

  // ---------- what counts as an expired session, and where renewal is off ----------

  datatype Error =
    | GraphQLErrors(codes: seq<Option<string>>)
    | ProtocolErrors
    | OtherError(statusCode: Option<int>)

  predicate IsAuthExpired(e: Error) {
    match e
    case GraphQLErrors(codes) => Some("UNAUTHENTICATED") in codes
    case ProtocolErrors => false
    case OtherError(status) => status == Some(401) || status == Some(403)
  }

  predicate StartsWith(s: string, prefix: string) {
    prefix <= s
  }

  predicate IsAuthRoute(path: string) {
    StartsWith(path, "/login") || StartsWith(path, "/register") || StartsWith(path, "/auth/")
  }

  /** The renewal guard looks at the path, the redirect guard at path and query string; they agree. */
  lemma GuardsAgree(path: string, search: string)
    requires search == "" || search[0] == '?'
    ensures IsAuthRoute(path + search) <==> IsAuthRoute(path)
  {
    QueryAddsNoPrefix(path, search, "/login");
    QueryAddsNoPrefix(path, search, "/register");
    QueryAddsNoPrefix(path, search, "/auth/");
  }

  lemma QueryAddsNoPrefix(path: string, search: string, prefix: string)
    requires (search == "" || search[0] == '?') && '?' !in prefix
    ensures StartsWith(path + search, prefix) <==> StartsWith(path, prefix)
  {
    var whole := path + search;
    assert path == whole[..|path|];
    if search != "" && prefix <= whole {
      assert whole[|path|] == '?';
      assert forall k :: 0 <= k < |prefix| ==> prefix[k] == whole[k];
    }
  }

  // ---------- the state of a tab ----------

  datatype Outcome = Renewed | Expired | Unavailable

  /** A refresh token: the session it belongs to and its place among the tokens issued for that session. */
  datatype Token = Token(session: nat, serial: nat)

  /** One renewal request, from the fetch to the release of the latch. */
  datatype Phase =
    | Requested
    | Granted(token: Token)
    | Rejected
    | Declined
    | Settled(outcome: Outcome)
    | Released(outcome: Outcome)

  /** The browser's cookies: the user named in the access token, until that expires, and the refresh token. */
  datatype Cookies = Cookies(access: Option<string>, refresh: Option<Token>)

  const NO_COOKIES := Cookies(None, None)

  /** A request presents the cookies of the moment it is sent. */
  datatype Flight = Flight(presented: Cookies, phase: Phase)

  datatype OpState =
    | Sent
    | Joined(error: Error)
    | Retrying
    | Delivered
    | Errored(error: Error)
    | Cancelled

  /** An operation; `flight` is the renewal it joined and `renewal` the outcome it was resumed with. */
  datatype Op = Op(
    isLogout: bool,
    state: OpState,
    forwards: nat,
    authRetried: bool,
    skipRedirect: bool,
    flight: Option<nat>,
    renewal: Option<Outcome>)

  predicate Final(s: OpState) {
    s.Delivered? || s.Errored? || s.Cancelled?
  }

  datatype Page = Page(browser: bool, path: string, userKey: bool, logoutInProgress: bool, navigations: nat)

  /** A session at the provider: its newest token is number `issued`; `lost` says that a token issued for it never
      reached the browser. */
  datatype Session = Session(user: string, issued: nat, revoked: bool, lost: bool)

  /** The renewals and their latch; `jar` are the browser's cookies, `sessions` the sessions the provider has
      established, in the order of the sign-ins. */
  datatype Renewals = Renewals(
    flights: seq<Flight>,
    inFlight: Option<nat>,
    jar: Cookies,
    sessions: seq<Session>)

  datatype Tab = Tab(page: Page, ops: seq<Op>, net: Renewals)

  // ---------- the handlers ----------

  /** `triggerAuthExpiredRedirect`. */
  function Redirect(p: Page): Page {
    if p.logoutInProgress || !p.browser || !p.userKey then p
    else if IsAuthRoute(p.path) then p.(userKey := false)
    else p.(logoutInProgress := true, userKey := false, navigations := p.navigations + 1)
  }

  /** What the terminal link does with an error of `op`. */
  function Terminal(p: Page, op: Op, error: Error): Page {
    if op.isLogout || !IsAuthExpired(error) || op.skipRedirect || !p.browser then p else Redirect(p)
  }

  function Set(t: Tab, i: nat, op: Op): Tab
    requires i < |t.ops|
  {
    t.(ops := t.ops[i := op])
  }

  /** An error leaves the renewal link upward: the operation fails and the terminal link sees it. */
  function Surface(t: Tab, i: nat, op: Op, error: Error): Tab
    requires i < |t.ops|
  {
    Set(t, i, op.(state := Errored(error))).(page := Terminal(t.page, op, error))
  }

  /** `refreshSession`: join the outstanding renewal or start one. */
  function Refresh(n: Renewals): (r: (Renewals, nat)) {
    match n.inFlight
    case Some(f) => (n, f)
    case None => (n.(flights := n.flights + [Flight(n.jar, Requested)], inFlight := Some(|n.flights|)), |n.flights|)
  }

  /** Does the renewal link try to renew for this error? */
  predicate Renewable(p: Page, op: Op, error: Error) {
    !op.isLogout && IsAuthExpired(error) && !op.authRetried && p.browser && !IsAuthRoute(p.path)
  }

  /** The first response of an operation, as the renewal link handles it. */
  function OnFirstResponse(t: Tab, i: nat, response: Option<Error>): Tab
    requires i < |t.ops|
  {
    var op := t.ops[i];
    match response
    case None => Set(t, i, op.(state := Delivered))
    case Some(error) =>
      if Renewable(t.page, op, error) then
        var (net, f) := Refresh(t.net);
        Set(t, i, op.(state := Joined(error), flight := Some(f))).(net := net)
      else
        Surface(t, i, op, error)
  }

  /** The renewal an operation waits for has come back. */
  function OnOutcome(t: Tab, i: nat, outcome: Outcome): Tab
    requires i < |t.ops| && t.ops[i].state.Joined?
  {
    var op := t.ops[i];
    var error := op.state.error;
    match outcome
    case Renewed =>
      Set(t, i, op.(state := Retrying, authRetried := true, forwards := op.forwards + 1, renewal := Some(Renewed)))
    case Unavailable => Surface(t, i, op.(skipRedirect := true, renewal := Some(Unavailable)), error)
    case Expired => Surface(t, i, op.(renewal := Some(Expired)), error)
  }

  /** The response of a retry goes to the subscriber directly, past the renewal link. */
  function OnRetryResponse(t: Tab, i: nat, response: Option<Error>): Tab
    requires i < |t.ops|
  {
    match response
    case None => Set(t, i, t.ops[i].(state := Delivered))
    case Some(error) => Surface(t, i, t.ops[i], error)
  }

  // ---------- the transition system ----------

  /** What happens to the cookies, the sessions and the renewal requests.  A sign-out clears the cookies when its answer
      arrives; the revocation at the provider is an event of its own. */
  datatype NetEvent =
    | AccessExpires
    | ClearCookies
    | Revoke(session: nat)
    | ProviderHandles(f: nat)
    | ProviderBusy(f: nat)
    | Answer(f: nat)
    | Drop(f: nat)
    | Release(f: nat)

  datatype Event =
    | Issue(isLogout: bool)
    | Visit(path: string)
    | SignedIn(user: string, renewable: bool)
    | FirstResponse(i: nat, response: Option<Error>)
    | RetryResponse(i: nat, response: Option<Error>)
    | Cancel(i: nat)
    | Resume(i: nat)
    | Net(e: NetEvent)

  predicate UnderWay(p: Phase) {
    p.Granted? || p.Rejected? || p.Declined?
  }

  predicate NetEnabled(n: Renewals, e: NetEvent) {
    match e
    case AccessExpires => true
    case ClearCookies => true
    case Revoke(x) => x < |n.sessions|
    case ProviderHandles(f) => f < |n.flights| && n.flights[f].phase.Requested?
    case ProviderBusy(f) => f < |n.flights| && n.flights[f].phase.Requested?
    case Answer(f) => f < |n.flights| && UnderWay(n.flights[f].phase)
    case Drop(f) => f < |n.flights| && (n.flights[f].phase.Requested? || UnderWay(n.flights[f].phase))
    case Release(f) => f < |n.flights| && n.flights[f].phase.Settled?
  }

  predicate Enabled(t: Tab, e: Event) {
    match e
    case Issue(_) => true
    case Visit(_) => true
    case SignedIn(_, _) => true
    case FirstResponse(i, _) => i < |t.ops| && t.ops[i].state.Sent?
    case RetryResponse(i, _) => i < |t.ops| && t.ops[i].state.Retrying?
    case Cancel(i) => i < |t.ops| && !Final(t.ops[i].state)
    case Resume(i) =>
      && i < |t.ops| && t.ops[i].state.Joined? && t.ops[i].flight.Some?
      && t.ops[i].flight.value < |t.net.flights| && t.net.flights[t.ops[i].flight.value].phase.Released?
    case Net(ne) => NetEnabled(t.net, ne)
  }

  function InPhase(n: Renewals, f: nat, p: Phase): Renewals
    requires f < |n.flights|
  {
    n.(flights := n.flights[f := n.flights[f].(phase := p)])
  }

  function WithSession(n: Renewals, x: nat, session: Session): Renewals
    requires x < |n.sessions|
  {
    n.(sessions := n.sessions[x := session])
  }

  /** The token is the newest one of its session. */
  predicate Newest(n: Renewals, t: Token) {
    t.session < |n.sessions| && t.serial == n.sessions[t.session].issued
  }

  predicate Lost(n: Renewals, x: nat) {
    x < |n.sessions| && n.sessions[x].lost
  }

  predicate Revoked(n: Renewals, x: nat) {
    x < |n.sessions| && n.sessions[x].revoked
  }

  /** The provider accepts the newest token of a session that was not revoked. */
  predicate Accepted(n: Renewals, t: Token) {
    Newest(n, t) && !Revoked(n, t.session)
  }

  /** The access token names another user than the session to be renewed. */
  predicate Mismatch(n: Renewals, c: Cookies) {
    && c.access.Some? && c.refresh.Some? && c.refresh.value.session < |n.sessions|
    && c.access.value != n.sessions[c.refresh.value.session].user
  }

  /** Every token is consumed once, and the next one issued. */
  function Grant(n: Renewals, f: nat, t: Token): Renewals
    requires f < |n.flights| && Newest(n, t)
  {
    var next := Token(t.session, t.serial + 1);
    WithSession(InPhase(n, f, Granted(next)), t.session, n.sessions[t.session].(issued := next.serial))
  }

  /** A renewed session of another user is refused after the fact: its new token is thrown away. */
  function Refuse(n: Renewals, f: nat, t: Token): Renewals
    requires f < |n.flights| && Newest(n, t)
  {
    WithSession(InPhase(n, f, Rejected), t.session, n.sessions[t.session].(issued := t.serial + 1, lost := true))
  }

  /** The renewal endpoint: no token and a token the provider does not accept are rejected, and so is a renewed session
      of another user than the one the access token names. */
  function Handle(n: Renewals, f: nat): Renewals
    requires f < |n.flights|
  {
    var c := n.flights[f].presented;
    if c.refresh.None? || !Accepted(n, c.refresh.value) then InPhase(n, f, Rejected)
    else if Mismatch(n, c) then Refuse(n, f, c.refresh.value)
    else Grant(n, f, c.refresh.value)
  }

  /** An answer does not arrive. */
  function Dropped(n: Renewals, f: nat): Renewals
    requires f < |n.flights|
  {
    var n' := InPhase(n, f, Settled(Unavailable));
    match n.flights[f].phase
    case Granted(token) =>
      if token.session < |n.sessions| then WithSession(n', token.session, n.sessions[token.session].(lost := true))
      else n'
    case _ => n'
  }

  /** The cookies that come with a renewed session. */
  function CookiesFor(n: Renewals, t: Token): Cookies {
    Cookies(if t.session < |n.sessions| then Some(n.sessions[t.session].user) else None, Some(t))
  }

  /** A sign-in establishes a session and sets both cookies, or the access cookie alone where the provider gave no
      refresh token. */
  function SignIn(n: Renewals, user: string, renewable: bool): Renewals {
    var x := |n.sessions|;
    n.(sessions := n.sessions + [Session(user, 0, false, false)],
       jar := Cookies(Some(user), if renewable then Some(Token(x, 0)) else n.jar.refresh))
  }

  function NetApply(n: Renewals, e: NetEvent): Renewals
    requires NetEnabled(n, e)
  {
    match e
    case AccessExpires => n.(jar := n.jar.(access := None))
    case ClearCookies => n.(jar := NO_COOKIES)
    case Revoke(x) => WithSession(n, x, n.sessions[x].(revoked := true))
    case ProviderHandles(f) => Handle(n, f)
    case ProviderBusy(f) => InPhase(n, f, Declined)
    case Answer(f) =>
      (match n.flights[f].phase
       case Granted(token) => InPhase(n, f, Settled(Renewed)).(jar := CookiesFor(n, token))
       case Rejected => InPhase(n, f, Settled(Expired)).(jar := NO_COOKIES)
       case _ => InPhase(n, f, Settled(Unavailable)))
    case Drop(f) => Dropped(n, f)
    case Release(f) => InPhase(n, f, Released(n.flights[f].phase.outcome)).(inFlight := None)
  }

  function Apply(t: Tab, e: Event): Tab
    requires Enabled(t, e)
  {
    match e
    case Issue(isLogout) => t.(ops := t.ops + [Op(isLogout, Sent, 1, false, false, None, None)])
    case Visit(path) => t.(page := t.page.(path := path))
    case SignedIn(user, renewable) => t.(page := t.page.(userKey := true), net := SignIn(t.net, user, renewable))
    case FirstResponse(i, response) => OnFirstResponse(t, i, response)
    case RetryResponse(i, response) => OnRetryResponse(t, i, response)
    case Cancel(i) => Set(t, i, t.ops[i].(state := Cancelled))
    case Resume(i) => OnOutcome(t, i, t.net.flights[t.ops[i].flight.value].phase.outcome)
    case Net(ne) => t.(net := NetApply(t.net, ne))
  }

  predicate Initial(t: Tab) {
    && t.ops == [] && t.net.flights == [] && t.net.inFlight == None
    && !t.page.logoutInProgress && t.page.navigations == 0
    && (t.net.jar.refresh.Some? ==>
          Newest(t.net, t.net.jar.refresh.value) && !Lost(t.net, t.net.jar.refresh.value.session))
  }

  predicate IsPath(ts: seq<Tab>, es: seq<Event>) {
    && |ts| == |es| + 1
    && forall k :: 0 <= k < |es| ==> Enabled(ts[k], es[k]) && ts[k + 1] == Apply(ts[k], es[k])
  }

  predicate IsRun(ts: seq<Tab>, es: seq<Event>) {
    IsPath(ts, es) && Initial(ts[0])
  }

  // ---------- what every step keeps ----------

  /** The latch is held exactly while one renewal is outstanding, and that is the newest one. */
  predicate LatchOk(n: Renewals) {
    && (forall f :: 0 <= f < |n.flights| ==> (n.inFlight == Some(f) <==> !n.flights[f].phase.Released?))
    && (n.inFlight.Some? ==> n.inFlight.value == |n.flights| - 1)
  }

  /** A token the browser holds is the newest of its session until a newer one of that session fails to reach the
      browser, and behind from then on. */
  predicate InCustody(n: Renewals, t: Token) {
    && t.session < |n.sessions| && t.serial <= n.sessions[t.session].issued
    && (Newest(n, t) <==> !Lost(n, t.session))
  }

  predicate JarOk(n: Renewals) {
    n.jar.refresh.Some? ==> InCustody(n, n.jar.refresh.value)
  }

  /** A sign-in has replaced the cookie since it was presented. */
  predicate Replaced(n: Renewals, presented: Option<Token>) {
    && n.jar.refresh.Some? && InCustody(n, n.jar.refresh.value)
    && (presented.Some? ==> presented.value.session < n.jar.refresh.value.session)
  }

  predicate PresentedOk(n: Renewals, presented: Option<Token>) {
    n.jar.refresh == presented || n.jar.refresh == None || Replaced(n, presented)
  }

  /** The token can be renewed some time: no newer one failed to reach the browser, and the session is not revoked. */
  predicate Usable(n: Renewals, t: Option<Token>) {
    t.Some? && t.value.session < |n.sessions| && !Lost(n, t.value.session) && !Revoked(n, t.value.session)
  }

  /** The outstanding renewal: granted, it brings the newest token of its session. */
  predicate OutstandingOk(n: Renewals, flight: Flight) {
    var presented := flight.presented.refresh;
    match flight.phase
    case Requested => (presented.Some? ==> InCustody(n, presented.value)) && PresentedOk(n, presented)
    case Granted(token) =>
      && presented.Some? && token.session == presented.value.session && presented.value.serial < token.serial
      && Newest(n, token) && !Lost(n, token.session) && PresentedOk(n, presented)
    case Rejected => JarOk(n) && !Usable(n, presented)
    case _ => JarOk(n)
  }

  predicate TokensOk(n: Renewals) {
    match n.inFlight
    case None => JarOk(n)
    case Some(f) => f < |n.flights| && OutstandingOk(n, n.flights[f])
  }

  predicate Known(n: Renewals, c: Cookies) {
    c.refresh.Some? ==> c.refresh.value.session < |n.sessions|
  }

  predicate SessionsKnown(n: Renewals) {
    Known(n, n.jar) && forall f :: 0 <= f < |n.flights| ==> Known(n, n.flights[f].presented)
  }

  predicate NetOk(n: Renewals) {
    LatchOk(n) && SessionsKnown(n) && TokensOk(n)
  }

  /** A renewal that has not succeeded; the one whose grant got lost is `Settled(Unavailable)`. */
  predicate NotSuccessful(p: Phase) {
    !p.Granted? && p != Settled(Renewed) && p != Released(Renewed)
  }

  predicate OpOk(n: Renewals, op: Op) {
    && 1 <= op.forwards <= 2
    && (op.flight.Some? ==> op.flight.value < |n.flights|)
    && (op.renewal.Some? ==> op.flight.Some? && n.flights[op.flight.value].phase == Released(op.renewal.value))
    && (op.skipRedirect <==> op.renewal == Some(Unavailable))
    && (op.authRetried <==> op.renewal == Some(Renewed))
    && (op.forwards == 2 <==> op.renewal == Some(Renewed))
    && (op.isLogout ==> op.flight.None?)
    && (op.state.Sent? ==> op.flight.None?)
    && (op.state.Joined? ==> op.flight.Some? && op.renewal.None? && IsAuthExpired(op.state.error))
    && (op.state.Retrying? ==> op.renewal == Some(Renewed))
  }

  predicate NavigationOk(p: Page) {
    p.navigations == if p.logoutInProgress then 1 else 0
  }

  predicate Inv(t: Tab) {
    && NetOk(t.net)
    && (forall i :: 0 <= i < |t.ops| ==> OpOk(t.net, t.ops[i]))
    && NavigationOk(t.page)
  }

  /** Renewals are only added, and a released one keeps its outcome. */
  predicate Grows(n: Renewals, n': Renewals) {
    && |n.flights| <= |n'.flights| && |n.sessions| <= |n'.sessions|
    && forall f :: 0 <= f < |n.flights| && n.flights[f].phase.Released? ==> n'.flights[f] == n.flights[f]
  }

  lemma RefreshKeepsNet(n: Renewals)
    requires NetOk(n)
    ensures var (n', f) := Refresh(n);
            NetOk(n') && Grows(n, n') && n'.inFlight == Some(f) && f < |n'.flights|
  {
  }

  lemma SignInKeepsNet(n: Renewals, user: string, renewable: bool)
    requires NetOk(n)
    ensures var n' := SignIn(n, user, renewable); NetOk(n') && Grows(n, n')
  {
  }

  lemma NetStepKeepsLatch(n: Renewals, e: NetEvent)
    requires LatchOk(n) && NetEnabled(n, e)
    ensures var n' := NetApply(n, e); LatchOk(n') && Grows(n, n')
  {
  }

  lemma NetStepKeepsSessions(n: Renewals, e: NetEvent)
    requires NetOk(n) && NetEnabled(n, e)
    ensures SessionsKnown(NetApply(n, e))
  {
  }

  /** What happens to no renewal. */
  predicate External(e: NetEvent) {
    e.AccessExpires? || e.ClearCookies? || e.Revoke?
  }

  lemma ExternalKeepsTokens(n: Renewals, e: NetEvent)
    requires NetOk(n) && NetEnabled(n, e) && External(e)
    ensures TokensOk(NetApply(n, e))
  {
  }

  lemma HandlingKeepsTokens(n: Renewals, f: nat)
    requires NetOk(n) && NetEnabled(n, ProviderHandles(f))
    ensures TokensOk(NetApply(n, ProviderHandles(f)))
  {
  }

  lemma DropKeepsTokens(n: Renewals, f: nat)
    requires NetOk(n) && NetEnabled(n, Drop(f))
    ensures TokensOk(NetApply(n, Drop(f)))
  {
  }

  lemma AnswerKeepsTokens(n: Renewals, f: nat)
    requires NetOk(n) && NetEnabled(n, Answer(f))
    ensures TokensOk(NetApply(n, Answer(f)))
  {
  }

  lemma NetStepKeepsNet(n: Renewals, e: NetEvent)
    requires NetOk(n) && NetEnabled(n, e)
    ensures NetOk(NetApply(n, e)) && Grows(n, NetApply(n, e))
  {
    NetStepKeepsLatch(n, e);
    NetStepKeepsSessions(n, e);
    match e {
      case ProviderHandles(f) => HandlingKeepsTokens(n, f);
      case Answer(f) => AnswerKeepsTokens(n, f);
      case Drop(f) => DropKeepsTokens(n, f);
      case _ => if External(e) { ExternalKeepsTokens(n, e); }
    }
  }

  /** Only a renewal event, a sign-in and a first failure touch the renewals. */
  lemma NetAfter(t: Tab, e: Event)
    requires Enabled(t, e)
    ensures var n := Apply(t, e).net;
            if e.Net? then n == NetApply(t.net, e.e)
            else if e.SignedIn? then n == SignIn(t.net, e.user, e.renewable)
            else n == t.net || n == Refresh(t.net).0
  {
  }

  lemma StepGrows(t: Tab, e: Event)
    requires Enabled(t, e) && NetOk(t.net)
    ensures var n := Apply(t, e).net; Grows(t.net, n) && NetOk(n)
  {
    NetAfter(t, e);
    if e.Net? {
      NetStepKeepsNet(t.net, e.e);
    } else if e.SignedIn? {
      SignInKeepsNet(t.net, e.user, e.renewable);
    } else {
      RefreshKeepsNet(t.net);
    }
  }

  /** An operation that is not touched stays in order while the renewals grow. */
  lemma UntouchedOp(n: Renewals, n': Renewals, op: Op)
    requires OpOk(n, op) && Grows(n, n')
    ensures OpOk(n', op)
  {
  }

  lemma FirstResponseKeepsOp(t: Tab, i: nat, response: Option<Error>)
    requires Inv(t) && Enabled(t, FirstResponse(i, response))
    ensures var t' := OnFirstResponse(t, i, response); OpOk(t'.net, t'.ops[i])
  {
    assert OpOk(t.net, t.ops[i]);
    RefreshKeepsNet(t.net);
  }

  lemma ResumeKeepsOp(t: Tab, i: nat)
    requires Inv(t) && Enabled(t, Resume(i))
    ensures OpOk(Apply(t, Resume(i)).net, Apply(t, Resume(i)).ops[i])
  {
    assert OpOk(t.net, t.ops[i]);
  }

  lemma RetryKeepsOp(t: Tab, i: nat, response: Option<Error>)
    requires Inv(t) && Enabled(t, RetryResponse(i, response))
    ensures var t' := OnRetryResponse(t, i, response); OpOk(t'.net, t'.ops[i])
  {
    assert OpOk(t.net, t.ops[i]);
  }

  /** The operation an event belongs to. */
  function Subject(e: Event): Option<nat> {
    match e
    case FirstResponse(i, _) => Some(i)
    case RetryResponse(i, _) => Some(i)
    case Cancel(i) => Some(i)
    case Resume(i) => Some(i)
    case _ => None
  }

  /** An event changes no operation but its own, and only `Issue` adds one. */
  lemma OtherOpsStay(t: Tab, e: Event, i: nat)
    requires Enabled(t, e) && i < |Apply(t, e).ops| && Subject(e) != Some(i)
    ensures if i < |t.ops| then Apply(t, e).ops[i] == t.ops[i]
            else e.Issue? && Apply(t, e).ops[i] == Op(e.isLogout, Sent, 1, false, false, None, None)
  {
  }

  lemma SubjectKeepsOp(t: Tab, e: Event, i: nat)
    requires Inv(t) && Enabled(t, e) && Subject(e) == Some(i)
    ensures i < |Apply(t, e).ops| && OpOk(Apply(t, e).net, Apply(t, e).ops[i])
  {
    assert OpOk(t.net, t.ops[i]);
    match e {
      case FirstResponse(_, response) => FirstResponseKeepsOp(t, i, response);
      case RetryResponse(_, response) => RetryKeepsOp(t, i, response);
      case Resume(_) => ResumeKeepsOp(t, i);
      case Cancel(_) =>
    }
  }

  lemma StepKeepsOp(t: Tab, e: Event, i: nat)
    requires Inv(t) && Enabled(t, e) && i < |Apply(t, e).ops|
    ensures OpOk(Apply(t, e).net, Apply(t, e).ops[i])
  {
    if Subject(e) == Some(i) {
      SubjectKeepsOp(t, e, i);
    } else {
      StepGrows(t, e);
      OtherOpsStay(t, e, i);
      if i < |t.ops| { UntouchedOp(t.net, Apply(t, e).net, t.ops[i]); }
    }
  }

  lemma StepKeepsNavigation(t: Tab, e: Event)
    requires NavigationOk(t.page) && Enabled(t, e)
    ensures NavigationOk(Apply(t, e).page)
  {
  }

  lemma StepKeepsInv(t: Tab, e: Event)
    requires Inv(t) && Enabled(t, e)
    ensures Inv(Apply(t, e))
  {
    StepGrows(t, e);
    StepKeepsNavigation(t, e);
    forall i | 0 <= i < |Apply(t, e).ops|
      ensures OpOk(Apply(t, e).net, Apply(t, e).ops[i])
    {
      StepKeepsOp(t, e, i);
    }
  }

  lemma {:induction false} PathKeepsInv(ts: seq<Tab>, es: seq<Event>, k: nat)
    requires IsPath(ts, es) && Inv(ts[0]) && k <= |es|
    ensures Inv(ts[k])
  {
    if k > 0 {
      PathKeepsInv(ts, es, k - 1);
      StepKeepsInv(ts[k - 1], es[k - 1]);
    }
  }

  lemma RunKeepsInv(ts: seq<Tab>, es: seq<Event>, k: nat)
    requires IsRun(ts, es) && k <= |es|
    ensures Inv(ts[k])
  {
    PathKeepsInv(ts, es, k);
  }

  // ---------- redirect safety ----------

  /** The two ways an operation may end the session: its renewal came back expired, or it came back renewed and the
      retry failed auth again. */
  predicate EndsSession(t: Tab, e: Event)
    requires Enabled(t, e)
  {
    || (e.Resume? && t.net.flights[t.ops[e.i].flight.value].phase.outcome == Expired)
    || (e.RetryResponse? && t.ops[e.i].renewal == Some(Renewed) && e.response.Some? && IsAuthExpired(e.response.value))
  }

  /** A step navigates if and only if it ends the session of a signed-in user outside the auth routes, and none has
      navigated before.  `Logout` operations, unavailable renewals and failures on auth routes never do. */
  lemma NavigatesIff(t: Tab, e: Event)
    requires Inv(t) && Enabled(t, e)
    ensures Apply(t, e).page.navigations != t.page.navigations
       <==> EndsSession(t, e) && t.page.browser && t.page.userKey && !IsAuthRoute(t.page.path)
            && !t.page.logoutInProgress
    ensures Apply(t, e).page.navigations != t.page.navigations ==>
              !t.ops[e.i].isLogout && t.ops[e.i].renewal != Some(Unavailable)
  {
    if e.Resume? || e.RetryResponse? || e.FirstResponse? {
      assert OpOk(t.net, t.ops[e.i]);
    }
  }

  /** Step `k` of the run ended the session of a signed-in user outside the auth routes, and none had navigated
      before. */
  predicate EndedAt(ts: seq<Tab>, es: seq<Event>, k: nat)
    requires IsRun(ts, es) && k < |es|
  {
    ts[k].page.navigations == 0 && EndsSession(ts[k], es[k]) && !IsAuthRoute(ts[k].page.path) && ts[k].page.userKey
  }

  lemma NavigatedOnce(ts: seq<Tab>, es: seq<Event>, k: nat)
    requires IsRun(ts, es) && k < |es| && ts[k].page.navigations == 0 && ts[k + 1].page.navigations == 1
    ensures EndedAt(ts, es, k)
  {
    RunKeepsInv(ts, es, k);
    NavigatesIff(ts[k], es[k]);
  }

  lemma AtMostOne(ts: seq<Tab>, es: seq<Event>, k: nat)
    requires IsRun(ts, es) && k <= |es|
    ensures ts[k].page.navigations <= 1
  {
    RunKeepsInv(ts, es, k);
  }

  lemma {:induction false} FirstNavigation(ts: seq<Tab>, es: seq<Event>, n: nat) returns (k: nat)
    requires IsRun(ts, es) && n <= |es| && ts[n].page.navigations == 1
    ensures k < n && EndedAt(ts, es, k)
  {
    k := n - 1;
    AtMostOne(ts, es, k);
    if ts[k].page.navigations == 1 {
      k := FirstNavigation(ts, es, k);
    } else {
      NavigatedOnce(ts, es, k);
    }
  }

  /** Over any run at most one navigation is issued, and it goes back to one step that ended a session. */
  lemma AtMostOneRedirect(ts: seq<Tab>, es: seq<Event>)
    requires IsRun(ts, es)
    ensures ts[|es|].page.navigations <= 1
    ensures ts[|es|].page.navigations == 1 ==> exists k :: 0 <= k < |es| && EndedAt(ts, es, k)
  {
    AtMostOne(ts, es, |es|);
    if ts[|es|].page.navigations == 1 {
      var k := FirstNavigation(ts, es, |es|);
    }
  }

  // ---------- single flight and token rotation ----------

  /** Operations that joined the same renewal are resumed with the same outcome. */
  lemma JoinersAgree(ts: seq<Tab>, es: seq<Event>, i: nat, j: nat)
    requires IsRun(ts, es)
    requires i < |ts[|es|].ops| && j < |ts[|es|].ops|
    requires ts[|es|].ops[i].flight == ts[|es|].ops[j].flight
    requires ts[|es|].ops[i].renewal.Some? && ts[|es|].ops[j].renewal.Some?
    ensures ts[|es|].ops[i].renewal == ts[|es|].ops[j].renewal
  {
    RunKeepsInv(ts, es, |es|);
    assert OpOk(ts[|es|].net, ts[|es|].ops[i]) && OpOk(ts[|es|].net, ts[|es|].ops[j]);
  }

  /** At most one renewal is outstanding.  The token it presents is the newest of its session if and only if none newer
      failed to reach the browser; the endpoint rejects the renewal if and only if it presents no token, or one of a
      session of which a token was lost or which was revoked, or the access token names another user. */
  lemma RenewalsPresentNewestToken(ts: seq<Tab>, es: seq<Event>, f: nat)
    requires IsRun(ts, es) && f < |ts[|es|].net.flights| && !ts[|es|].net.flights[f].phase.Released?
    ensures var n := ts[|es|].net;
            var c := n.flights[f].presented;
            && n.inFlight == Some(f) && (forall g :: 0 <= g < |n.flights| && !n.flights[g].phase.Released? ==> g == f)
            && (n.flights[f].phase.Requested? ==>
                  && (c.refresh.Some? ==> (Newest(n, c.refresh.value) <==> !Lost(n, c.refresh.value.session)))
                  && (Handle(n, f).flights[f].phase.Rejected? <==> !Usable(n, c.refresh) || Mismatch(n, c)))
            && (n.flights[f].phase.Rejected? ==> !Usable(n, c.refresh))
  {
    RunKeepsInv(ts, es, |es|);
  }

  // ---------- every operation ends ----------

  /** Steps of the protocol, as opposed to new work, navigation by the user, sign-in, sign-out and expiry. */
  predicate IsProgress(e: Event) {
    !e.Issue? && !e.Visit? && !e.SignedIn? && !(e.Net? && External(e.e))
  }

  function OpRank(s: OpState): nat {
    match s
    case Sent => 7
    case Joined(_) => 3
    case Retrying => 1
    case _ => 0
  }

  function FlightRank(p: Phase): nat {
    match p
    case Requested => 3
    case Settled(_) => 1
    case Released(_) => 0
    case _ => 2
  }

  function OpsLeft(ops: seq<Op>): nat {
    if ops == [] then 0 else OpsLeft(ops[..|ops| - 1]) + OpRank(ops[|ops| - 1].state)
  }

  function FlightsLeft(flights: seq<Flight>): nat {
    if flights == [] then 0 else FlightsLeft(flights[..|flights| - 1]) + FlightRank(flights[|flights| - 1].phase)
  }

  function Measure(t: Tab): nat {
    OpsLeft(t.ops) + FlightsLeft(t.net.flights)
  }

  lemma {:induction false} OpsLeftUpdate(ops: seq<Op>, i: nat, op: Op)
    requires i < |ops|
    ensures OpsLeft(ops[i := op]) + OpRank(ops[i].state) == OpsLeft(ops) + OpRank(op.state)
  {
    var k := |ops| - 1;
    if i < k {
      assert ops[i := op][..k] == ops[..k][i := op];
      OpsLeftUpdate(ops[..k], i, op);
    } else {
      assert ops[i := op][..k] == ops[..k];
    }
  }

  lemma {:induction false} FlightsLeftUpdate(flights: seq<Flight>, f: nat, flight: Flight)
    requires f < |flights|
    ensures FlightsLeft(flights[f := flight]) + FlightRank(flights[f].phase)
            == FlightsLeft(flights) + FlightRank(flight.phase)
  {
    var k := |flights| - 1;
    if f < k {
      assert flights[f := flight][..k] == flights[..k][f := flight];
      FlightsLeftUpdate(flights[..k], f, flight);
    } else {
      assert flights[f := flight][..k] == flights[..k];
    }
  }

  lemma NetStepDecreases(n: Renewals, e: NetEvent)
    requires NetEnabled(n, e) && !External(e)
    ensures FlightsLeft(NetApply(n, e).flights) < FlightsLeft(n.flights)
  {
    var flight := NetApply(n, e).flights[e.f];
    FlightsLeftUpdate(n.flights, e.f, flight);
    assert NetApply(n, e).flights == n.flights[e.f := flight];
  }

  lemma RefreshCosts(n: Renewals)
    ensures FlightsLeft(Refresh(n).0.flights) <= FlightsLeft(n.flights) + 3
  {
    if n.inFlight.None? {
      assert Refresh(n).0.flights[..|n.flights|] == n.flights;
    }
  }

  /** An operation moves on, and at most one renewal is started for it. */
  lemma OpStepCosts(t: Tab, e: Event)
    requires Enabled(t, e) && IsProgress(e) && !e.Net?
    ensures var t' := Apply(t, e);
            && t'.ops == t.ops[e.i := t'.ops[e.i]]
            && ((t'.net == t.net && OpRank(t'.ops[e.i].state) < OpRank(t.ops[e.i].state))
                || (t'.net == Refresh(t.net).0 && OpRank(t'.ops[e.i].state) + 3 < OpRank(t.ops[e.i].state)))
  {
  }

  lemma ProgressDecreases(t: Tab, e: Event)
    requires Enabled(t, e) && IsProgress(e)
    ensures Measure(Apply(t, e)) < Measure(t)
  {
    if e.Net? {
      NetStepDecreases(t.net, e.e);
    } else {
      OpStepCosts(t, e);
      OpsLeftUpdate(t.ops, e.i, Apply(t, e).ops[e.i]);
      RefreshCosts(t.net);
    }
  }

  /** While an operation has not ended, some protocol step can be taken. */
  lemma NotStuck(t: Tab, i: nat)
    requires Inv(t) && i < |t.ops| && !Final(t.ops[i].state)
    ensures exists e :: IsProgress(e) && !e.Cancel? && Enabled(t, e)
  {
    assert OpOk(t.net, t.ops[i]);
    var e;
    match t.ops[i].state {
      case Sent => e := FirstResponse(i, None);
      case Retrying => e := RetryResponse(i, None);
      case Joined(_) =>
        var f := t.ops[i].flight.value;
        match t.net.flights[f].phase {
          case Released(_) => e := Resume(i);
          case Settled(_) => e := Net(Release(f));
          case Requested => e := Net(Drop(f));
          case _ => e := Net(Answer(f));
        }
    }
    assert IsProgress(e) && !e.Cancel? && Enabled(t, e);
  }

  /** Left to the protocol, every path is at most as long as the measure, and where no step but a cancellation is
      possible any more every operation was delivered, failed or cancelled. */
  lemma {:induction false} EveryOperationEnds(ts: seq<Tab>, es: seq<Event>)
    requires IsPath(ts, es) && Inv(ts[0]) && forall e :: e in es ==> IsProgress(e)
    ensures |es| + Measure(ts[|es|]) <= Measure(ts[0])
    ensures Inv(ts[|es|])
    ensures (forall e :: IsProgress(e) && !e.Cancel? ==> !Enabled(ts[|es|], e)) ==>
              forall i :: 0 <= i < |ts[|es|].ops| ==> Final(ts[|es|].ops[i].state)
  {
    if |es| > 0 {
      var k := |es| - 1;
      EveryOperationEnds(ts[..k + 1], es[..k]);
      assert es[k] in es;
      ProgressDecreases(ts[k], es[k]);
      StepKeepsInv(ts[k], es[k]);
    }
    forall i | 0 <= i < |ts[|es|].ops| && !Final(ts[|es|].ops[i].state)
      ensures exists e :: IsProgress(e) && !e.Cancel? && Enabled(ts[|es|], e)
    {
      NotStuck(ts[|es|], i);
    }
  }

  lemma EndedUntouched(t: Tab, e: Event, i: nat)
    requires Enabled(t, e) && i < |t.ops| && Final(t.ops[i].state)
    ensures i < |Apply(t, e).ops| && Apply(t, e).ops[i] == t.ops[i]
  {
  }

  /** An operation that has ended, in particular a cancelled one, is never forwarded or reported again. */
  lemma {:induction false} EndedStaysEnded(ts: seq<Tab>, es: seq<Event>, i: nat)
    requires IsPath(ts, es) && i < |ts[0].ops| && Final(ts[0].ops[i].state)
    ensures i < |ts[|es|].ops| && ts[|es|].ops[i] == ts[0].ops[i]
  {
    if |es| > 0 {
      var k := |es| - 1;
      EndedStaysEnded(ts[..k + 1], es[..k], i);
      EndedUntouched(ts[k], es[k], i);
    }
  }

  /** Every operation is forwarded at most twice, and twice exactly when its renewal succeeded. */
  lemma ForwardedAtMostTwice(ts: seq<Tab>, es: seq<Event>, i: nat)
    requires IsRun(ts, es) && i < |ts[|es|].ops|
    ensures var op := ts[|es|].ops[i]; op.forwards <= 2 && (op.forwards == 2 <==> op.renewal == Some(Renewed))
  {
    RunKeepsInv(ts, es, |es|);
    assert OpOk(ts[|es|].net, ts[|es|].ops[i]);
  }
}
