/** The query cache of one browser profile and the identity it belongs to: sign-in, sign-out, session expiry, page
    loads, and a persistor that may copy memory to disk between any two steps of a cache teardown. */
module IdentityCache {
  import opened Options

  type Id = string

  /** What `USER_KEY` holds in local storage. */
  datatype Stored = NoUser | Garbled | User(id: Id)

  function OwnerOf(s: Stored): Option<Id> {
    if s.User? then Some(s.id) else None
  }

  /** A query on its way: whose cookies it carries, and when it was sent (a logical time). */
  datatype Request = Request(key: string, owner: Option<Id>, sentAt: nat)

  /** A cached query result: whose it is, and when its query was sent. */
  datatype Item = Item(key: string, owner: Option<Id>, at: nat)

  /** A teardown in progress: its first purge is done; `reset` says that it awaits only its second purge, `wiped` that
      the in-memory reset succeeded. */
  datatype Teardown = Teardown(start: nat, reset: bool, wiped: bool)

  /** `idSince` is when the current identity was stored; every item older than `cleared` was removed by a finished
      teardown. */
  datatype Profile = Profile(
    user: Stored,
    mem: set<Item>,
    disk: set<Item>,
    inFlight: set<Request>,
    pending: seq<Teardown>,
    now: nat,
    idSince: nat,
    cleared: nat)

  datatype Event =
    | Send(key: string)
    | Receive(r: Request)
    | Persist
    | StoreAuth(id: Id)
    | LegacyLogin(id: Id)
    | Logout
    | Expire
    | Corrupt
    | PageLoad
    | ResetDone(k: nat)
    | ResetFails(k: nat)
    | Finish(k: nat)

  predicate Enabled(s: Profile, e: Event) {
    match e
    case Receive(r) => r in s.inFlight
    case Expire => s.user != NoUser
    case ResetDone(k) => k < |s.pending| && !s.pending[k].reset
    case ResetFails(k) => k < |s.pending| && !s.pending[k].reset
    case Finish(k) => k < |s.pending| && s.pending[k].reset
    case _ => true
  }

  /** `clearIdentityScopedCache` up to its first await: the first purge. */
  function BeginTeardown(s: Profile): Profile {
    s.(disk := {}, pending := s.pending + [Teardown(s.now, false, false)])
  }

  function SetUser(s: Profile, user: Stored): Profile {
    if user == s.user then s else s.(user := user, idSince := s.now)
  }

  function Max(a: nat, b: nat): nat {
    if a < b then b else a
  }

  /** A page load and a successful reset drop the queries on their way; nothing else does. */
  function Apply(s: Profile, e: Event): Profile
    requires Enabled(s, e)
  {
    match e
    case Send(key) => s.(inFlight := s.inFlight + {Request(key, OwnerOf(s.user), s.now)}, now := s.now + 1)
    case Receive(r) => s.(mem := s.mem + {Item(r.key, r.owner, r.sentAt)}, inFlight := s.inFlight - {r})
    case Persist => s.(disk := s.mem)
    case StoreAuth(id) =>
      var s' := if OwnerOf(s.user) != Some(id) then BeginTeardown(s) else s;
      SetUser(s', User(id))
    case LegacyLogin(id) => SetUser(s, User(id))
    case Logout => BeginTeardown(SetUser(s, NoUser))
    case Expire => SetUser(s, NoUser).(disk := {})
    case Corrupt => SetUser(s, Garbled)
    case PageLoad =>
      SetUser(s, if s.user.Garbled? then NoUser else s.user).(mem := s.disk, inFlight := {}, pending := [])
    case ResetDone(k) =>
      s.(mem := {}, inFlight := {}, pending := s.pending[k := s.pending[k].(reset := true, wiped := true)])
    case ResetFails(k) => s.(pending := s.pending[k := s.pending[k].(reset := true)])
    case Finish(k) =>
      var t := s.pending[k];
      s.(disk := {}, pending := s.pending[..k] + s.pending[k + 1..],
         cleared := if t.wiped then Max(s.cleared, t.start) else s.cleared)
  }

  /** The cache starts empty, or owned by the stored user. */
  ghost predicate Initial(s: Profile) {
    && s.pending == [] && s.inFlight == {} && s.idSince == 0 && s.cleared == 0
    && forall x :: x in s.mem || x in s.disk ==> x.owner == OwnerOf(s.user) && x.at < s.now
  }

  predicate IsPath(ss: seq<Profile>, es: seq<Event>) {
    && |ss| == |es| + 1
    && forall k :: 0 <= k < |es| ==> Enabled(ss[k], es[k]) && ss[k + 1] == Apply(ss[k], es[k])
  }

  // ---------- a finished teardown ----------

  /** Logical time runs ahead of everything, and what a finished teardown has removed does not come back. */
  ghost predicate StampsOk(s: Profile) {
    && s.idSince <= s.now && s.cleared <= s.now
    && (forall x :: x in s.mem ==> s.cleared <= x.at < s.now)
    && (forall x :: x in s.disk ==> s.cleared <= x.at < s.now)
    && (forall r :: r in s.inFlight ==> s.cleared <= r.sentAt < s.now)
  }

  /** What a teardown in progress has wiped does not come back into memory, nor is it still on its way. */
  ghost predicate TeardownOk(s: Profile, t: Teardown) {
    && t.start <= s.now && (t.wiped ==> t.reset)
    && (t.wiped ==> forall x :: x in s.mem ==> t.start <= x.at)
    && (t.wiped ==> forall r :: r in s.inFlight ==> t.start <= r.sentAt)
  }

  ghost predicate TimesOk(s: Profile) {
    StampsOk(s) && forall k :: 0 <= k < |s.pending| ==> TeardownOk(s, s.pending[k])
  }

  lemma StepKeepsStamps(s: Profile, e: Event)
    requires TimesOk(s) && Enabled(s, e)
    ensures StampsOk(Apply(s, e))
  {
    if e.Finish? { assert TeardownOk(s, s.pending[e.k]); }
  }

  /** A teardown that is not touched stays in order. */
  lemma TeardownStays(s: Profile, e: Event, t: Teardown)
    requires StampsOk(s) && TeardownOk(s, t) && Enabled(s, e)
    ensures e.PageLoad? || TeardownOk(Apply(s, e), t)
  {
  }

  lemma StepKeepsTimes(s: Profile, e: Event)
    requires TimesOk(s) && Enabled(s, e)
    ensures TimesOk(Apply(s, e))
  {
    var s' := Apply(s, e);
    StepKeepsStamps(s, e);
    forall k | 0 <= k < |s'.pending|
      ensures TeardownOk(s', s'.pending[k])
    {
      if k < |s.pending| { TeardownStays(s, e, s.pending[k]); }
      if e.Finish? && k >= e.k {
        assert s'.pending[k] == s.pending[k + 1];
        TeardownStays(s, e, s.pending[k + 1]);
      }
    }
  }

  lemma {:induction false} PathKeepsTimes(ss: seq<Profile>, es: seq<Event>, k: nat)
    requires IsPath(ss, es) && TimesOk(ss[0]) && k <= |es|
    ensures TimesOk(ss[k])
  {
    if k > 0 {
      PathKeepsTimes(ss, es, k - 1);
      StepKeepsTimes(ss[k - 1], es[k - 1]);
    }
  }

  /** After a teardown whose reset succeeded has finished, nothing that was cached when it began is left, in memory or
      on disk, then or ever after; the persistor and everything else may have run in between. */
  lemma TeardownLeavesNothing(ss: seq<Profile>, es: seq<Event>, began: nat, finished: nat, later: nat, x: Item)
    requires IsPath(ss, es) && TimesOk(ss[0])
    requires began <= finished < later <= |es|
    requires es[finished].Finish? && ss[finished].pending[es[finished].k].wiped
    requires ss[finished].pending[es[finished].k].start == ss[began].now
    requires x in ss[began].mem || x in ss[began].disk
    ensures x !in ss[later].mem && x !in ss[later].disk
  {
    PathKeepsTimes(ss, es, began);
    ClearedGrows(ss, es, finished + 1, later);
    PathKeepsTimes(ss, es, later);
  }

  lemma {:induction false} ClearedGrows(ss: seq<Profile>, es: seq<Event>, a: nat, b: nat)
    requires IsPath(ss, es) && a <= b <= |es|
    ensures ss[a].cleared <= ss[b].cleared
    decreases b
  {
    if a < b {
      ClearedGrows(ss, es, a, b - 1);
      ClearedKept(ss[b - 1], es[b - 1]);
    }
  }

  /** Without the second purge the persistor can put the removed items back on disk for good. */
  lemma SecondPurgeIsNeeded(s: Profile, x: Item)
    requires x in s.mem && s.pending == []
    ensures var s1 := Apply(s, Logout);
            var s2 := Apply(s1, Persist);
            var s3 := Apply(s2, ResetDone(0));
            s3.mem == {} && x in s3.disk && x !in Apply(s3, Finish(0)).disk
  {
  }

  // ---------- identity and cache stay aligned ----------

  /** Everything cached, and every query on its way, is the stored user's. */
  ghost predicate Aligned(s: Profile) {
    && (forall x :: x in s.mem || x in s.disk ==> x.owner == OwnerOf(s.user))
    && (forall r :: r in s.inFlight ==> r.owner == OwnerOf(s.user))
  }

  /** Everything asked for since the current identity was stored is its own. */
  ghost predicate RecentOwned(s: Profile) {
    && (forall x :: x in s.mem && s.idSince <= x.at ==> x.owner == OwnerOf(s.user))
    && (forall x :: x in s.disk && s.idSince <= x.at ==> x.owner == OwnerOf(s.user))
    && (forall r :: r in s.inFlight && s.idSince <= r.sentAt ==> r.owner == OwnerOf(s.user))
  }

  /** A teardown in progress that began no earlier than `at`. */
  ghost predicate TearingDownSince(s: Profile, at: nat) {
    exists k :: 0 <= k < |s.pending| && at <= s.pending[k].start
  }

  /** For a signed-in user everything older is gone or about to go. */
  ghost predicate OlderCovered(s: Profile) {
    s.user.User? ==> s.idSince <= s.cleared || TearingDownSince(s, s.idSince)
  }

  ghost predicate ResetsWiped(s: Profile) {
    forall k :: 0 <= k < |s.pending| && s.pending[k].reset ==> s.pending[k].wiped
  }

  ghost predicate OwnersOk(s: Profile) {
    RecentOwned(s) && OlderCovered(s) && ResetsWiped(s)
  }

  /** The three ways around a teardown: a page load that interrupts one, a reset that fails, and a password login,
      which stores a new user without one. */
  predicate Regular(s: Profile, e: Event) {
    && (e.PageLoad? ==> s.pending == [])
    && !e.ResetFails?
    && (e.LegacyLogin? ==> s.user == User(e.id))
  }

  lemma StepKeepsRecent(s: Profile, e: Event)
    requires TimesOk(s) && RecentOwned(s) && Enabled(s, e)
    ensures RecentOwned(Apply(s, e))
  {
  }

  /** Finishing a teardown takes it from the list and moves the others up. */
  lemma Finished(s: Profile, k: nat)
    requires k < |s.pending| && s.pending[k].reset
    ensures var s' := Apply(s, Finish(k));
            && |s'.pending| == |s.pending| - 1
            && forall j :: 0 <= j < |s'.pending| ==> s'.pending[j] == s.pending[if j < k then j else j + 1]
  {
  }

  lemma StepKeepsResets(s: Profile, e: Event)
    requires ResetsWiped(s) && Enabled(s, e) && !e.ResetFails?
    ensures ResetsWiped(Apply(s, e))
  {
    if e.Finish? { Finished(s, e.k); }
  }

  lemma Covers(s: Profile, k: nat, at: nat)
    requires k < |s.pending| && at <= s.pending[k].start
    ensures TearingDownSince(s, at)
  {
  }

  /** Until it finishes, or a page load ends it, a teardown keeps its place and its start. */
  lemma PlaceKept(s: Profile, e: Event, k: nat)
    requires Enabled(s, e) && !e.Finish? && !e.PageLoad? && k < |s.pending|
    ensures k < |Apply(s, e).pending| && Apply(s, e).pending[k].start == s.pending[k].start
  {
  }

  lemma FinishKeepsCover(s: Profile, f: nat, k: nat, at: nat)
    requires ResetsWiped(s) && f < |s.pending| && s.pending[f].reset && k < |s.pending| && at <= s.pending[k].start
    ensures at <= Apply(s, Finish(f)).cleared || TearingDownSince(Apply(s, Finish(f)), at)
  {
    var s' := Apply(s, Finish(f));
    Finished(s, f);
    if k < f {
      Covers(s', k, at);
    } else if k > f {
      Covers(s', k - 1, at);
    }
  }

  /** A teardown that covers older items still does, or has finished and cleared them. */
  lemma CoverSurvives(s: Profile, e: Event, at: nat)
    requires ResetsWiped(s) && Enabled(s, e) && Regular(s, e) && TearingDownSince(s, at)
    ensures at <= Apply(s, e).cleared || TearingDownSince(Apply(s, e), at)
  {
    var k :| 0 <= k < |s.pending| && at <= s.pending[k].start;
    if e.Finish? {
      FinishKeepsCover(s, e.k, k, at);
    } else {
      PlaceKept(s, e, k);
      Covers(Apply(s, e), k, at);
    }
  }

  lemma ClearedKept(s: Profile, e: Event)
    requires Enabled(s, e)
    ensures s.cleared <= Apply(s, e).cleared
  {
  }

  /** A user who is newly stored comes with a teardown. */
  lemma NewUserCovered(s: Profile, e: Event)
    requires Enabled(s, e) && Regular(s, e)
    ensures var s' := Apply(s, e);
            s'.user.User? ==> (s'.user == s.user && s'.idSince == s.idSince) || TearingDownSince(s', s'.idSince)
  {
    var s' := Apply(s, e);
    if e.StoreAuth? && OwnerOf(s.user) != Some(e.id) {
      assert s'.pending[|s.pending|].start == s.now == s'.idSince;
    }
  }

  lemma StepKeepsCovered(s: Profile, e: Event)
    requires OlderCovered(s) && ResetsWiped(s) && Enabled(s, e) && Regular(s, e)
    ensures OlderCovered(Apply(s, e))
  {
    ClearedKept(s, e);
    NewUserCovered(s, e);
    if TearingDownSince(s, s.idSince) { CoverSurvives(s, e, s.idSince); }
  }

  lemma StepKeepsOwners(s: Profile, e: Event)
    requires TimesOk(s) && OwnersOk(s) && Enabled(s, e) && Regular(s, e)
    ensures OwnersOk(Apply(s, e))
  {
    StepKeepsRecent(s, e);
    StepKeepsCovered(s, e);
    StepKeepsResets(s, e);
  }

  lemma {:induction false} PathKeepsOwners(ss: seq<Profile>, es: seq<Event>, k: nat)
    requires IsPath(ss, es) && Initial(ss[0]) && k <= |es|
    requires forall j :: 0 <= j < |es| ==> Regular(ss[j], es[j])
    ensures TimesOk(ss[k]) && OwnersOk(ss[k])
  {
    if k > 0 {
      PathKeepsOwners(ss, es, k - 1);
      StepKeepsTimes(ss[k - 1], es[k - 1]);
      StepKeepsOwners(ss[k - 1], es[k - 1]);
    }
  }

  /** Over every regular run, whenever a user is stored and no teardown is in progress, every cached item, in memory
      and on disk, and every query on its way is that user's, however late an answer arrives. */
  lemma IdentityAndCacheAligned(ss: seq<Profile>, es: seq<Event>, k: nat)
    requires IsPath(ss, es) && Initial(ss[0]) && k <= |es|
    requires forall j :: 0 <= j < |es| ==> Regular(ss[j], es[j])
    requires ss[k].user.User? && ss[k].pending == []
    ensures Aligned(ss[k])
  {
    PathKeepsOwners(ss, es, k);
  }

  /** The two conditions are needed: while a teardown runs, and after an expiry until the page is left, the persistor
      may write another user's item to disk. */
  lemma MisalignedInBetween(s: Profile, x: Item, id: Id)
    requires x in s.mem && s.user.User? && x.owner == OwnerOf(s.user) && s.user.id != id
    ensures var s1 := Apply(Apply(s, StoreAuth(id)), Persist); s1.user == User(id) && x in s1.disk && !Aligned(s1)
    ensures var s2 := Apply(Apply(s, Expire), Persist); s2.user == NoUser && x in s2.disk && !Aligned(s2)
  {
  }

  /** The same user coming back, with or without a page load in between, keeps the cache. */
  lemma ReturningUserKeepsCache(s: Profile, id: Id)
    requires s.user == User(id)
    ensures Apply(s, StoreAuth(id)) == s
    ensures var s' := Apply(Apply(s, PageLoad), StoreAuth(id)); s'.mem == s'.disk == s.disk && s'.pending == []
  {
  }

  /** An interrupted teardown: the persistor runs within it and the page is loaded before it ends. */
  function Interrupted(s: Profile, id: Id): Profile {
    Apply(Apply(Apply(s, StoreAuth(id)), Persist), PageLoad)
  }

  /** A teardown whose reset fails. */
  function Unreset(s: Profile, id: Id): Profile
    requires s.pending == [] && OwnerOf(s.user) != Some(id)
  {
    Apply(Apply(Apply(s, StoreAuth(id)), ResetFails(0)), Finish(0))
  }

  /** From an aligned state in which another user is stored, each way around a teardown keeps the alignment exactly when
      there was nothing of that user for it to leave behind. */
  lemma IrregularStepsAlignedIff(s: Profile, id: Id)
    requires Aligned(s) && s.pending == [] && s.user.User? && s.user.id != id
    ensures Aligned(Interrupted(s, id)) <==> s.mem == {}
    ensures Aligned(Unreset(s, id)) <==> s.mem == {} && s.inFlight == {}
    ensures Aligned(Apply(s, LegacyLogin(id))) <==> s.mem == {} && s.disk == {} && s.inFlight == {}
  {
    assert Interrupted(s, id).mem == s.mem && Interrupted(s, id).disk == s.mem && Interrupted(s, id).inFlight == {};
    assert Unreset(s, id).mem == s.mem && Unreset(s, id).disk == {} && Unreset(s, id).inFlight == s.inFlight;
    LeftBehind(s, s.mem, {}, id);
    LeftBehind(s, s.mem, s.inFlight, id);
    LeftBehind(s, s.mem + s.disk, s.inFlight, id);
  }

  /** What was aligned with the old user is aligned with a new one only if it is nothing. */
  lemma LeftBehind(s: Profile, items: set<Item>, requests: set<Request>, id: Id)
    requires Aligned(s) && s.user.User? && s.user.id != id && items <= s.mem + s.disk && requests <= s.inFlight
    ensures (forall x :: x in items ==> x.owner == Some(id)) && (forall r :: r in requests ==> r.owner == Some(id))
       <==> items == {} && requests == {}
  {
    if items != {} {
      var x :| x in items;
      assert x.owner == OwnerOf(s.user);
    }
    if requests != {} {
      var r :| r in requests;
      assert r.owner == OwnerOf(s.user);
    }
  }

  // ---------- what the cache holds, and who is stored ----------

  /** The persisted cache is purged: at an expiry, and at the beginning and the end of a teardown, which a sign-out and
      a sign-in of another user begin. */
  predicate Purges(s: Profile, e: Event) {
    e.Expire? || e.Logout? || e.Finish? || (e.StoreAuth? && s.user != User(e.id))
  }

  /** From step `k` on, up to `n`, nothing is written to disk and nothing purged. */
  ghost predicate DiskUntouched(ss: seq<Profile>, es: seq<Event>, k: nat, n: nat) {
    forall j :: k <= j < n && j < |es| && j < |ss| ==> !es[j].Persist? && !Purges(ss[j], es[j])
  }

  /** The item was in memory when the persistor ran for the last time, between steps `k` and `n`, and was not purged
      since. */
  ghost predicate Copied(ss: seq<Profile>, es: seq<Event>, k: nat, n: nat, x: Item) {
    exists p: nat ::
      k <= p < n && p < |es| && p < |ss| && es[p].Persist? && x in ss[p].mem && DiskUntouched(ss, es, p + 1, n)
  }

  lemma DiskStep(s: Profile, e: Event, x: Item)
    requires Enabled(s, e)
    ensures x in Apply(s, e).disk <==> if e.Persist? then x in s.mem else x in s.disk && !Purges(s, e)
  {
  }

  lemma UntouchedStep(ss: seq<Profile>, es: seq<Event>, k: nat, n: nat)
    requires k <= n < |es| && n < |ss|
    ensures DiskUntouched(ss, es, k, n + 1) <==> DiskUntouched(ss, es, k, n) && !es[n].Persist? && !Purges(ss[n], es[n])
  {
  }

  lemma CopiedStep(ss: seq<Profile>, es: seq<Event>, k: nat, n: nat, x: Item)
    requires k <= n < |es| && n < |ss|
    ensures Copied(ss, es, k, n + 1, x)
       <==> if es[n].Persist? then x in ss[n].mem else Copied(ss, es, k, n, x) && !Purges(ss[n], es[n])
  {
    if es[n].Persist? && x in ss[n].mem {
      assert DiskUntouched(ss, es, n + 1, n + 1);
    }
    if p: nat :| k <= p < n && p < |es| && p < |ss| && es[p].Persist? && x in ss[p].mem
                 && DiskUntouched(ss, es, p + 1, n) {
      UntouchedStep(ss, es, p + 1, n);
    }
    if p: nat :| k <= p < n + 1 && p < |es| && p < |ss| && es[p].Persist? && x in ss[p].mem
                 && DiskUntouched(ss, es, p + 1, n + 1) && p < n {
      UntouchedStep(ss, es, p + 1, n);
    }
  }

  /** On every path: an item is on disk if and only if the persistor copied it there and nothing purged or overwrote it
      since, or it was there at the start and nothing did. */
  lemma {:induction false} DiskHolds(ss: seq<Profile>, es: seq<Event>, k: nat, n: nat, x: Item)
    requires IsPath(ss, es) && k <= n <= |es|
    ensures x in ss[n].disk <==> Copied(ss, es, k, n, x) || (x in ss[k].disk && DiskUntouched(ss, es, k, n))
    decreases n
  {
    if k < n {
      DiskHolds(ss, es, k, n - 1, x);
      DiskStep(ss[n - 1], es[n - 1], x);
      CopiedStep(ss, es, k, n - 1, x);
      UntouchedStep(ss, es, k, n - 1);
    }
  }

  lemma PageLoadRestores(s: Profile)
    ensures var s' := Apply(s, PageLoad);
            s'.mem == s.disk && s'.disk == s.disk && s'.inFlight == {} && s'.pending == [] && !s'.user.Garbled?
  {
  }

  /** An expiry purges the disk.  The page load that leaves the page then finds, in memory and on disk, exactly what the
      persistor copied out in between for the last time and nothing purged since; no query is on its way. */
  lemma ExpiryLeaves(ss: seq<Profile>, es: seq<Event>, n: nat, x: Item)
    requires IsPath(ss, es) && 0 < n < |es| && es[0].Expire? && es[n].PageLoad?
    ensures ss[1].disk == {} && ss[1].user == NoUser
    ensures x in ss[n + 1].mem <==> Copied(ss, es, 1, n, x)
    ensures x in ss[n + 1].disk <==> Copied(ss, es, 1, n, x)
    ensures ss[n + 1].inFlight == {}
  {
    DiskHolds(ss, es, 1, n, x);
    PageLoadRestores(ss[n]);
  }

  /** A step that happens while the page is being left: no item leaves memory, and nothing is purged. */
  predicate Leaving(s: Profile, e: Event) {
    !Purges(s, e) && !e.PageLoad? && !e.ResetDone?
  }

  lemma {:induction false} KeptOnDisk(ss: seq<Profile>, es: seq<Event>, p: nat, m: nat, x: Item)
    requires IsPath(ss, es) && p < m <= |es| && es[p].Persist? && x in ss[p].mem
    requires forall j :: p <= j < m ==> Leaving(ss[j], es[j])
    ensures x in ss[m].mem && x in ss[m].disk
    decreases m
  {
    if p + 1 < m { KeptOnDisk(ss, es, p, m - 1, x); }
  }

  /** Step `p` of the path copies something to disk. */
  predicate Copies(ss: seq<Profile>, es: seq<Event>, p: nat) {
    p < |es| && p < |ss| && es[p].Persist? && ss[p].mem != {}
  }

  /** While the page is left for the login page nothing else is purged: then nothing is left, in memory, on disk or on
      its way, if and only if the persistor did not run in between with an item in memory. */
  lemma ExpiryLeavesNothingIff(ss: seq<Profile>, es: seq<Event>, n: nat)
    requires IsPath(ss, es) && 0 < n < |es| && es[0].Expire? && es[n].PageLoad?
    requires forall j :: 0 < j < n ==> Leaving(ss[j], es[j])
    ensures ss[n + 1].mem == {} && ss[n + 1].disk == {} && ss[n + 1].inFlight == {}
       <==> forall p: nat :: 0 < p < n ==> !Copies(ss, es, p)
  {
    PageLoadRestores(ss[n]);
    if p: nat :| 0 < p < n && Copies(ss, es, p) {
      var x :| x in ss[p].mem;
      KeptOnDisk(ss, es, p, n, x);
    }
    if ss[n].disk != {} {
      var x :| x in ss[n].disk;
      DiskHolds(ss, es, 1, n, x);
      var p: nat :| 1 <= p < n && p < |es| && p < |ss| && es[p].Persist? && x in ss[p].mem
                    && DiskUntouched(ss, es, p + 1, n);
      assert Copies(ss, es, p);
    }
  }

  /** An answer that arrives is cached, as the result of its query for the identity it was sent with. */
  lemma AnswerIsCached(s: Profile, key: string)
    ensures var r := Request(key, if s.user.User? then Some(s.user.id) else None, s.now);
            var s1 := Apply(s, Send(key));
            && Enabled(s1, Receive(r))
            && var s2 := Apply(s1, Receive(r));
            && s2.mem == s.mem + {Item(key, r.owner, s.now)} && r !in s2.inFlight && s2.disk == s.disk
  {
  }

  /** Who is stored after the events, by the last one that says. */
  function StoredAfter(first: Stored, es: seq<Event>): Stored {
    if es == [] then first
    else
      var before := StoredAfter(first, es[..|es| - 1]);
      match es[|es| - 1]
      case StoreAuth(id) => User(id)
      case LegacyLogin(id) => User(id)
      case Logout => NoUser
      case Expire => NoUser
      case Corrupt => Garbled
      case PageLoad => if before == Garbled then NoUser else before
      case _ => before
  }

  lemma UserStep(s: Profile, e: Event, first: Stored, es: seq<Event>)
    requires Enabled(s, e) && s.user == StoredAfter(first, es)
    ensures Apply(s, e).user == StoredAfter(first, es + [e])
  {
    assert (es + [e])[..|es|] == es;
  }

  /** Over every path the identity stored is the one of the last event that sets it: a sign-in stores its user, a
      sign-out and an expiry none, and a page load removes one that cannot be read. */
  lemma {:induction false} UserFollows(ss: seq<Profile>, es: seq<Event>)
    requires IsPath(ss, es)
    ensures ss[|es|].user == StoredAfter(ss[0].user, es)
  {
    if es != [] {
      var k := |es| - 1;
      UserFollows(ss[..k + 1], es[..k]);
      UserStep(ss[k], es[k], ss[0].user, es[..k]);
      assert es == es[..k] + [es[k]];
    }
  }

  // ---------- the storage keys ----------

  const APOLLO_CACHE_KEY := "apollo-cache-persist-v2"
  const LEGACY_APOLLO_CACHE_KEYS := ["apollo-cache-persist"]

  predicate IsCacheKey(key: string) {
    key == APOLLO_CACHE_KEY || key in LEGACY_APOLLO_CACHE_KEYS
  }

  /** Local storage and the in-memory cache, with the functions of the key module. */
  class CacheHolder {
    var storage: map<string, set<Item>>
    var memory: set<Item>

    constructor (storage: map<string, set<Item>>, memory: set<Item>)
      ensures this.storage == storage && this.memory == memory
    {
      this.storage, this.memory := storage, memory;
    }

    method PurgePersistedCache()
      modifies this`storage
      ensures storage == map key | key in old(storage) && !IsCacheKey(key) :: old(storage)[key]
      ensures "apollo-cache-persist-v2" !in storage && "apollo-cache-persist" !in storage
    {
      storage := storage - {APOLLO_CACHE_KEY};
      for i := 0 to |LEGACY_APOLLO_CACHE_KEYS|
        invariant storage == old(storage) - {APOLLO_CACHE_KEY} - (set key | key in LEGACY_APOLLO_CACHE_KEYS[..i])
      {
        storage := storage - {LEGACY_APOLLO_CACHE_KEYS[i]};
      }
    }

    /** The background persistor at a point where it may run. */
    method Persistor(runs: bool)
      modifies this`storage
      ensures storage == if runs then old(storage)[APOLLO_CACHE_KEY := memory] else old(storage)
    {
      if runs { storage := storage[APOLLO_CACHE_KEY := memory]; }
    }

    /** `clearIdentityScopedCache` with the persistor running, or not, around each of its steps. */
    method ClearIdentityScopedCache(resetSucceeds: bool, early: bool, late: bool)
      modifies this
      ensures storage == map key | key in old(storage) && !IsCacheKey(key) :: old(storage)[key]
      ensures memory == if resetSucceeds then {} else old(memory)
    {
      PurgePersistedCache();
      Persistor(early);
      if resetSucceeds { memory := {}; }
      Persistor(late);
      PurgePersistedCache();
    }
  }
}
