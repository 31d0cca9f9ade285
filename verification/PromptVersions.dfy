/** When the version served with a remote template is as recent as its text.
    The published hash covers the text only, so a revalidation vouches for the text and keeps the version held. */
module PromptVersions {
  import opened Options
  import opened PromptMetrics
  import opened PromptResolver
  import opened PromptRuns

  /** A template as the service may publish it for a name. */
  datatype Edition = Edition(name: string, template: Template)

  ghost predicate Publishes(published: iset<Edition>, e: Event) {
    e.EditServer? && e.published.Some? ==> Edition(e.name, e.published.value) in published
  }

  ghost predicate AllPublished(published: iset<Edition>, server: map<string, Template>) {
    forall n :: n in server ==> Edition(n, server[n]) in published
  }

  /** A run in which the service has nothing but the given editions. */
  ghost predicate PublishingRun(cfg: Config, published: iset<Edition>, ws: seq<World>, es: seq<Event>) {
    && IsRun(cfg, ws, es) && AllPublished(published, ws[0].server)
    && forall e :: e in es ==> Publishes(published, e)
  }

  /** The service's condition: for one name it publishes no text under two versions. */
  ghost predicate OneVersionEach(published: iset<Edition>) {
    forall a, b :: a in published && b in published && a.name == b.name && a.template.text == b.template.text ==> a == b
  }

  /** The template served, version included, is one the service has said about the name, recently when the call took its
      answer. */
  ghost predicate VersionRecent(cfg: Config, w: World, call: Call) {
    call.pc.Served? && FromRemote(call.pc.source) ==>
      exists sg :: sg in w.seen && sg.name == NameOf(call, call.pc.second) && sg.template == call.pc.template
                   && sg.at <= call.chosenAt && Recent(cfg, sg, call.chosenAt)
  }

  ghost predicate VersionsRecent(cfg: Config, published: iset<Edition>) {
    forall ws: seq<World>, es: seq<Event> :: PublishingRun(cfg, published, ws, es) ==>
      forall i :: 0 <= i < |ws[|es|].calls| ==> VersionRecent(cfg, ws[|es|], ws[|es|].calls[i])
  }

  // ---------- the condition suffices ----------

  lemma StepPublishes(cfg: Config, published: iset<Edition>, w: World, e: Event)
    requires Enabled(cfg, w, e) && AllPublished(published, w.server) && Publishes(published, e)
    ensures AllPublished(published, Apply(cfg, w, e).server)
  {
  }

  /** All the service ever says is published. */
  lemma {:induction false} SaidIsPublished(cfg: Config, published: iset<Edition>, ws: seq<World>, es: seq<Event>)
    requires PublishingRun(cfg, published, ws, es)
    ensures AllPublished(published, ws[|es|].server)
    ensures forall sg :: sg in ws[|es|].seen ==> Edition(sg.name, sg.template) in published
  {
    if |es| > 0 {
      var k := |es| - 1;
      RunPrefix(cfg, ws, es);
      SaidIsPublished(cfg, published, ws[..k + 1], es[..k]);
      assert es[k] in es;
      StepPublishes(cfg, published, ws[k], es[k]);
      SaidNext(cfg, ws[k], es[k]);
    }
  }

  /** What is said in a step is what the service has then. */
  lemma SaidNext(cfg: Config, w: World, e: Event)
    requires Enabled(cfg, w, e)
    ensures forall sg :: sg in Apply(cfg, w, e).seen && sg !in w.seen ==>
              sg.name in w.server && w.server[sg.name] == sg.template
  {
  }

  lemma OneVersionSuffices(cfg: Config, published: iset<Edition>, ws: seq<World>, es: seq<Event>, i: nat)
    requires PublishingRun(cfg, published, ws, es) && CollisionFree(cfg) && OneVersionEach(published)
    requires i < |ws[|es|].calls|
    ensures VersionRecent(cfg, ws[|es|], ws[|es|].calls[i])
  {
    var call := ws[|es|].calls[i];
    if call.pc.Served? && FromRemote(call.pc.source) {
      SaidIsPublished(cfg, published, ws, es);
      assert OneVersion(ws[|es|].seen);
      BoundedStaleness(cfg, ws, es, i);
    }
  }

  // ---------- without the remote service ----------

  /** The remote path is taken: it is configured, with an API key. */
  predicate RemoteUsed(cfg: Config) {
    cfg.remote && cfg.hasKey
  }

  predicate OffRemote(pc: Pc) {
    match pc
    case Begin => true
    case ReadMemo => true
    case AwaitRow(_) => true
    case WriteMemo(_, source) => !FromRemote(source)
    case Served(_, source, _) => !FromRemote(source)
    case Failed(_) => true
    case _ => false
  }

  lemma StepStaysOffRemote(cfg: Config, w: World, e: Event, i: nat)
    requires Enabled(cfg, w, e) && !RemoteUsed(cfg) && i < |Apply(cfg, w, e).calls|
    requires forall j :: 0 <= j < |w.calls| ==> OffRemote(w.calls[j].pc)
    ensures OffRemote(Apply(cfg, w, e).calls[i].pc)
  {
    if Subject(e) == Some(i) {
      assert OffRemote(w.calls[i].pc);
    } else {
      OtherCallsStay(cfg, w, e, i);
    }
  }

  lemma {:induction false} RunStaysOffRemote(cfg: Config, ws: seq<World>, es: seq<Event>)
    requires IsRun(cfg, ws, es) && !RemoteUsed(cfg)
    ensures forall i :: 0 <= i < |ws[|es|].calls| ==> OffRemote(ws[|es|].calls[i].pc)
  {
    if |es| > 0 {
      var k := |es| - 1;
      RunPrefix(cfg, ws, es);
      RunStaysOffRemote(cfg, ws[..k + 1], es[..k]);
      forall i | 0 <= i < |ws[|es|].calls|
        ensures OffRemote(ws[|es|].calls[i].pc)
      {
        StepStaysOffRemote(cfg, ws[k], es[k], i);
      }
    }
  }

  // ---------- the condition is needed ----------

  /** The service has had the template for the name at clock 0 only. */
  ghost predicate OnlyAtStart(ws: seq<World>, n: string, t: Template) {
    forall at :: WasCurrent(ws, n, t, at) ==> at == 0
  }

  /** A run of the given editions, with the template for the name at clock 0 only, has come to world `w`. */
  ghost predicate Reaches(cfg: Config, published: iset<Edition>, n: string, t: Template, w: World) {
    exists ws, es :: PublishingRun(cfg, published, ws, es) && OnlyAtStart(ws, n, t) && ws[|es|] == w
  }

  lemma ReachesStart(cfg: Config, published: iset<Edition>, n: string, t: Template) returns (w: World)
    requires Edition(n, t) in published
    ensures Reaches(cfg, published, n, t, w) && Initial(w) && w.clock == 0 && w.server == map[n := t]
  {
    w := World(0, map[n := t], map[], Client(map[], map[], ZERO), [], {});
    assert PublishingRun(cfg, published, [w], []) && OnlyAtStart([w], n, t);
  }

  lemma ExtendRun(cfg: Config, published: iset<Edition>, ws: seq<World>, es: seq<Event>, e: Event, w: World)
    requires PublishingRun(cfg, published, ws, es) && Publishes(published, e)
    requires Enabled(cfg, ws[|es|], e) && w == Apply(cfg, ws[|es|], e)
    ensures PublishingRun(cfg, published, ws + [w], es + [e])
  {
    var ws', es' := ws + [w], es + [e];
    forall k | 0 <= k < |es'|
      ensures Enabled(cfg, ws'[k], es'[k]) && ws'[k + 1] == Apply(cfg, ws'[k], es'[k])
    {
      assert ws'[k] == ws[k];
      if k < |es| { assert es'[k] == es[k] && ws'[k + 1] == ws[k + 1]; }
    }
  }

  lemma StillOnlyAtStart(ws: seq<World>, w: World, n: string, t: Template)
    requires OnlyAtStart(ws, n, t) && (n in w.server && w.server[n] == t ==> w.clock == 0)
    ensures OnlyAtStart(ws + [w], n, t)
  {
    forall at | WasCurrent(ws + [w], n, t, at)
      ensures at == 0
    {
      var ws' := ws + [w];
      var j :| 0 <= j < |ws'| && ws'[j].clock == at && n in ws'[j].server && ws'[j].server[n] == t;
      if j < |ws| { assert ws'[j] == ws[j] && WasCurrent(ws, n, t, at); }
    }
  }

  lemma ReachesNext(cfg: Config, published: iset<Edition>, n: string, t: Template, w: World, e: Event)
      returns (w': World)
    requires Reaches(cfg, published, n, t, w) && Enabled(cfg, w, e) && Publishes(published, e)
    requires var v := Apply(cfg, w, e); n in v.server && v.server[n] == t ==> v.clock == 0
    ensures w' == Apply(cfg, w, e) && Reaches(cfg, published, n, t, w')
  {
    w' := Apply(cfg, w, e);
    var ws, es :| PublishingRun(cfg, published, ws, es) && OnlyAtStart(ws, n, t) && ws[|es|] == w;
    ExtendRun(cfg, published, ws, es, e, w');
    StillOnlyAtStart(ws, w', n, t);
    assert (ws + [w'])[|es + [e]|] == w';
  }

  /** What the cache holds of template `t` after a fetch. */
  function Held(cfg: Config, t: Template, expires: Stamp): Entry {
    Entry(t, cfg.hashOf(t.text), expires)
  }

  /** A call for the name, without a fallback, that is at the given point since `at`. */
  function CallAt(n: string, pc: Pc, at: int, reply: Option<Sighting>): Call {
    Call(n, None, pc, at, reply, at)
  }

  /** The template may be the service's for the name in this world. */
  predicate FitsStart(w: World, n: string, t: Template) {
    n in w.server && w.server[n] == t ==> w.clock == 0
  }

  /** A new call gets to its look into the remote cache. */
  lemma ComesToRead(cfg: Config, published: iset<Edition>, n: string, t: Template, w: World) returns (w': World)
    requires RemoteUsed(cfg) && Reaches(cfg, published, n, t, w) && FitsStart(w, n, t)
    ensures Reaches(cfg, published, n, t, w')
    ensures w' == w.(calls := w.calls + [CallAt(n, ReadRemote(false), w.clock, None)])
  {
    w' := ReachesNext(cfg, published, n, t, w, StartCall(n, None));
    w' := ReachesNext(cfg, published, n, t, w', Proceed(|w.calls|));
    assert w'.calls == w.calls + [CallAt(n, ReadRemote(false), w.clock, None)];
  }

  /** An empty cache makes it ask for the template. */
  lemma ComesToFetch(cfg: Config, published: iset<Edition>, n: string, t: Template) returns (w: World)
    requires RemoteUsed(cfg) && Edition(n, t) in published
    ensures Reaches(cfg, published, n, t, w) && w.clock == 0 && w.server == map[n := t] && w.seen == {}
    ensures w.client.remote == map[] && w.calls == [CallAt(n, AwaitFetch(false, 0), 0, None)]
  {
    var w0 := ReachesStart(cfg, published, n, t);
    var w1 := ComesToRead(cfg, published, n, t, w0);
    w := ReachesNext(cfg, published, n, t, w1, Proceed(0));
  }

  /** The service answers the outstanding call. */
  lemma IsAnswered(cfg: Config, published: iset<Edition>, n: string, t: Template, w: World, i: nat, expires: Stamp)
      returns (w': World)
    requires Reaches(cfg, published, n, t, w) && FitsStart(w, n, t) && n in w.server
    requires i < |w.calls| && OnNetwork(w.calls[i].pc) && w.calls[i] == CallAt(n, w.calls[i].pc, w.clock, None)
    ensures Reaches(cfg, published, n, t, w')
    ensures var sg := Sighting(n, w.server[n], w.clock,
                               if w.calls[i].pc.AwaitHash? then Hashed else Published(expires));
            w' == w.(calls := w.calls[i := CallAt(n, w.calls[i].pc, w.clock, Some(sg))], seen := w.seen + {sg})
  {
    w' := ReachesNext(cfg, published, n, t, w, ServiceAnswers(i, expires));
  }

  /** A first call fetches the template at clock 0. */
  lemma FirstFetch(cfg: Config, published: iset<Edition>, n: string, t: Template, expires: Stamp) returns (w: World)
    requires RemoteUsed(cfg) && Edition(n, t) in published
    ensures Reaches(cfg, published, n, t, w) && w.clock == 0 && |w.calls| == 1 && n in w.server
    ensures w.client.remote == map[n := Held(cfg, t, expires)] && w.seen == {Sighting(n, t, 0, Published(expires))}
  {
    var w0 := ComesToFetch(cfg, published, n, t);
    var w1 := IsAnswered(cfg, published, n, t, w0, 0, expires);
    var w2 := ReachesNext(cfg, published, n, t, w1, Deliver(0));
    w := ReachesNext(cfg, published, n, t, w2, Proceed(0));
  }

  /** The service replaces the template, and time passes. */
  lemma ThenReplaced(cfg: Config, published: iset<Edition>, n: string, p: Template, q: Template, late: nat, w: World)
      returns (w': World)
    requires Edition(n, q) in published && p != q
    requires Reaches(cfg, published, n, p, w) && w.clock == 0
    ensures Reaches(cfg, published, n, p, w') && w' == w.(server := w.server[n := q], clock := late)
  {
    var w1 := ReachesNext(cfg, published, n, p, w, EditServer(n, Some(q)));
    w' := ReachesNext(cfg, published, n, p, w1, Tick(late));
  }

  /** A second call finds the entry stale. */
  lemma FindsStale(cfg: Config, published: iset<Edition>, n: string, p: Template, late: nat, w: World)
      returns (w': World)
    requires RemoteUsed(cfg) && Reaches(cfg, published, n, p, w) && FitsStart(w, n, p) && w.clock == late
    requires |w.calls| == 1 && w.client.remote == map[n := Held(cfg, p, Ms(late))]
    ensures Reaches(cfg, published, n, p, w') && |w'.calls| == 2
    ensures w'.calls[1] == CallAt(n, AwaitHash(false, Held(cfg, p, Ms(late))), late, None)
    ensures w'.seen == w.seen && w'.server == w.server && w'.clock == late
  {
    var w1 := ComesToRead(cfg, published, n, p, w);
    w' := ReachesNext(cfg, published, n, p, w1, Proceed(1));
  }

  /** The hash of the new version is the one of the old: the call is served the old version. */
  lemma ThenRevalidated(cfg: Config, published: iset<Edition>, n: string, p: Template, q: Template, late: nat, w: World)
      returns (w': World)
    requires p != q && p.text == q.text && Reaches(cfg, published, n, p, w)
    requires w.clock == late && n in w.server && w.server[n] == q && |w.calls| == 2
    requires w.calls[1] == CallAt(n, AwaitHash(false, Held(cfg, p, Ms(late))), late, None)
    ensures Reaches(cfg, published, n, p, w') && w'.seen == w.seen + {Sighting(n, q, late, Hashed)}
    ensures |w'.calls| == 2 && w'.calls[1] == CallAt(n, Served(p, Revalidated, false), late, None)
  {
    var w1 := IsAnswered(cfg, published, n, p, w, 1, NaN);
    var w2 := ReachesNext(cfg, published, n, p, w1, Deliver(1));
    w' := ReachesNext(cfg, published, n, p, w2, Proceed(1));
  }

  /** One text under two versions: however late, there is a run in which a call is served the version that the service
      has not had since the start. */
  lemma OldVersionServed(cfg: Config, published: iset<Edition>, n: string, p: Template, q: Template, late: nat)
      returns (w: World)
    requires RemoteUsed(cfg) && Edition(n, p) in published && Edition(n, q) in published
    requires p.text == q.text && p != q && late > cfg.timeout
    ensures Reaches(cfg, published, n, p, w) && |w.calls| == 2
    ensures w.calls[1] == CallAt(n, Served(p, Revalidated, false), late, None)
    ensures !VersionRecent(cfg, w, w.calls[1])
  {
    w := FirstFetch(cfg, published, n, p, Ms(late));
    w := ThenReplaced(cfg, published, n, p, q, late, w);
    w := FindsStale(cfg, published, n, p, late, w);
    w := ThenRevalidated(cfg, published, n, p, q, late, w);
    assert w.seen == {Sighting(n, p, 0, Published(Ms(late))), Sighting(n, q, late, Hashed)};
  }

  // ---------- the result ----------

  /** Every version served from the remote path is recent, in all runs, if and only if the service publishes no text
      under two versions for one name, or the remote path is not taken. */
  lemma VersionsRecentIff(cfg: Config, published: iset<Edition>)
    requires CollisionFree(cfg)
    ensures VersionsRecent(cfg, published) <==> OneVersionEach(published) || !RemoteUsed(cfg)
  {
    if OneVersionEach(published) || !RemoteUsed(cfg) {
      forall ws: seq<World>, es: seq<Event>, i | PublishingRun(cfg, published, ws, es) && 0 <= i < |ws[|es|].calls|
        ensures VersionRecent(cfg, ws[|es|], ws[|es|].calls[i])
      {
        if OneVersionEach(published) {
          OneVersionSuffices(cfg, published, ws, es, i);
        } else {
          RunStaysOffRemote(cfg, ws, es);
        }
      }
    } else {
      var a, b :| a in published && b in published && a.name == b.name && a.template.text == b.template.text && a != b;
      var w := OldVersionServed(cfg, published, a.name, a.template, b.template, cfg.timeout + 1);
      var ws, es :| PublishingRun(cfg, published, ws, es) && OnlyAtStart(ws, a.name, a.template) && ws[|es|] == w;
    }
  }
}
