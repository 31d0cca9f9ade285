/** Any number of interleaved `getTemplate` calls against a changing prompt service.
    Steps are the segments of the calls, the service's answers, edits, clock ticks and cache evictions. */
module PromptRuns {
  import opened Options
  import opened PromptMetrics
  import opened PromptResolver

  /** What the service said about a name, and when: the template it published with its expiry, or its hash. */
  datatype Sighting = Sighting(name: string, template: Template, at: int, kind: Kind)
  datatype Kind = Published(expires: Stamp) | Hashed

  /** One call: `sentAt` and `reply` describe its outstanding request; `chosenAt` is when it took its answer. */
  datatype Call = Call(name: string, fallback: Option<string>, pc: Pc, sentAt: int, reply: Option<Sighting>,
                       chosenAt: int)

  datatype World = World(
    clock: int,
    server: map<string, Template>,
    db: map<string, Template>,
    client: Client,
    calls: seq<Call>,
    seen: set<Sighting>)

  datatype Event =
    | Tick(to: int)
    | EditServer(name: string, published: Option<Template>)
    | EditDb(name: string, row: Option<Template>)
    | EvictRemote(name: string)
    | EvictMemo(name: string)
    | StartCall(name: string, fallback: Option<string>)
    | Proceed(i: nat)
    | ServiceAnswers(i: nat, expires: Stamp)
    | Deliver(i: nat)
    | Lose(i: nat, mentions404: bool)
    | Resend(i: nat)
    | RowArrives(i: nat)
    | DbFails(i: nat)

  function NameOf(call: Call, second: bool): string {
    NameUsed(call.name, call.fallback, second)
  }

  predicate OnNetwork(pc: Pc) {
    pc.AwaitHash? || pc.AwaitFetch?
  }

  /** A reply older than the request timeout is aborted and never delivered. */
  predicate Enabled(cfg: Config, w: World, e: Event) {
    match e
    case Tick(to) => w.clock <= to
    case EditServer(_, _) => true
    case EditDb(_, _) => true
    case EvictRemote(_) => true
    case EvictMemo(_) => true
    case StartCall(_, _) => true
    case Proceed(i) => i < |w.calls| && Fits(w.calls[i].pc, Go)
    case ServiceAnswers(i, _) =>
      && i < |w.calls| && OnNetwork(w.calls[i].pc) && w.calls[i].reply.None?
      && NameOf(w.calls[i], w.calls[i].pc.second) in w.server
    case Deliver(i) =>
      && i < |w.calls| && OnNetwork(w.calls[i].pc) && w.calls[i].reply.Some?
      && w.clock <= w.calls[i].sentAt + cfg.timeout
    case Lose(i, _) => i < |w.calls| && OnNetwork(w.calls[i].pc)
    case Resend(i) => i < |w.calls| && w.calls[i].pc.AwaitFetch?
    case RowArrives(i) => i < |w.calls| && w.calls[i].pc.AwaitRow?
    case DbFails(i) => i < |w.calls| && w.calls[i].pc.AwaitRow?
  }

  function Resume(cfg: Config, w: World, i: nat, input: Input): World
    requires i < |w.calls| && Fits(w.calls[i].pc, input)
  {
    var call := w.calls[i];
    var (client', pc') := Segment(cfg, w.client, call.name, call.fallback, call.pc, w.clock, input);
    var storing := call.pc.WriteRefreshed? || call.pc.WriteFetched? || call.pc.WriteMemo?;
    var call' := Call(call.name, call.fallback, pc', w.clock, None, if storing then call.chosenAt else w.clock);
    w.(client := client', calls := w.calls[i := call'])
  }

  function Received(cfg: Config, call: Call): (input: Input)
    requires OnNetwork(call.pc) && call.reply.Some?
  {
    var sg := call.reply.value;
    if call.pc.AwaitHash? then GotHash(cfg.hashOf(sg.template.text))
    else GotTemplate(Entry(sg.template, cfg.hashOf(sg.template.text),
        if sg.kind.Published? then sg.kind.expires else NaN))
  }

  function Edit(m: map<string, Template>, n: string, t: Option<Template>): map<string, Template> {
    if t.Some? then m[n := t.value] else m - {n}
  }

  /** The events with which a call runs its next segment. */
  predicate IsResume(e: Event) {
    e.Proceed? || e.Deliver? || e.Lose? || e.RowArrives? || e.DbFails?
  }

  function InputOf(cfg: Config, w: World, e: Event): (input: Input)
    requires Enabled(cfg, w, e) && IsResume(e)
    ensures Fits(w.calls[e.i].pc, input)
  {
    match e
    case Deliver(i) => Received(cfg, w.calls[i])
    case Lose(_, mentions404) => NetFailed(mentions404)
    case RowArrives(i) => Row(Lookup(w.db, NameOf(w.calls[i], w.calls[i].pc.second)))
    case DbFails(_) => RowFailed
    case _ => Go
  }

  /** What the service says to a waiting call. */
  function SightingFor(w: World, i: nat, expires: Stamp): Sighting
    requires i < |w.calls| && OnNetwork(w.calls[i].pc) && NameOf(w.calls[i], w.calls[i].pc.second) in w.server
  {
    var call := w.calls[i];
    var n := NameOf(call, call.pc.second);
    Sighting(n, w.server[n], w.clock, if call.pc.AwaitHash? then Hashed else Published(expires))
  }

  function Apply(cfg: Config, w: World, e: Event): World
    requires Enabled(cfg, w, e)
  {
    if IsResume(e) then Resume(cfg, w, e.i, InputOf(cfg, w, e))
    else
      match e
      case Tick(to) => w.(clock := to)
      case EditServer(n, t) => w.(server := Edit(w.server, n, t))
      case EditDb(n, t) => w.(db := Edit(w.db, n, t))
      case EvictRemote(n) => w.(client := w.client.(remote := w.client.remote - {n}))
      case EvictMemo(n) => w.(client := w.client.(memo := w.client.memo - {n}))
      case StartCall(n, fallback) => w.(calls := w.calls + [Call(n, fallback, Begin, w.clock, None, w.clock)])
      case ServiceAnswers(i, expires) =>
        var sg := SightingFor(w, i, expires);
        w.(calls := w.calls[i := w.calls[i].(reply := Some(sg))], seen := w.seen + {sg})
      case Resend(i) => w.(calls := w.calls[i := w.calls[i].(reply := None, sentAt := w.clock)])
  }

  predicate Initial(w: World) {
    w.client == Client(map[], map[], ZERO) && w.calls == [] && w.seen == {}
  }

  /** A run: the worlds it passes through and the events between them. */
  predicate IsRun(cfg: Config, ws: seq<World>, es: seq<Event>) {
    && |ws| == |es| + 1
    && Initial(ws[0])
    && forall k :: 0 <= k < |es| ==> Enabled(cfg, ws[k], es[k]) && ws[k + 1] == Apply(cfg, ws[k], es[k])
  }

  lemma RunPrefix(cfg: Config, ws: seq<World>, es: seq<Event>)
    requires IsRun(cfg, ws, es) && |es| > 0
    ensures IsRun(cfg, ws[..|es|], es[..|es| - 1])
  {
  }

  // ---------- bounded staleness ----------

  ghost predicate CollisionFree(cfg: Config) {
    forall x, y :: cfg.hashOf(x) == cfg.hashOf(y) ==> x == y
  }

  /** The sighting vouches for an entry that is treated as fresh before `until`. */
  predicate Covers(cfg: Config, sg: Sighting, until: Stamp) {
    match until
    case NaN => true
    case Ms(t) => if sg.kind.Published? then sg.kind.expires == until else t <= sg.at + cfg.timeout + cfg.ttl
  }

  /** How old an answer may be: one request timeout when it comes straight from the service, else the lifetime the
      service advertised with it, or the local lifetime of a revalidation on top of the request timeout. */
  predicate Recent(cfg: Config, sg: Sighting, now: int) {
    || now <= sg.at + cfg.timeout
    || (sg.kind.Published? && Before(now, sg.kind.expires))
    || (sg.kind.Hashed? && now < sg.at + cfg.timeout + cfg.ttl)
  }

  /** The service has at some time said exactly this template, version included, about the name. */
  ghost predicate Said(seen: set<Sighting>, n: string, t: Template) {
    exists sg :: sg in seen && sg.kind.Published? && sg.name == n && sg.template == t
  }

  ghost predicate EntryOk(cfg: Config, seen: set<Sighting>, n: string, e: Entry) {
    && e.hash == cfg.hashOf(e.template.text) && Said(seen, n, e.template)
    && exists sg :: sg in seen && sg.name == n && sg.template.text == e.template.text && Covers(cfg, sg, e.expires)
  }

  ghost predicate AnswerOk(cfg: Config, seen: set<Sighting>, n: string, t: Template, now: int) {
    && Said(seen, n, t)
    && exists sg :: sg in seen && sg.name == n && sg.template.text == t.text && sg.at <= now && Recent(cfg, sg, now)
  }

  ghost predicate ReplyOk(w: World, call: Call) {
    call.reply.Some? ==>
      var sg := call.reply.value;
      && sg in w.seen && call.sentAt <= sg.at <= w.clock
      && OnNetwork(call.pc) && sg.name == NameOf(call, call.pc.second)
      && (call.pc.AwaitHash? <==> sg.kind.Hashed?)
  }

  ghost predicate CallOk(cfg: Config, w: World, call: Call) {
    && call.sentAt <= w.clock
    && ReplyOk(w, call)
    && match call.pc
       case AwaitHash(second, held) => EntryOk(cfg, w.seen, NameOf(call, second), held)
       case WriteRefreshed(second, entry) =>
         && EntryOk(cfg, w.seen, NameOf(call, second), entry)
         && AnswerOk(cfg, w.seen, NameOf(call, second), entry.template, call.chosenAt)
       case WriteFetched(second, entry) =>
         && EntryOk(cfg, w.seen, NameOf(call, second), entry)
         && AnswerOk(cfg, w.seen, NameOf(call, second), entry.template, call.chosenAt)
       case WriteMemo(_, source) => !FromRemote(source)
       case Served(t, source, second) =>
         FromRemote(source) ==> AnswerOk(cfg, w.seen, NameOf(call, second), t, call.chosenAt)
       case _ => true
  }

  ghost predicate StalenessInv(cfg: Config, w: World) {
    && (forall n :: n in w.client.remote ==> EntryOk(cfg, w.seen, n, w.client.remote[n]))
    && (forall i :: 0 <= i < |w.calls| ==> CallOk(cfg, w, w.calls[i]))
    && (forall sg :: sg in w.seen ==> sg.at <= w.clock)
  }

  lemma SaidGrows(seen: set<Sighting>, more: set<Sighting>, n: string, t: Template)
    requires Said(seen, n, t) && seen <= more
    ensures Said(more, n, t)
  {
    var sg :| sg in seen && sg.kind.Published? && sg.name == n && sg.template == t;
    assert sg in more;
  }

  lemma EntryOkGrows(cfg: Config, seen: set<Sighting>, more: set<Sighting>, n: string, e: Entry)
    requires EntryOk(cfg, seen, n, e) && seen <= more
    ensures EntryOk(cfg, more, n, e)
  {
    SaidGrows(seen, more, n, e.template);
    var sg :| sg in seen && sg.name == n && sg.template.text == e.template.text && Covers(cfg, sg, e.expires);
    assert sg in more;
  }

  lemma AnswerOkGrows(cfg: Config, seen: set<Sighting>, more: set<Sighting>, n: string, t: Template, now: int)
    requires AnswerOk(cfg, seen, n, t, now) && seen <= more
    ensures AnswerOk(cfg, more, n, t, now)
  {
    SaidGrows(seen, more, n, t);
    var sg :| sg in seen && sg.name == n && sg.template.text == t.text && sg.at <= now && Recent(cfg, sg, now);
    assert sg in more;
  }

  /** A call that is not touched stays in order while the clock and the sightings grow. */
  lemma CallOkGrows(cfg: Config, w: World, w': World, call: Call)
    requires CallOk(cfg, w, call) && w.seen <= w'.seen && w.clock <= w'.clock
    ensures CallOk(cfg, w', call)
  {
    match call.pc
    case AwaitHash(second, held) => EntryOkGrows(cfg, w.seen, w'.seen, NameOf(call, second), held);
    case WriteRefreshed(second, entry) =>
      EntryOkGrows(cfg, w.seen, w'.seen, NameOf(call, second), entry);
      AnswerOkGrows(cfg, w.seen, w'.seen, NameOf(call, second), entry.template, call.chosenAt);
    case WriteFetched(second, entry) =>
      EntryOkGrows(cfg, w.seen, w'.seen, NameOf(call, second), entry);
      AnswerOkGrows(cfg, w.seen, w'.seen, NameOf(call, second), entry.template, call.chosenAt);
    case Served(t, source, second) =>
      if FromRemote(source) {
        AnswerOkGrows(cfg, w.seen, w'.seen, NameOf(call, second), t, call.chosenAt);
      }
    case _ =>
  }

  /** A fresh entry may be served: its sighting is recent. */
  lemma FreshEntryIsRecent(cfg: Config, w: World, n: string, e: Entry)
    requires StalenessInv(cfg, w) && EntryOk(cfg, w.seen, n, e) && Before(w.clock, e.expires)
    ensures AnswerOk(cfg, w.seen, n, e.template, w.clock)
  {
    var sg :| sg in w.seen && sg.name == n && sg.template.text == e.template.text && Covers(cfg, sg, e.expires);
    assert sg.at <= w.clock && Recent(cfg, sg, w.clock);
  }

  /** A delivered hash that equals the held one vouches for the held text as of the moment the service answered. */
  lemma DeliveredHash(cfg: Config, w: World, i: nat)
    requires StalenessInv(cfg, w) && CollisionFree(cfg)
    requires Enabled(cfg, w, Deliver(i)) && w.calls[i].pc.AwaitHash?
    ensures var w' := Apply(cfg, w, Deliver(i)); CallOk(cfg, w', w'.calls[i])
  {
    var call := w.calls[i];
    assert CallOk(cfg, w, call);
    var sg := call.reply.value;
    var held := call.pc.held;
    if cfg.hashOf(sg.template.text) == held.hash {
      assert sg.template.text == held.template.text;
      var entry := held.(expires := Ms(w.clock + cfg.ttl));
      assert Covers(cfg, sg, entry.expires);
      assert EntryOk(cfg, w.seen, NameOf(call, call.pc.second), entry);
      assert Recent(cfg, sg, w.clock);
      assert AnswerOk(cfg, w.seen, NameOf(call, call.pc.second), entry.template, w.clock);
    }
  }

  lemma DeliveredTemplate(cfg: Config, w: World, i: nat)
    requires StalenessInv(cfg, w)
    requires Enabled(cfg, w, Deliver(i)) && w.calls[i].pc.AwaitFetch?
    ensures var w' := Apply(cfg, w, Deliver(i)); CallOk(cfg, w', w'.calls[i])
  {
    var call := w.calls[i];
    assert CallOk(cfg, w, call);
    var sg := call.reply.value;
    var entry := Received(cfg, call).entry;
    assert Covers(cfg, sg, entry.expires) && Recent(cfg, sg, w.clock);
    assert Said(w.seen, NameOf(call, call.pc.second), entry.template);
    assert EntryOk(cfg, w.seen, NameOf(call, call.pc.second), entry);
    assert AnswerOk(cfg, w.seen, NameOf(call, call.pc.second), entry.template, w.clock);
  }

  /** Time and sightings only grow, and a segment changes neither. */
  lemma WorldGrows(cfg: Config, w: World, e: Event)
    requires Enabled(cfg, w, e)
    ensures var w' := Apply(cfg, w, e);
            w.seen <= w'.seen && w.clock <= w'.clock && (IsResume(e) ==> w'.seen == w.seen && w'.clock == w.clock)
  {
  }

  /** Only a writing segment puts an entry into the remote cache: the one the call has held since its await. */
  lemma RemoteAfter(cfg: Config, w: World, e: Event, n: string)
    requires Enabled(cfg, w, e) && n in Apply(cfg, w, e).client.remote
    ensures var entry := Apply(cfg, w, e).client.remote[n];
            || (n in w.client.remote && w.client.remote[n] == entry)
            || (e.Proceed? && (w.calls[e.i].pc.WriteRefreshed? || w.calls[e.i].pc.WriteFetched?)
                && n == NameOf(w.calls[e.i], w.calls[e.i].pc.second) && entry == w.calls[e.i].pc.entry)
  {
  }

  /** What a call writes into the remote cache after its await is vouched for. */
  lemma ProceedEntries(cfg: Config, w: World, e: Event, n: string)
    requires StalenessInv(cfg, w) && Enabled(cfg, w, e) && n in Apply(cfg, w, e).client.remote
    ensures EntryOk(cfg, w.seen, n, Apply(cfg, w, e).client.remote[n])
  {
    RemoteAfter(cfg, w, e, n);
    if e.Proceed? { assert CallOk(cfg, w, w.calls[e.i]); }
  }

  lemma ReadingCall(cfg: Config, w: World, i: nat)
    requires StalenessInv(cfg, w) && Enabled(cfg, w, Proceed(i)) && w.calls[i].pc.ReadRemote?
    ensures var w' := Resume(cfg, w, i, Go); CallOk(cfg, w', w'.calls[i])
  {
    var call := w.calls[i];
    var n := NameOf(call, call.pc.second);
    if n in w.client.remote && Before(w.clock, w.client.remote[n].expires) {
      FreshEntryIsRecent(cfg, w, n, w.client.remote[n]);
    }
  }

  lemma WritingCall(cfg: Config, w: World, i: nat)
    requires i < |w.calls| && CallOk(cfg, w, w.calls[i]) && Enabled(cfg, w, Proceed(i)) && !w.calls[i].pc.ReadRemote?
    ensures var w' := Resume(cfg, w, i, Go); CallOk(cfg, w', w'.calls[i])
  {
  }

  lemma FailedCall(cfg: Config, w: World, i: nat, input: Input)
    requires i < |w.calls| && CallOk(cfg, w, w.calls[i]) && Fits(w.calls[i].pc, input)
    requires input.NetFailed? || input.Row? || input.RowFailed?
    ensures var w' := Resume(cfg, w, i, input); CallOk(cfg, w', w'.calls[i])
  {
  }

  lemma ResumeKeepsCall(cfg: Config, w: World, e: Event)
    requires StalenessInv(cfg, w) && Enabled(cfg, w, e) && IsResume(e) && CollisionFree(cfg)
    ensures var w' := Resume(cfg, w, e.i, InputOf(cfg, w, e)); CallOk(cfg, w', w'.calls[e.i])
  {
    var i := e.i;
    assert CallOk(cfg, w, w.calls[i]);
    if e.Proceed? {
      if w.calls[i].pc.ReadRemote? { ReadingCall(cfg, w, i); } else { WritingCall(cfg, w, i); }
    } else if e.Deliver? {
      if w.calls[i].pc.AwaitHash? { DeliveredHash(cfg, w, i); } else { DeliveredTemplate(cfg, w, i); }
    } else {
      FailedCall(cfg, w, i, InputOf(cfg, w, e));
    }
  }

  lemma AnsweredCall(cfg: Config, w: World, i: nat, expires: Stamp)
    requires StalenessInv(cfg, w) && Enabled(cfg, w, ServiceAnswers(i, expires))
    ensures var w' := Apply(cfg, w, ServiceAnswers(i, expires)); CallOk(cfg, w', w'.calls[i])
  {
    assert CallOk(cfg, w, w.calls[i]);
    CallOkGrows(cfg, w, Apply(cfg, w, ServiceAnswers(i, expires)), w.calls[i]);
  }

  /** The call an event is about. */
  function Subject(e: Event): Option<nat> {
    if IsResume(e) || e.ServiceAnswers? || e.Resend? then Some(e.i) else None
  }

  /** An event changes no call but its own, and only `StartCall` adds one. */
  lemma OtherCallsStay(cfg: Config, w: World, e: Event, j: nat)
    requires Enabled(cfg, w, e) && j < |Apply(cfg, w, e).calls| && Subject(e) != Some(j)
    ensures if j < |w.calls| then Apply(cfg, w, e).calls[j] == w.calls[j]
            else e.StartCall? && Apply(cfg, w, e).calls[j] == Call(e.name, e.fallback, Begin, w.clock, None, w.clock)
  {
  }

  lemma StepKeepsCall(cfg: Config, w: World, e: Event, j: nat)
    requires StalenessInv(cfg, w) && Enabled(cfg, w, e) && CollisionFree(cfg)
    requires j < |Apply(cfg, w, e).calls|
    ensures var w' := Apply(cfg, w, e); CallOk(cfg, w', w'.calls[j])
  {
    WorldGrows(cfg, w, e);
    if Subject(e) == Some(j) {
      if IsResume(e) {
        ResumeKeepsCall(cfg, w, e);
      } else if e.ServiceAnswers? {
        AnsweredCall(cfg, w, j, e.expires);
      } else {
        assert CallOk(cfg, w, w.calls[j]);
      }
    } else {
      OtherCallsStay(cfg, w, e, j);
      if j < |w.calls| {
        assert CallOk(cfg, w, w.calls[j]);
        CallOkGrows(cfg, w, Apply(cfg, w, e), w.calls[j]);
      }
    }
  }

  lemma StepKeepsSeen(cfg: Config, w: World, e: Event, sg: Sighting)
    requires StalenessInv(cfg, w) && Enabled(cfg, w, e) && sg in Apply(cfg, w, e).seen
    ensures sg.at <= Apply(cfg, w, e).clock
  {
  }

  lemma StepKeepsStaleness(cfg: Config, w: World, e: Event)
    requires StalenessInv(cfg, w) && Enabled(cfg, w, e) && CollisionFree(cfg)
    ensures StalenessInv(cfg, Apply(cfg, w, e))
  {
    var w' := Apply(cfg, w, e);
    WorldGrows(cfg, w, e);
    forall n | n in w'.client.remote
      ensures EntryOk(cfg, w'.seen, n, w'.client.remote[n])
    {
      ProceedEntries(cfg, w, e, n);
      EntryOkGrows(cfg, w.seen, w'.seen, n, w'.client.remote[n]);
    }
    forall j | 0 <= j < |w'.calls|
      ensures CallOk(cfg, w', w'.calls[j])
    {
      StepKeepsCall(cfg, w, e, j);
    }
    forall sg | sg in w'.seen
      ensures sg.at <= w'.clock
    {
      StepKeepsSeen(cfg, w, e, sg);
    }
  }

  lemma {:induction false} RunKeepsStaleness(cfg: Config, ws: seq<World>, es: seq<Event>)
    requires IsRun(cfg, ws, es) && CollisionFree(cfg)
    ensures StalenessInv(cfg, ws[|es|])
  {
    if |es| > 0 {
      RunPrefix(cfg, ws, es);
      RunKeepsStaleness(cfg, ws[..|es|], es[..|es| - 1]);
      StepKeepsStaleness(cfg, ws[|es| - 1], es[|es| - 1]);
    }
  }

  /** The service published `t` for `n` at time `at`, in some world of the run. */
  ghost predicate WasCurrent(ws: seq<World>, n: string, t: Template, at: int) {
    exists j :: 0 <= j < |ws| && ws[j].clock == at && n in ws[j].server && ws[j].server[n] == t
  }

  lemma {:induction false} SightingsAreReal(cfg: Config, ws: seq<World>, es: seq<Event>, sg: Sighting)
    requires IsRun(cfg, ws, es) && sg in ws[|es|].seen
    ensures WasCurrent(ws, sg.name, sg.template, sg.at)
  {
    if |es| > 0 {
      var k := |es| - 1;
      RunPrefix(cfg, ws, es);
      if sg in ws[k].seen {
        SightingsAreReal(cfg, ws[..k + 1], es[..k], sg);
        var j :| 0 <= j < |ws[..k + 1]| && ws[..k + 1][j].clock == sg.at
              && sg.name in ws[..k + 1][j].server && ws[..k + 1][j].server[sg.name] == sg.template;
        assert ws[j] == ws[..k + 1][j];
      } else {
        assert es[k].ServiceAnswers?;
        assert ws[k].clock == sg.at && sg.name in ws[k].server && ws[k].server[sg.name] == sg.template;
      }
    }
  }

  /** The service has said no text under two versions for one name. */
  ghost predicate OneVersion(seen: set<Sighting>) {
    forall a, b :: a in seen && b in seen && a.name == b.name && a.template.text == b.template.text ==>
      a.template == b.template
  }

  /** Every text served from the remote path was the service's current text for that name at some instant of the
      run, and that instant is recent when the call takes its answer.  The version served with it was published for the
      name at some instant, and at this one if the service has said no text under two versions. */
  lemma BoundedStaleness(cfg: Config, ws: seq<World>, es: seq<Event>, i: nat)
    requires IsRun(cfg, ws, es) && CollisionFree(cfg)
    requires i < |ws[|es|].calls| && ws[|es|].calls[i].pc.Served? && FromRemote(ws[|es|].calls[i].pc.source)
    ensures var call := ws[|es|].calls[i];
            exists sg: Sighting ::
              && sg.name == NameOf(call, call.pc.second) && sg.template.text == call.pc.template.text
              && WasCurrent(ws, sg.name, sg.template, sg.at)
              && sg.at <= call.chosenAt && Recent(cfg, sg, call.chosenAt)
              && sg in ws[|es|].seen && (OneVersion(ws[|es|].seen) ==> sg.template == call.pc.template)
    ensures var call := ws[|es|].calls[i];
            exists at :: WasCurrent(ws, NameOf(call, call.pc.second), call.pc.template, at)
  {
    RunKeepsStaleness(cfg, ws, es);
    var w := ws[|es|];
    var call := w.calls[i];
    assert CallOk(cfg, w, call);
    var sg :| sg in w.seen && sg.name == NameOf(call, call.pc.second) && sg.template.text == call.pc.template.text
           && sg.at <= call.chosenAt && Recent(cfg, sg, call.chosenAt);
    var said :| said in w.seen && said.kind.Published? && said.name == NameOf(call, call.pc.second)
             && said.template == call.pc.template;
    SightingsAreReal(cfg, ws, es, sg);
    SightingsAreReal(cfg, ws, es, said);
  }

  function Max(a: int, b: int): int {
    if a < b then b else a
  }

  /** With advertised lifetimes of at most `life`, an answer that does not come straight from the service is younger
      than the larger of `life` and the local lifetime plus one request timeout.  `timeout == 0` is the case of
      instantaneous requests. */
  lemma StalenessBound(cfg: Config, ws: seq<World>, es: seq<Event>, i: nat, life: int)
    requires IsRun(cfg, ws, es) && CollisionFree(cfg)
    requires forall sg :: sg in ws[|es|].seen && sg.kind.Published? && sg.kind.expires.Ms? ==>
               sg.kind.expires.at <= sg.at + life
    requires i < |ws[|es|].calls| && ws[|es|].calls[i].pc.Served? && FromRemote(ws[|es|].calls[i].pc.source)
    ensures var call := ws[|es|].calls[i];
            exists t: Template, at: int ::
              && t.text == call.pc.template.text && (OneVersion(ws[|es|].seen) ==> t == call.pc.template)
              && WasCurrent(ws, NameOf(call, call.pc.second), t, at)
              && 0 <= call.chosenAt - at
              && (call.chosenAt - at <= cfg.timeout || call.chosenAt - at < Max(life, cfg.timeout + cfg.ttl))
  {
    BoundedStaleness(cfg, ws, es, i);
    var call := ws[|es|].calls[i];
    var sg: Sighting :|
      && sg.name == NameOf(call, call.pc.second) && sg.template.text == call.pc.template.text
      && WasCurrent(ws, sg.name, sg.template, sg.at)
      && sg.at <= call.chosenAt && Recent(cfg, sg, call.chosenAt)
      && sg in ws[|es|].seen && (OneVersion(ws[|es|].seen) ==> sg.template == call.pc.template);
    assert sg.template.text == call.pc.template.text
           && WasCurrent(ws, NameOf(call, call.pc.second), sg.template, sg.at);
  }
}
