/** Template resolution: the remote cache, the remote service, the database chain, the hardcoded templates.
    A `getTemplate` call is an asynchronous function.  `Segment` is the code it runs between two awaits;
    `Drive` runs one call to its end, and the class below is the nested try/catch form of the same code. */
module PromptResolver {
  import opened Options
  import opened PromptMetrics

  datatype Template = Template(text: string, version: nat)

  /** A JavaScript time value; an unparsable date is NaN and never lies in the future. */
  datatype Stamp = NaN | Ms(at: int)

  predicate Before(now: int, s: Stamp) {
    s.Ms? && now < s.at
  }

  /** A remote-cache entry. */
  datatype Entry = Entry(template: Template, hash: string, expires: Stamp)

  /** The service's settings, the hardcoded templates, and the hash the prompt service publishes for a text. */
  datatype Config = Config(
    remote: bool,
    hasKey: bool,
    ttl: int,
    timeout: nat,
    hardcoded: map<string, Template>,
    hashOf: string -> string)

  datatype Client = Client(remote: map<string, Entry>, memo: map<string, Template>, counters: Counters)

  datatype Source = FreshEntry | Revalidated | Fetched | Memo | Database | Hardcoded

  predicate FromRemote(s: Source) {
    s.FreshEntry? || s.Revalidated? || s.Fetched?
  }

  datatype Failure = NoApiKey | DbDown | NotFound

  /** Where a call stands.  `second` says that the call works on its fallback name. */
  datatype Pc =
    | Begin
    | ReadRemote(second: bool)
    | AwaitHash(second: bool, held: Entry)
    | WriteRefreshed(second: bool, entry: Entry)
    | AwaitFetch(second: bool, startedAt: int)
    | WriteFetched(second: bool, entry: Entry)
    | ReadMemo
    | AwaitRow(second: bool)
    | WriteMemo(template: Template, source: Source)
    | Served(template: Template, source: Source, second: bool)
    | Failed(why: Failure)

  predicate Final(pc: Pc) {
    pc.Served? || pc.Failed?
  }

  /** What a segment is resumed with. */
  datatype Input =
    | Go
    | GotHash(hash: string)
    | GotTemplate(entry: Entry)
    | NetFailed(mentions404: bool)
    | Row(row: Option<Template>)
    | RowFailed

  /** An empty fallback name is falsy, hence no fallback. */
  predicate Usable(fallback: Option<string>) {
    fallback.Some? && fallback.value != ""
  }

  function NameUsed(name: string, fallback: Option<string>, second: bool): string {
    if second && fallback.Some? then fallback.value else name
  }

  predicate Fits(pc: Pc, input: Input) {
    match pc
    case AwaitHash(_, _) => input.GotHash? || input.NetFailed?
    case AwaitFetch(_, _) => input.GotTemplate? || input.NetFailed?
    case AwaitRow(_) => input.Row? || input.RowFailed?
    case Served(_, _, _) => false
    case Failed(_) => false
    case _ => input.Go?
  }

  function HardcodedFor(cfg: Config, name: string, fallback: Option<string>): Option<Template> {
    if name in cfg.hardcoded then Some(cfg.hardcoded[name])
    else if Usable(fallback) then Lookup(cfg.hardcoded, fallback.value)
    else None
  }

  /** Where a failed remote attempt continues: the fallback name after a 404, otherwise the database. */
  function AfterRemoteFailure(fallback: Option<string>, second: bool, mentions404: bool): Pc {
    if !second && Usable(fallback) && mentions404 then ReadRemote(true) else ReadMemo
  }

  function Segment(cfg: Config, c: Client, name: string, fallback: Option<string>, pc: Pc, now: int, input: Input):
      (Client, Pc)
    requires Fits(pc, input)
  {
    match pc
    case Begin =>
      (c, if !cfg.remote then ReadMemo else if cfg.hasKey then ReadRemote(false) else Failed(NoApiKey))
    case ReadRemote(second) =>
      var n := NameUsed(name, fallback, second);
      if n !in c.remote then
        (c, AwaitFetch(second, now))
      else if Before(now, c.remote[n].expires) then
        (c.(counters := TemplateCacheHit(c.counters)), Served(c.remote[n].template, FreshEntry, second))
      else
        (c, AwaitHash(second, c.remote[n]))
    case AwaitHash(second, held) =>
      if input.GotHash? && input.hash == held.hash then
        (c, WriteRefreshed(second, held.(expires := Ms(now + cfg.ttl))))
      else
        (c, AwaitFetch(second, now))
    case WriteRefreshed(second, entry) =>
      (c.(remote := c.remote[NameUsed(name, fallback, second) := entry], counters := TemplateCacheHit(c.counters)),
       Served(entry.template, Revalidated, second))
    case AwaitFetch(second, startedAt) =>
      if input.GotTemplate? then
        (c.(counters := RemoteCall(c.counters, now - startedAt)), WriteFetched(second, input.entry))
      else
        (c, AfterRemoteFailure(fallback, second, input.mentions404))
    case WriteFetched(second, entry) =>
      (c.(remote := c.remote[NameUsed(name, fallback, second) := entry]), Served(entry.template, Fetched, second))
    case ReadMemo =>
      if name in c.memo then
        (c.(counters := CacheHit(c.counters)), Served(c.memo[name], Memo, false))
      else
        (c, AwaitRow(false))
    case AwaitRow(second) =>
      if input.RowFailed? then (c, Failed(DbDown))
      else if input.row.Some? then
        (c.(counters := DbFallback(c.counters)), WriteMemo(input.row.value, Database))
      else if !second && Usable(fallback) then (c, AwaitRow(true))
      else
        var h := HardcodedFor(cfg, name, fallback);
        if h.Some? then
          (c.(counters := HardcodedFallback(c.counters)), WriteMemo(h.value, Hardcoded))
        else
          (c, Failed(NotFound))
    case WriteMemo(template, source) =>
      (c.(memo := c.memo[name := template]), Served(template, source, false))
  }

  /** The answers the environment gives to one call, for its own name and for its fallback name. */
  datatype Script = Script(hash: PerName, fetch: PerName, row: PerName)
  datatype PerName = PerName(first: Input, second: Input)

  predicate ScriptOk(w: Script) {
    && Fits(AwaitRow(false), w.row.first) && Fits(AwaitRow(true), w.row.second)
    && (w.hash.first.GotHash? || w.hash.first.NetFailed?) && (w.hash.second.GotHash? || w.hash.second.NetFailed?)
    && Fits(AwaitFetch(false, 0), w.fetch.first) && Fits(AwaitFetch(true, 0), w.fetch.second)
  }

  function Pick(p: PerName, second: bool): Input {
    if second then p.second else p.first
  }

  function Answer(w: Script, pc: Pc): (input: Input)
    requires ScriptOk(w) && !Final(pc)
    ensures Fits(pc, input)
  {
    match pc
    case AwaitHash(second, _) => Pick(w.hash, second)
    case AwaitFetch(second, _) => Pick(w.fetch, second)
    case AwaitRow(second) => Pick(w.row, second)
    case _ => Go
  }

  /** Bounds the segments a call still has to run. */
  function Rank(pc: Pc): nat {
    match pc
    case Begin => 13
    case ReadRemote(second) => if second then 8 else 12
    case AwaitHash(second, _) => if second then 7 else 11
    case AwaitFetch(second, _) => if second then 6 else 10
    case WriteRefreshed(_, _) => 1
    case WriteFetched(_, _) => 1
    case ReadMemo => 5
    case AwaitRow(second) => if second then 3 else 4
    case WriteMemo(_, _) => 1
    case Served(_, _, _) => 0
    case Failed(_) => 0
  }

  lemma SegmentDecreases(cfg: Config, c: Client, name: string, fallback: Option<string>, pc: Pc, now: int, input: Input)
    requires Fits(pc, input)
    ensures Rank(Segment(cfg, c, name, fallback, pc, now, input).1) < Rank(pc)
  {
  }

  /** Runs a call from `pc` to its end, alone and at one instant. */
  function Drive(cfg: Config, c: Client, name: string, fallback: Option<string>, pc: Pc, now: int, w: Script):
      (r: (Client, Pc))
    requires ScriptOk(w)
    ensures Final(r.1)
    decreases Rank(pc)
  {
    if Final(pc) then (c, pc)
    else
      SegmentDecreases(cfg, c, name, fallback, pc, now, Answer(w, pc));
      var (c', pc') := Segment(cfg, c, name, fallback, pc, now, Answer(w, pc));
      Drive(cfg, c', name, fallback, pc', now, w)
  }

  lemma OneSegment(cfg: Config, c: Client, name: string, fallback: Option<string>, pc: Pc, now: int, w: Script,
                   c': Client, pc': Pc)
    requires ScriptOk(w) && !Final(pc) && Segment(cfg, c, name, fallback, pc, now, Answer(w, pc)) == (c', pc')
    ensures Rank(pc') < Rank(pc)
    ensures Drive(cfg, c, name, fallback, pc, now, w) == Drive(cfg, c', name, fallback, pc', now, w)
  {
    SegmentDecreases(cfg, c, name, fallback, pc, now, Answer(w, pc));
  }

  // ---------- what one undisturbed call does ----------

  /** A call is booked from the segment on that fetched or found its template. */
  function Booking(pc: Pc): nat {
    if pc.Served? || pc.WriteFetched? || pc.WriteMemo? then 1 else 0
  }

  lemma SegmentBooking(cfg: Config, c: Client, name: string, fallback: Option<string>, pc: Pc, now: int, input: Input)
    requires Fits(pc, input)
    ensures var (c', pc') := Segment(cfg, c, name, fallback, pc, now, input);
            && c'.counters.totalRequests + Booking(pc) == c.counters.totalRequests + Booking(pc')
            && (Conserved(c.counters) ==> Conserved(c'.counters))
  {
  }

  /** From any stage on, a call ends in one of two ways: served and booked exactly once, or failed and not booked at
      all, whichever stages failed on the way. */
  lemma {:induction false} BookedOnce(cfg: Config, c: Client, name: string, fallback: Option<string>, pc: Pc, now: int,
                                      w: Script)
    requires ScriptOk(w)
    ensures var (c', end) := Drive(cfg, c, name, fallback, pc, now, w);
            && c'.counters.totalRequests + Booking(pc) == c.counters.totalRequests + (if end.Served? then 1 else 0)
            && (Conserved(c.counters) ==> Conserved(c'.counters))
    decreases Rank(pc)
  {
    if !Final(pc) {
      var (c1, pc1) := Segment(cfg, c, name, fallback, pc, now, Answer(w, pc));
      OneSegment(cfg, c, name, fallback, pc, now, w, c1, pc1);
      SegmentBooking(cfg, c, name, fallback, pc, now, Answer(w, pc));
      BookedOnce(cfg, c1, name, fallback, pc1, now, w);
    }
  }

  /** The published hash covers the text only: a successful revalidation serves the version the entry was
      fetched with, whatever version the server publishes for that text by now. */
  lemma RevalidationKeepsOldVersion(cfg: Config, c: Client, name: string, fallback: Option<string>, second: bool,
                                    held: Entry, server: Template, now: int, w: Script)
    requires ScriptOk(w)
    requires NameUsed(name, fallback, second) in c.remote && c.remote[NameUsed(name, fallback, second)] == held
    requires !Before(now, held.expires)
    requires held.hash == cfg.hashOf(held.template.text)
    requires server.text == held.template.text && Pick(w.hash, second) == GotHash(cfg.hashOf(server.text))
    ensures var (c', end) := Drive(cfg, c, name, fallback, ReadRemote(second), now, w);
            var n := NameUsed(name, fallback, second);
            && end == Served(Template(server.text, held.template.version), Revalidated, second)
            && (end.template == server <==> held.template.version == server.version)
            && n in c'.remote && c'.remote[n] == held.(expires := Ms(now + cfg.ttl))
  {
    RevalidatedAttempt(cfg, c, name, fallback, second, now, w);
  }

  // ---------- the ways of one remote attempt ----------

  lemma FreshAttempt(cfg: Config, c: Client, name: string, fallback: Option<string>, second: bool, now: int, w: Script)
    requires ScriptOk(w)
    requires var n := NameUsed(name, fallback, second); n in c.remote && Before(now, c.remote[n].expires)
    ensures var n := NameUsed(name, fallback, second);
            Drive(cfg, c, name, fallback, ReadRemote(second), now, w)
            == (c.(counters := TemplateCacheHit(c.counters)), Served(c.remote[n].template, FreshEntry, second))
  {
    var n := NameUsed(name, fallback, second);
    OneSegment(cfg, c, name, fallback, ReadRemote(second), now, w,
               c.(counters := TemplateCacheHit(c.counters)), Served(c.remote[n].template, FreshEntry, second));
  }

  lemma StaleAttempt(cfg: Config, c: Client, name: string, fallback: Option<string>, second: bool, now: int, w: Script)
    requires ScriptOk(w)
    requires var n := NameUsed(name, fallback, second); n in c.remote && !Before(now, c.remote[n].expires)
    ensures var n := NameUsed(name, fallback, second);
            Drive(cfg, c, name, fallback, ReadRemote(second), now, w)
            == Drive(cfg, c, name, fallback, AwaitHash(second, c.remote[n]), now, w)
  {
    var n := NameUsed(name, fallback, second);
    OneSegment(cfg, c, name, fallback, ReadRemote(second), now, w, c, AwaitHash(second, c.remote[n]));
  }

  /** The hash the environment answers with is the one of the entry held. */
  predicate SameHash(w: Script, second: bool, held: Entry) {
    Pick(w.hash, second).GotHash? && Pick(w.hash, second).hash == held.hash
  }

  lemma RevalidatedAttempt(cfg: Config, c: Client, name: string, fallback: Option<string>, second: bool, now: int,
                           w: Script)
    requires ScriptOk(w)
    requires var n := NameUsed(name, fallback, second);
             n in c.remote && !Before(now, c.remote[n].expires) && SameHash(w, second, c.remote[n])
    ensures var n := NameUsed(name, fallback, second);
            var entry := c.remote[n].(expires := Ms(now + cfg.ttl));
            Drive(cfg, c, name, fallback, ReadRemote(second), now, w)
            == (c.(remote := c.remote[n := entry], counters := TemplateCacheHit(c.counters)),
                Served(entry.template, Revalidated, second))
  {
    var n := NameUsed(name, fallback, second);
    var held := c.remote[n];
    var entry := held.(expires := Ms(now + cfg.ttl));
    StaleAttempt(cfg, c, name, fallback, second, now, w);
    OneSegment(cfg, c, name, fallback, AwaitHash(second, held), now, w, c, WriteRefreshed(second, entry));
    OneSegment(cfg, c, name, fallback, WriteRefreshed(second, entry), now, w,
               c.(remote := c.remote[n := entry], counters := TemplateCacheHit(c.counters)),
               Served(entry.template, Revalidated, second));
  }

  lemma RefetchNeeded(cfg: Config, c: Client, name: string, fallback: Option<string>, second: bool, now: int, w: Script)
    requires ScriptOk(w)
    requires var n := NameUsed(name, fallback, second);
             n in c.remote ==> !Before(now, c.remote[n].expires) && !SameHash(w, second, c.remote[n])
    ensures Drive(cfg, c, name, fallback, ReadRemote(second), now, w)
         == Drive(cfg, c, name, fallback, AwaitFetch(second, now), now, w)
  {
    var n := NameUsed(name, fallback, second);
    if n in c.remote {
      StaleAttempt(cfg, c, name, fallback, second, now, w);
      OneSegment(cfg, c, name, fallback, AwaitHash(second, c.remote[n]), now, w, c, AwaitFetch(second, now));
    } else {
      OneSegment(cfg, c, name, fallback, ReadRemote(second), now, w, c, AwaitFetch(second, now));
    }
  }

  lemma FetchFails(cfg: Config, c: Client, name: string, fallback: Option<string>, second: bool, now: int, w: Script)
    requires ScriptOk(w) && Pick(w.fetch, second).NetFailed?
    ensures Drive(cfg, c, name, fallback, AwaitFetch(second, now), now, w)
         == Drive(cfg, c, name, fallback,
                  AfterRemoteFailure(fallback, second, Pick(w.fetch, second).mentions404), now, w)
  {
    OneSegment(cfg, c, name, fallback, AwaitFetch(second, now), now, w,
               c, AfterRemoteFailure(fallback, second, Pick(w.fetch, second).mentions404));
  }

  lemma FetchArrives(cfg: Config, c: Client, name: string, fallback: Option<string>, second: bool, now: int, w: Script)
    requires ScriptOk(w) && Pick(w.fetch, second).GotTemplate?
    ensures var entry := Pick(w.fetch, second).entry;
            Drive(cfg, c, name, fallback, AwaitFetch(second, now), now, w)
            == (c.(counters := RemoteCall(c.counters, 0),
                   remote := c.remote[NameUsed(name, fallback, second) := entry]),
                Served(entry.template, Fetched, second))
  {
    var entry := Pick(w.fetch, second).entry;
    var booked := c.(counters := RemoteCall(c.counters, 0));
    OneSegment(cfg, c, name, fallback, AwaitFetch(second, now), now, w, booked, WriteFetched(second, entry));
    OneSegment(cfg, booked, name, fallback, WriteFetched(second, entry), now, w,
               booked.(remote := c.remote[NameUsed(name, fallback, second) := entry]),
               Served(entry.template, Fetched, second));
  }

  // ---------- the ways of the database chain ----------

  lemma MemoHit(cfg: Config, c: Client, name: string, fallback: Option<string>, now: int, w: Script)
    requires ScriptOk(w) && name in c.memo
    ensures Drive(cfg, c, name, fallback, ReadMemo, now, w)
         == (c.(counters := CacheHit(c.counters)), Served(c.memo[name], Memo, false))
  {
    OneSegment(cfg, c, name, fallback, ReadMemo, now, w,
               c.(counters := CacheHit(c.counters)), Served(c.memo[name], Memo, false));
  }

  /** The row that decides, and whether it is the one of the fallback name. */
  function DecidingRow(fallback: Option<string>, w: Script): (Input, bool) {
    if w.row.first == Row(None) && Usable(fallback) then (w.row.second, true) else (w.row.first, false)
  }

  lemma RowDecides(cfg: Config, c: Client, name: string, fallback: Option<string>, now: int, w: Script)
    requires ScriptOk(w) && name !in c.memo
    ensures var (row, second) := DecidingRow(fallback, w);
            Answer(w, AwaitRow(second)) == row
            && Drive(cfg, c, name, fallback, ReadMemo, now, w)
               == Drive(cfg, c, name, fallback, AwaitRow(second), now, w)
  {
    OneSegment(cfg, c, name, fallback, ReadMemo, now, w, c, AwaitRow(false));
    if DecidingRow(fallback, w).1 {
      OneSegment(cfg, c, name, fallback, AwaitRow(false), now, w, c, AwaitRow(true));
    }
  }

  lemma ChainFails(cfg: Config, c: Client, name: string, fallback: Option<string>, now: int, w: Script)
    requires ScriptOk(w) && name !in c.memo
    ensures var row := DecidingRow(fallback, w).0;
            && (row.RowFailed? ==> Drive(cfg, c, name, fallback, ReadMemo, now, w) == (c, Failed(DbDown)))
            && (row == Row(None) && HardcodedFor(cfg, name, fallback).None? ==>
                  Drive(cfg, c, name, fallback, ReadMemo, now, w) == (c, Failed(NotFound)))
  {
    var (row, second) := DecidingRow(fallback, w);
    RowDecides(cfg, c, name, fallback, now, w);
    if row.RowFailed? {
      OneSegment(cfg, c, name, fallback, AwaitRow(second), now, w, c, Failed(DbDown));
    } else if row == Row(None) && HardcodedFor(cfg, name, fallback).None? {
      OneSegment(cfg, c, name, fallback, AwaitRow(second), now, w, c, Failed(NotFound));
    }
  }

  lemma ChainFinds(cfg: Config, c: Client, name: string, fallback: Option<string>, now: int, w: Script, t: Template,
                   source: Source)
    requires ScriptOk(w) && name !in c.memo
    requires var row := DecidingRow(fallback, w).0;
             || (row == Row(Some(t)) && source == Database)
             || (row == Row(None) && HardcodedFor(cfg, name, fallback) == Some(t) && source == Hardcoded)
    ensures Drive(cfg, c, name, fallback, ReadMemo, now, w)
         == (c.(memo := c.memo[name := t],
                counters := if source == Database then DbFallback(c.counters) else HardcodedFallback(c.counters)),
             Served(t, source, false))
  {
    var second := DecidingRow(fallback, w).1;
    var booked := c.(counters := if source == Database then DbFallback(c.counters) else HardcodedFallback(c.counters));
    RowDecides(cfg, c, name, fallback, now, w);
    OneSegment(cfg, c, name, fallback, AwaitRow(second), now, w, booked, WriteMemo(t, source));
    OneSegment(cfg, booked, name, fallback, WriteMemo(t, source), now, w,
               booked.(memo := c.memo[name := t]), Served(t, source, false));
  }

  // ---------- what a call answers ----------

  predicate HasFresh(c: Client, n: string, now: int) {
    n in c.remote && c.remote[n].expires.Ms? && now < c.remote[n].expires.at
  }

  /** The entry is no longer fresh, but the service still has its hash. */
  predicate IsConfirmed(c: Client, n: string, now: int, hash: Input) {
    n in c.remote && !HasFresh(c, n, now) && hash == GotHash(c.remote[n].hash)
  }

  predicate HasToFetch(c: Client, n: string, now: int, hash: Input) {
    !HasFresh(c, n, now) && !IsConfirmed(c, n, now, hash)
  }

  /** There is a fallback name, and it is not empty. */
  predicate HasFallback(fallback: Option<string>) {
    fallback != None && fallback != Some("")
  }

  /** The call has left caches and end as given; the counters are another matter. */
  predicate EndsIn(d: (Client, Pc), remote: map<string, Entry>, memo: map<string, Template>, end: Pc) {
    d.0.remote == remote && d.0.memo == memo && d.1 == end
  }

  /** One name at the remote service: a fresh entry is served as it is, one whose hash is confirmed is served and kept
      for another local lifetime, and otherwise what is fetched is served and kept under the name. */
  predicate NameAnswers(c: Client, ttl: int, n: string, second: bool, now: int, hash: Input, fetch: Input,
                        d: (Client, Pc)) {
    && (HasFresh(c, n, now) ==> EndsIn(d, c.remote, c.memo, Served(c.remote[n].template, FreshEntry, second)))
    && (IsConfirmed(c, n, now, hash) ==>
          EndsIn(d, c.remote[n := c.remote[n].(expires := Ms(now + ttl))], c.memo,
                 Served(c.remote[n].template, Revalidated, second)))
    && (HasToFetch(c, n, now, hash) && fetch.GotTemplate? ==>
          EndsIn(d, c.remote[n := fetch.entry], c.memo, Served(fetch.entry.template, Fetched, second)))
  }

  lemma OneNameAnswers(cfg: Config, c: Client, name: string, fallback: Option<string>, second: bool, n: string,
                       now: int, w: Script)
    requires ScriptOk(w) && n == (if !second then name else if fallback.Some? then fallback.value else name)
    ensures NameAnswers(c, cfg.ttl, n, second, now, Pick(w.hash, second), Pick(w.fetch, second),
                        Drive(cfg, c, name, fallback, ReadRemote(second), now, w))
  {
    if HasFresh(c, n, now) {
      FreshAttempt(cfg, c, name, fallback, second, now, w);
    } else if IsConfirmed(c, n, now, Pick(w.hash, second)) {
      RevalidatedAttempt(cfg, c, name, fallback, second, now, w);
    } else if Pick(w.fetch, second).GotTemplate? {
      RefetchNeeded(cfg, c, name, fallback, second, now, w);
      FetchArrives(cfg, c, name, fallback, second, now, w);
    }
  }

  /** A call whose name has to be fetched, and cannot be. */
  predicate NameFails(c: Client, n: string, now: int, hash: Input, fetch: Input) {
    HasToFetch(c, n, now, hash) && fetch.NetFailed?
  }

  /** After the failure the call asks the service for the fallback name if and only if the failure mentions 404 and
      there is such a name; otherwise it goes on with the database. */
  lemma FailedNameContinues(cfg: Config, c: Client, name: string, fallback: Option<string>, now: int, w: Script)
    requires ScriptOk(w) && NameFails(c, name, now, w.hash.first, w.fetch.first)
    ensures Drive(cfg, c, name, fallback, ReadRemote(false), now, w)
         == if w.fetch.first.mentions404 && HasFallback(fallback)
            then Drive(cfg, c, name, fallback, ReadRemote(true), now, w)
            else Drive(cfg, c, name, fallback, ReadMemo, now, w)
  {
    RefetchNeeded(cfg, c, name, fallback, false, now, w);
    FetchFails(cfg, c, name, fallback, false, now, w);
  }

  /** After a failure of the fallback name it always does. */
  lemma FailedFallbackContinues(cfg: Config, c: Client, name: string, g: string, now: int, w: Script)
    requires ScriptOk(w) && NameFails(c, g, now, w.hash.second, w.fetch.second)
    ensures Drive(cfg, c, name, Some(g), ReadRemote(true), now, w) == Drive(cfg, c, name, Some(g), ReadMemo, now, w)
  {
    RefetchNeeded(cfg, c, name, Some(g), true, now, w);
    FetchFails(cfg, c, name, Some(g), true, now, w);
  }

  /** The call takes the remote path, and nothing there answers it. */
  predicate RemoteFails(c: Client, name: string, fallback: Option<string>, now: int, w: Script) {
    && NameFails(c, name, now, w.hash.first, w.fetch.first)
    && (w.fetch.first.mentions404 && HasFallback(fallback) ==>
          NameFails(c, fallback.value, now, w.hash.second, w.fetch.second))
  }

  /** The row the database path has to go by: that of the name, or of the fallback name where there is none. */
  function RowOf(fallback: Option<string>, w: Script): Input {
    if w.row.first == Row(None) && HasFallback(fallback) then w.row.second else w.row.first
  }

  /** The database path: the memo, then the rows, then the hardcoded templates; what it finds is memoised under the
      name. */
  predicate DatabaseAnswers(hardcoded: map<string, Template>, c: Client, name: string, fallback: Option<string>,
                            w: Script, d: (Client, Pc)) {
    && (name in c.memo ==> EndsIn(d, c.remote, c.memo, Served(c.memo[name], Memo, false)))
    && (name !in c.memo && RowOf(fallback, w).RowFailed? ==> EndsIn(d, c.remote, c.memo, Failed(DbDown)))
    && (name !in c.memo && RowOf(fallback, w).Row? && RowOf(fallback, w).row.Some? ==>
          var t := RowOf(fallback, w).row.value;
          EndsIn(d, c.remote, c.memo[name := t], Served(t, Database, false)))
    && (name !in c.memo && RowOf(fallback, w) == Row(None) ==>
          if name in hardcoded then
            EndsIn(d, c.remote, c.memo[name := hardcoded[name]], Served(hardcoded[name], Hardcoded, false))
          else if HasFallback(fallback) && fallback.value in hardcoded then
            var t := hardcoded[fallback.value];
            EndsIn(d, c.remote, c.memo[name := t], Served(t, Hardcoded, false))
          else
            EndsIn(d, c.remote, c.memo, Failed(NotFound)))
  }

  lemma ChainAnswers(cfg: Config, c: Client, name: string, fallback: Option<string>, now: int, w: Script)
    requires ScriptOk(w)
    ensures DatabaseAnswers(cfg.hardcoded, c, name, fallback, w, Drive(cfg, c, name, fallback, ReadMemo, now, w))
  {
    if name in c.memo {
      MemoHit(cfg, c, name, fallback, now, w);
    } else {
      var row := DecidingRow(fallback, w).0;
      assert row == RowOf(fallback, w);
      ChainFails(cfg, c, name, fallback, now, w);
      if row.Row? && row.row.Some? {
        ChainFinds(cfg, c, name, fallback, now, w, row.row.value, Database);
      } else if row == Row(None) && HardcodedFor(cfg, name, fallback).Some? {
        ChainFinds(cfg, c, name, fallback, now, w, HardcodedFor(cfg, name, fallback).value, Hardcoded);
      }
    }
  }

  /** What a call answers, for all inputs: without an API key nothing, in local mode what the database path has; and
      remotely what the service has for the name, for the fallback name where the name failed with a 404, and what the
      database path has where all of that failed. */
  predicate CallAnswers(cfg: Config, c: Client, name: string, fallback: Option<string>, now: int, w: Script,
                        d: (Client, Pc)) {
    && (cfg.remote && !cfg.hasKey ==> EndsIn(d, c.remote, c.memo, Failed(NoApiKey)))
    && (!cfg.remote ==> DatabaseAnswers(cfg.hardcoded, c, name, fallback, w, d))
    && (cfg.remote && cfg.hasKey ==>
          && NameAnswers(c, cfg.ttl, name, false, now, w.hash.first, w.fetch.first, d)
          && (NameFails(c, name, now, w.hash.first, w.fetch.first) && w.fetch.first.mentions404
              && HasFallback(fallback) ==>
                NameAnswers(c, cfg.ttl, fallback.value, true, now, w.hash.second, w.fetch.second, d))
          && (RemoteFails(c, name, fallback, now, w) ==>
                DatabaseAnswers(cfg.hardcoded, c, name, fallback, w, d)))
  }

  lemma RemoteCallAnswers(cfg: Config, c: Client, name: string, fallback: Option<string>, now: int, w: Script)
    requires ScriptOk(w) && cfg.remote && cfg.hasKey
    ensures CallAnswers(cfg, c, name, fallback, now, w, Drive(cfg, c, name, fallback, Begin, now, w))
  {
    OneSegment(cfg, c, name, fallback, Begin, now, w, c, ReadRemote(false));
    OneNameAnswers(cfg, c, name, fallback, false, name, now, w);
    ChainAnswers(cfg, c, name, fallback, now, w);
    if NameFails(c, name, now, w.hash.first, w.fetch.first) {
      FailedNameContinues(cfg, c, name, fallback, now, w);
      if HasFallback(fallback) {
        OneNameAnswers(cfg, c, name, fallback, true, fallback.value, now, w);
        if NameFails(c, fallback.value, now, w.hash.second, w.fetch.second) {
          FailedFallbackContinues(cfg, c, name, fallback.value, now, w);
        }
      }
    }
  }

  lemma EveryCallAnswers(cfg: Config, c: Client, name: string, fallback: Option<string>, now: int, w: Script)
    requires ScriptOk(w)
    ensures CallAnswers(cfg, c, name, fallback, now, w, Drive(cfg, c, name, fallback, Begin, now, w))
  {
    if cfg.remote && cfg.hasKey {
      RemoteCallAnswers(cfg, c, name, fallback, now, w);
    } else if cfg.remote {
      OneSegment(cfg, c, name, fallback, Begin, now, w, c, Failed(NoApiKey));
    } else {
      OneSegment(cfg, c, name, fallback, Begin, now, w, c, ReadMemo);
      ChainAnswers(cfg, c, name, fallback, now, w);
    }
  }

  // ---------- the nested form ----------

  datatype Reply = Ok(template: Template) | Thrown(mentions404: bool)
  datatype Result = Success(template: Template) | Failure(why: Failure)

  function ResultOf(pc: Pc): Result
    requires Final(pc)
  {
    if pc.Served? then Success(pc.template) else Failure(pc.why)
  }

  class PromptClient {
    var remoteCache: map<string, Entry>
    var templateCache: map<string, Template>
    const metrics: MetricsCollector

    constructor (metrics: MetricsCollector)
      ensures Value() == Client(map[], map[], metrics.Value()) && this.metrics == metrics
    {
      this.metrics := metrics;
      remoteCache, templateCache := map[], map[];
    }

    function Value(): Client
      reads this, metrics
    {
      Client(remoteCache, templateCache, metrics.Value())
    }

    method FetchOneRawTemplate(cfg: Config, name: string, fallback: Option<string>, second: bool, now: int, w: Script)
      returns (r: Reply)
      requires ScriptOk(w)
      modifies this, metrics
      ensures Drive(cfg, old(Value()), name, fallback, ReadRemote(second), now, w)
           == Drive(cfg, Value(), name, fallback,
                    if r.Ok? then Served(r.template, ServedBy(old(Value()), name, fallback, second, now, w), second)
                    else AfterRemoteFailure(fallback, second, r.mentions404), now, w)
      ensures var n := if second && fallback.Some? then fallback.value else name;
              r.Thrown? <==> NameFails(old(Value()), n, now, Pick(w.hash, second), Pick(w.fetch, second))
      ensures r.Thrown? ==> remoteCache == old(remoteCache) && r.mentions404 == Pick(w.fetch, second).mentions404
    {
      ghost var c0 := Value();
      var n := NameUsed(name, fallback, second);
      if n in remoteCache && Before(now, remoteCache[n].expires) {
        FreshAttempt(cfg, c0, name, fallback, second, now, w);
        metrics.RecordTemplateCacheHit();
        return Ok(remoteCache[n].template);
      }
      if n in remoteCache {
        var answer := Pick(w.hash, second);
        if answer.GotHash? && answer.hash == remoteCache[n].hash {
          RevalidatedAttempt(cfg, c0, name, fallback, second, now, w);
          var refreshed := remoteCache[n].(expires := Ms(now + cfg.ttl));
          remoteCache := remoteCache[n := refreshed];
          metrics.RecordTemplateCacheHit();
          return Ok(refreshed.template);
        }
      }
      RefetchNeeded(cfg, c0, name, fallback, second, now, w);
      var startMs := now;
      var fetched := Pick(w.fetch, second);
      if fetched.NetFailed? {
        FetchFails(cfg, c0, name, fallback, second, now, w);
        return Thrown(fetched.mentions404);
      }
      FetchArrives(cfg, c0, name, fallback, second, now, w);
      metrics.RecordRemoteCall(now - startMs);
      remoteCache := remoteCache[n := fetched.entry];
      return Ok(fetched.entry.template);
    }

    /** Which of the three remote sources a successful attempt is served from. */
    static function ServedBy(c: Client, name: string, fallback: Option<string>, second: bool, now: int,
                             w: Script): Source {
      var n := NameUsed(name, fallback, second);
      if n in c.remote && Before(now, c.remote[n].expires) then FreshEntry
      else if n in c.remote && Pick(w.hash, second).GotHash? && Pick(w.hash, second).hash == c.remote[n].hash
        then Revalidated
      else Fetched
    }

    method FetchRawTemplate(cfg: Config, name: string, fallback: Option<string>, now: int, w: Script)
      returns (r: Reply)
      requires ScriptOk(w)
      modifies this, metrics
      ensures r.Ok? ==>
                ResultOf(Drive(cfg, old(Value()), name, fallback, ReadRemote(false), now, w).1) == Success(r.template)
      ensures r.Ok? ==> Drive(cfg, old(Value()), name, fallback, ReadRemote(false), now, w).0 == Value()
      ensures r.Thrown? ==> (Drive(cfg, old(Value()), name, fallback, ReadRemote(false), now, w)
                             == Drive(cfg, Value(), name, fallback, ReadMemo, now, w))
      ensures r.Thrown? <==> RemoteFails(old(Value()), name, fallback, now, w)
    {
      r := FetchOneRawTemplate(cfg, name, fallback, false, now, w);
      if r.Thrown? && Usable(fallback) && r.mentions404 {
        r := FetchOneRawTemplate(cfg, name, fallback, true, now, w);
      }
    }

    method GetTemplateFromDb(cfg: Config, name: string, fallback: Option<string>, now: int, w: Script)
      returns (r: Result)
      requires ScriptOk(w)
      modifies this, metrics
      ensures (Value(), r) == var d := Drive(cfg, old(Value()), name, fallback, ReadMemo, now, w); (d.0, ResultOf(d.1))
    {
      ghost var c0 := Value();
      if name in templateCache {
        MemoHit(cfg, c0, name, fallback, now, w);
        metrics.RecordCacheHit();
        return Success(templateCache[name]);
      }
      var row := w.row.first;
      if row == Row(None) && Usable(fallback) {
        row := w.row.second;
      }
      assert row == DecidingRow(fallback, w).0;
      if row.RowFailed? {
        ChainFails(cfg, c0, name, fallback, now, w);
        return Failure(DbDown);
      }
      if row.row.None? {
        var hardcoded := HardcodedFor(cfg, name, fallback);
        if hardcoded.None? {
          ChainFails(cfg, c0, name, fallback, now, w);
          return Failure(NotFound);
        }
        ChainFinds(cfg, c0, name, fallback, now, w, hardcoded.value, Hardcoded);
        metrics.RecordHardcodedFallback();
        templateCache := templateCache[name := hardcoded.value];
        return Success(hardcoded.value);
      }
      ChainFinds(cfg, c0, name, fallback, now, w, row.row.value, Database);
      metrics.RecordDbFallback();
      templateCache := templateCache[name := row.row.value];
      return Success(row.row.value);
    }

    /** The source's nested try/catch runs the same segments in the same order. */
    method GetTemplate(cfg: Config, name: string, fallback: Option<string>, now: int, w: Script)
      returns (r: Result)
      requires ScriptOk(w)
      modifies this, metrics
      ensures (Value(), r) == var d := Drive(cfg, old(Value()), name, fallback, Begin, now, w); (d.0, ResultOf(d.1))
      ensures exists end :: Final(end) && r == ResultOf(end) &&
                CallAnswers(cfg, old(Value()), name, fallback, now, w, (Value(), end))
      ensures Value().counters.totalRequests == old(Value()).counters.totalRequests + (if r.Success? then 1 else 0)
      ensures old(Conserved(Value().counters)) ==> Conserved(Value().counters)
    {
      BookedOnce(cfg, Value(), name, fallback, Begin, now, w);
      EveryCallAnswers(cfg, Value(), name, fallback, now, w);
      if cfg.remote {
        if !cfg.hasKey {
          return Failure(NoApiKey);
        }
        var raw := FetchRawTemplate(cfg, name, fallback, now, w);
        if raw.Ok? {
          return Success(raw.template);
        }
      }
      r := GetTemplateFromDb(cfg, name, fallback, now, w);
    }
  }
}
