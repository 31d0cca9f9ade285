/** Conservation of the request counters over every interleaving of calls. */
module PromptCounters {
  import opened Options
  import opened PromptMetrics
  import opened PromptResolver
  import opened PromptRuns

  /** The source a call has been booked under, once its counter was bumped. */
  function Booked(pc: Pc): Option<Source> {
    match pc
    case WriteFetched(_, _) => Some(Fetched)
    case WriteMemo(_, source) => Some(source)
    case Served(_, source, _) => Some(source)
    case _ => None
  }

  function Under(pc: Pc, source: Source): nat {
    if Booked(pc) == Some(source) then 1 else 0
  }

  function Count(calls: seq<Call>, source: Source): nat {
    if calls == [] then 0
    else Count(calls[..|calls| - 1], source) + Under(calls[|calls| - 1].pc, source)
  }

  function CountServed(calls: seq<Call>): nat {
    if calls == [] then 0
    else CountServed(calls[..|calls| - 1]) + (if calls[|calls| - 1].pc.Served? then 1 else 0)
  }

  lemma {:induction false} CountUpdate(calls: seq<Call>, i: nat, call: Call, source: Source)
    requires i < |calls|
    ensures Count(calls[i := call], source) + Under(calls[i].pc, source)
         == Count(calls, source) + Under(call.pc, source)
  {
    var k := |calls| - 1;
    if i < k {
      assert calls[i := call][..k] == calls[..k][i := call];
      CountUpdate(calls[..k], i, call, source);
    } else {
      assert calls[i := call][..k] == calls[..k];
    }
  }

  /** The counters are exactly the booked calls, source by source. */
  predicate CountersMatch(m: Counters, calls: seq<Call>) {
    && m.templateCacheHits == Count(calls, FreshEntry) + Count(calls, Revalidated)
    && m.cacheHits == m.templateCacheHits + Count(calls, Memo)
    && m.remoteCalls == Count(calls, Fetched)
    && m.dbFallbacks == Count(calls, Database)
    && m.hardcodedFallbacks == Count(calls, Hardcoded)
    && m.totalRequests == m.cacheHits + m.remoteCalls + m.dbFallbacks + m.hardcodedFallbacks
  }

  /** One request more, under the source's counter. */
  function Book(m: Counters, source: Source, latencyMs: int): Counters {
    match source
    case FreshEntry => TemplateCacheHit(m)
    case Revalidated => TemplateCacheHit(m)
    case Fetched => RemoteCall(m, latencyMs)
    case Memo => CacheHit(m)
    case Database => DbFallback(m)
    case Hardcoded => HardcodedFallback(m)
  }

  /** A segment touches the counters exactly when it books its call, under the call's source; a booked call keeps its
      source and is not booked again. */
  lemma SegmentBooks(cfg: Config, c: Client, name: string, fallback: Option<string>, pc: Pc, now: int, input: Input)
    requires Fits(pc, input)
    ensures var (c', pc') := Segment(cfg, c, name, fallback, pc, now, input);
            if Booked(pc') == Booked(pc) then c'.counters == c.counters
            else
              && Booked(pc) == None
              && c'.counters == Book(c.counters, Booked(pc').value, if pc.AwaitFetch? then now - pc.startedAt else 0)
  {
  }

  lemma CountBooked(calls: seq<Call>, i: nat, call: Call, source: Source)
    requires i < |calls| && Booked(calls[i].pc) == None && Booked(call.pc) == Some(source)
    ensures forall s: Source :: Count(calls[i := call], s) == Count(calls, s) + (if s == source then 1 else 0)
  {
    forall s: Source
      ensures Count(calls[i := call], s) == Count(calls, s) + (if s == source then 1 else 0)
    {
      CountUpdate(calls, i, call, s);
    }
  }

  lemma BookingKeepsMatch(m: Counters, calls: seq<Call>, i: nat, call: Call, source: Source, latencyMs: int)
    requires i < |calls| && CountersMatch(m, calls) && Booked(calls[i].pc) == None && Booked(call.pc) == Some(source)
    ensures CountersMatch(Book(m, source, latencyMs), calls[i := call])
  {
    CountBooked(calls, i, call, source);
  }

  /** The same booked calls, so the same counts. */
  lemma Rebooked(calls: seq<Call>, i: nat, call: Call)
    requires i < |calls| && Booked(calls[i].pc) == Booked(call.pc)
    ensures forall source: Source :: Count(calls[i := call], source) == Count(calls, source)
  {
    forall source: Source
      ensures Count(calls[i := call], source) == Count(calls, source)
    {
      CountUpdate(calls, i, call, source);
    }
  }

  lemma ResumeKeepsCounters(cfg: Config, w: World, i: nat, input: Input)
    requires i < |w.calls| && Fits(w.calls[i].pc, input) && CountersMatch(w.client.counters, w.calls)
    ensures var w' := Resume(cfg, w, i, input); CountersMatch(w'.client.counters, w'.calls)
  {
    var call := w.calls[i];
    var call' := Resume(cfg, w, i, input).calls[i];
    SegmentBooks(cfg, w.client, call.name, call.fallback, call.pc, w.clock, input);
    if Booked(call'.pc) == Booked(call.pc) {
      Rebooked(w.calls, i, call');
    } else {
      BookingKeepsMatch(w.client.counters, w.calls, i, call', Booked(call'.pc).value,
                        if call.pc.AwaitFetch? then w.clock - call.pc.startedAt else 0);
    }
  }

  lemma Added(calls: seq<Call>, call: Call)
    requires Booked(call.pc) == None
    ensures forall source: Source :: Count(calls + [call], source) == Count(calls, source)
  {
    assert (calls + [call])[..|calls|] == calls;
  }

  /** An event that runs no segment changes neither the counters nor the booked calls. */
  lemma OtherEventKeepsCounts(cfg: Config, w: World, e: Event)
    requires Enabled(cfg, w, e) && !IsResume(e)
    ensures var w' := Apply(cfg, w, e);
            && w'.client.counters == w.client.counters
            && forall source: Source :: Count(w'.calls, source) == Count(w.calls, source)
  {
    if e.StartCall? {
      Added(w.calls, Call(e.name, e.fallback, Begin, w.clock, None, w.clock));
    } else if e.ServiceAnswers? || e.Resend? {
      Rebooked(w.calls, e.i, Apply(cfg, w, e).calls[e.i]);
    }
  }

  lemma StepKeepsCounters(cfg: Config, w: World, e: Event)
    requires Enabled(cfg, w, e) && CountersMatch(w.client.counters, w.calls)
    ensures var w' := Apply(cfg, w, e); CountersMatch(w'.client.counters, w'.calls)
  {
    if IsResume(e) {
      ResumeKeepsCounters(cfg, w, e.i, InputOf(cfg, w, e));
    } else {
      OtherEventKeepsCounts(cfg, w, e);
    }
  }

  /** When every call has ended, each served call was booked once and no failed one at all. */
  lemma {:induction false} EndedCallsBooked(calls: seq<Call>)
    requires forall call :: call in calls ==> Final(call.pc)
    ensures Count(calls, FreshEntry) + Count(calls, Revalidated) + Count(calls, Memo) + Count(calls, Fetched)
          + Count(calls, Database) + Count(calls, Hardcoded) == CountServed(calls)
  {
    if calls != [] {
      var k := |calls| - 1;
      var pc := calls[k].pc;
      assert calls[k] in calls;
      EndedCallsBooked(calls[..k]);
      assert pc.Served? ==> FromRemote(pc.source) || pc.source.Memo? || pc.source.Database? || pc.source.Hardcoded?;
      assert Under(pc, FreshEntry) + Under(pc, Revalidated) + Under(pc, Memo) + Under(pc, Fetched)
           + Under(pc, Database) + Under(pc, Hardcoded) == if pc.Served? then 1 else 0;
    }
  }

  /** Over every run the counters are conserved, and once no call is running the total is the number of calls that
      returned a template, whichever stages failed on the way. */
  lemma {:induction false} CountersConserved(cfg: Config, ws: seq<World>, es: seq<Event>)
    requires IsRun(cfg, ws, es)
    ensures var w := ws[|es|];
            && CountersMatch(w.client.counters, w.calls) && Conserved(w.client.counters)
            && ((forall call :: call in w.calls ==> Final(call.pc)) ==>
                 w.client.counters.totalRequests == CountServed(w.calls))
  {
    if |es| > 0 {
      RunPrefix(cfg, ws, es);
      CountersConserved(cfg, ws[..|es|], es[..|es| - 1]);
      StepKeepsCounters(cfg, ws[|es| - 1], es[|es| - 1]);
    }
    if forall call :: call in ws[|es|].calls ==> Final(call.pc) {
      EndedCallsBooked(ws[|es|].calls);
    }
  }
}
