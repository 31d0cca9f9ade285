/** Which way the interleaved calls take: fresh entries, the fallback name, the database path. */
module PromptOutcomes {
  import opened Options
  import opened PromptMetrics
  import opened PromptResolver
  import opened PromptRuns

  // ---------- one step ----------

  /** A call that reads the remote cache is served at once if and only if the entry is still fresh; otherwise it asks
      for the hash of a stale entry, or for the template. */
  lemma ReadingServesIff(cfg: Config, w: World, i: nat, n: string)
    requires Enabled(cfg, w, Proceed(i)) && w.calls[i].pc.ReadRemote?
    requires var call := w.calls[i];
             n == if call.pc.second && call.fallback.Some? then call.fallback.value else call.name
    ensures var w' := Apply(cfg, w, Proceed(i));
            var second := w.calls[i].pc.second;
            && w'.client.remote == w.client.remote
            && w'.calls[i].pc == if n !in w.client.remote then AwaitFetch(second, w.clock)
                                 else if HasFresh(w.client, n, w.clock)
                                   then Served(w.client.remote[n].template, FreshEntry, second)
                                 else AwaitHash(second, w.client.remote[n])
  {
  }

  /** What the service answers a fetch with is kept, under the name, until the expiry advertised with it. */
  lemma FetchedIsKept(cfg: Config, w: World, i: nat, n: string, expires: Stamp)
    requires Enabled(cfg, w, Deliver(i)) && w.calls[i].pc.AwaitFetch?
    requires w.calls[i].reply.value.kind == Published(expires)
    requires var call := w.calls[i];
             n == if call.pc.second && call.fallback.Some? then call.fallback.value else call.name
    ensures var t := w.calls[i].reply.value.template;
            var w1 := Apply(cfg, w, Deliver(i));
            && Enabled(cfg, w1, Proceed(i))
            && var w2 := Apply(cfg, w1, Proceed(i));
            && w2.client.remote == w.client.remote[n := Entry(t, cfg.hashOf(t.text), expires)]
            && w2.calls[i].pc == Served(t, Fetched, w.calls[i].pc.second)
  {
  }

  /** A failed request for a hash leads to a fetch; a failed fetch leads to the fallback name if and only if it was the
      first name's, mentions 404, and there is a fallback name; and otherwise to the database path. */
  lemma FailureContinues(cfg: Config, w: World, i: nat, mentions404: bool)
    requires Enabled(cfg, w, Lose(i, mentions404))
    ensures var pc := w.calls[i].pc;
            Apply(cfg, w, Lose(i, mentions404)).calls[i].pc
            == if pc.AwaitHash? then AwaitFetch(pc.second, w.clock)
               else if !pc.second && mentions404 && HasFallback(w.calls[i].fallback) then ReadRemote(true)
               else ReadMemo
  {
  }

  // ---------- over runs ----------

  /** The call works on, or was served, its fallback name at the service. */
  predicate OnFallback(pc: Pc) {
    match pc
    case ReadRemote(second) => second
    case AwaitHash(second, _) => second
    case WriteRefreshed(second, _) => second
    case AwaitFetch(second, _) => second
    case WriteFetched(second, _) => second
    case Served(_, source, second) => FromRemote(source) && second
    case _ => false
  }

  /** The call is, or ended, on the database path. */
  predicate OnDatabase(pc: Pc) {
    match pc
    case ReadMemo => true
    case AwaitRow(_) => true
    case WriteMemo(_, _) => true
    case Served(_, source, _) => !FromRemote(source)
    case Failed(why) => why != NoApiKey
    case _ => false
  }

  /** In step `k` a fetch of call `i` failed, for the fallback name or the first. */
  predicate FetchFailsAt(ws: seq<World>, es: seq<Event>, k: nat, i: nat, second: bool, mentions404: bool) {
    && k < |es| && k < |ws| && es[k] == Lose(i, mentions404) && i < |ws[k].calls|
    && ws[k].calls[i].pc.AwaitFetch? && ws[k].calls[i].pc.second == second
  }

  ghost predicate FirstFetchFails(ws: seq<World>, es: seq<Event>, i: nat, mentions404: bool, n: nat) {
    exists k: nat :: k < n && FetchFailsAt(ws, es, k, i, false, mentions404)
  }

  ghost predicate SecondFetchFails(ws: seq<World>, es: seq<Event>, i: nat, n: nat) {
    exists k: nat, mentions404 :: k < n && FetchFailsAt(ws, es, k, i, true, mentions404)
  }

  /** A call keeps the names it was started with. */
  lemma NamesStay(cfg: Config, w: World, e: Event, i: nat)
    requires Enabled(cfg, w, e) && i < |w.calls|
    ensures i < |Apply(cfg, w, e).calls|
    ensures Apply(cfg, w, e).calls[i].name == w.calls[i].name
         && Apply(cfg, w, e).calls[i].fallback == w.calls[i].fallback
  {
    if Subject(e) != Some(i) { OtherCallsStay(cfg, w, e, i); }
  }

  /** A call comes to its fallback name in one way only. */
  lemma ComesToFallback(cfg: Config, w: World, e: Event, i: nat)
    requires Enabled(cfg, w, e) && i < |Apply(cfg, w, e).calls| && OnFallback(Apply(cfg, w, e).calls[i].pc)
    ensures i < |w.calls|
    ensures || OnFallback(w.calls[i].pc)
            || (e == Lose(i, true) && w.calls[i].pc.AwaitFetch? && !w.calls[i].pc.second
                && HasFallback(w.calls[i].fallback))
  {
    if Subject(e) != Some(i) { OtherCallsStay(cfg, w, e, i); }
  }

  lemma {:induction false} FallbackAfter404(cfg: Config, ws: seq<World>, es: seq<Event>, i: nat, n: nat)
    requires IsRun(cfg, ws, es) && n <= |es| && i < |ws[n].calls| && OnFallback(ws[n].calls[i].pc)
    ensures HasFallback(ws[n].calls[i].fallback) && FirstFetchFails(ws, es, i, true, n)
  {
    assert n > 0;
    var k := n - 1;
    ComesToFallback(cfg, ws[k], es[k], i);
    NamesStay(cfg, ws[k], es[k], i);
    if OnFallback(ws[k].calls[i].pc) {
      FallbackAfter404(cfg, ws, es, i, k);
    } else {
      assert FetchFailsAt(ws, es, k, i, false, true);
    }
  }

  lemma {:induction false} FallbackStays(cfg: Config, ws: seq<World>, es: seq<Event>, i: nat, k: nat, n: nat)
    requires IsRun(cfg, ws, es) && k <= n <= |es| && i < |ws[k].calls|
    ensures i < |ws[n].calls| && ws[n].calls[i].fallback == ws[k].calls[i].fallback
    decreases n
  {
    if k < n {
      FallbackStays(cfg, ws, es, i, k, n - 1);
      NamesStay(cfg, ws[n - 1], es[n - 1], i);
    }
  }

  /** Call `i` has come to its fallback name at the service. */
  ghost predicate EverOnFallback(ws: seq<World>, i: nat) {
    exists n: nat :: n < |ws| && i < |ws[n].calls| && OnFallback(ws[n].calls[i].pc)
  }

  /** Over every run: a call asks the service for its fallback name if and only if it has one and the fetch of its first
      name failed with a 404. */
  lemma FallbackAskedIff(cfg: Config, ws: seq<World>, es: seq<Event>, i: nat)
    requires IsRun(cfg, ws, es) && i < |ws[|es|].calls|
    ensures EverOnFallback(ws, i)
       <==> HasFallback(ws[|es|].calls[i].fallback) && FirstFetchFails(ws, es, i, true, |es|)
  {
    if EverOnFallback(ws, i) {
      var n: nat :| n < |ws| && i < |ws[n].calls| && OnFallback(ws[n].calls[i].pc);
      FallbackAfter404(cfg, ws, es, i, n);
      FallbackStays(cfg, ws, es, i, n, |es|);
      var k: nat :| k < n && FetchFailsAt(ws, es, k, i, false, true);
      assert k < |es|;
    }
    if HasFallback(ws[|es|].calls[i].fallback) && FirstFetchFails(ws, es, i, true, |es|) {
      var k: nat :| k < |es| && FetchFailsAt(ws, es, k, i, false, true);
      FallbackStays(cfg, ws, es, i, k, |es|);
      FailureContinues(cfg, ws[k], i, true);
      assert OnFallback(ws[k + 1].calls[i].pc);
    }
  }

  /** A remote call comes to the database path in two ways only. */
  lemma ComesToDatabase(cfg: Config, w: World, e: Event, i: nat)
    requires Enabled(cfg, w, e) && cfg.remote && i < |Apply(cfg, w, e).calls|
    requires OnDatabase(Apply(cfg, w, e).calls[i].pc)
    ensures i < |w.calls|
    ensures || OnDatabase(w.calls[i].pc)
            || (e.Lose? && e.i == i && w.calls[i].pc.AwaitFetch?
                && (w.calls[i].pc.second || !e.mentions404 || !HasFallback(w.calls[i].fallback)))
  {
    if Subject(e) != Some(i) { OtherCallsStay(cfg, w, e, i); }
  }

  /** Over every run: where the remote service is configured, a call is answered from the database path only after its
      last fetch failed: that of the fallback name, or that of the first name with no way on to a fallback. */
  lemma {:induction false} DatabaseAfterFailure(cfg: Config, ws: seq<World>, es: seq<Event>, i: nat, n: nat)
    requires IsRun(cfg, ws, es) && cfg.remote && n <= |es| && i < |ws[n].calls| && OnDatabase(ws[n].calls[i].pc)
    ensures || SecondFetchFails(ws, es, i, n)
            || FirstFetchFails(ws, es, i, false, n)
            || (FirstFetchFails(ws, es, i, true, n) && !HasFallback(ws[n].calls[i].fallback))
  {
    assert n > 0;
    var k := n - 1;
    ComesToDatabase(cfg, ws[k], es[k], i);
    NamesStay(cfg, ws[k], es[k], i);
    if OnDatabase(ws[k].calls[i].pc) {
      DatabaseAfterFailure(cfg, ws, es, i, k);
    } else {
      assert FetchFailsAt(ws, es, k, i, ws[k].calls[i].pc.second, es[k].mentions404);
    }
  }
}
