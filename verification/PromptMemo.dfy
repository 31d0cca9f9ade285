/** The database path with its memo table against the chain without a memo. */
module PromptMemo {
  import opened Options
  import opened PromptMetrics
  import opened PromptResolver
  import opened PromptRuns

  /** The documented order: the row of the name, the row of the fallback name, then the hardcoded templates. */
  function Chain(cfg: Config, db: map<string, Template>, name: string, fallback: Option<string>): Option<Template> {
    if name in db then Some(db[name])
    else if Usable(fallback) && fallback.value in db then Some(db[fallback.value])
    else HardcodedFor(cfg, name, fallback)
  }

  /** A way in which templates are requested: a name and the fallback name passed with it. */
  datatype Use = Use(name: string, fallback: Option<string>)

  function ChainAnswer(cfg: Config, db: map<string, Template>, use: Use): Option<Template> {
    Chain(cfg, db, use.name, use.fallback)
  }

  /** The database stays as it is and templates are requested in the given ways only. */
  ghost predicate Steady(uses: iset<Use>, e: Event) {
    && !e.EditDb?
    && (e.StartCall? ==> Use(e.name, e.fallback) in uses)
  }

  ghost predicate SteadyRun(cfg: Config, db: map<string, Template>, uses: iset<Use>, ws: seq<World>, es: seq<Event>) {
    IsRun(cfg, ws, es) && ws[0].db == db && forall e :: e in es ==> Steady(uses, e)
  }

  /** A call that ended on the database path ended as the chain without a memo says. */
  predicate AgreesWithChain(cfg: Config, db: map<string, Template>, call: Call) {
    && (call.pc.Served? && !FromRemote(call.pc.source) ==> ChainAnswer(cfg, db, UseOf(call)) == Some(call.pc.template))
    && (call.pc.Failed? && call.pc.why == NotFound ==> ChainAnswer(cfg, db, UseOf(call)) == None)
  }

  function UseOf(call: Call): Use {
    Use(call.name, call.fallback)
  }

  /** The caller's condition: a name has the same answer in all the ways it is requested. */
  ghost predicate SameAnswers(cfg: Config, db: map<string, Template>, uses: iset<Use>) {
    forall u, v :: u in uses && v in uses && u.name == v.name ==> ChainAnswer(cfg, db, u) == ChainAnswer(cfg, db, v)
  }

  // ---------- the condition suffices ----------

  predicate MemoCallOk(cfg: Config, db: map<string, Template>, call: Call) {
    && AgreesWithChain(cfg, db, call)
    && match call.pc
       case AwaitRow(second) => second ==> call.name !in db && Usable(call.fallback)
       case WriteMemo(t, source) => !FromRemote(source) && ChainAnswer(cfg, db, UseOf(call)) == Some(t)
       case _ => true
  }

  /** The memo holds the answer of every way in which the name is requested. */
  ghost predicate MemoEntryOk(cfg: Config, db: map<string, Template>, uses: iset<Use>, n: string, t: Template) {
    forall u :: u in uses && u.name == n ==> ChainAnswer(cfg, db, u) == Some(t)
  }

  ghost predicate MemoInv(cfg: Config, db: map<string, Template>, uses: iset<Use>, w: World) {
    && w.db == db
    && (forall n :: n in w.client.memo ==> MemoEntryOk(cfg, db, uses, n, w.client.memo[n]))
    && (forall i :: 0 <= i < |w.calls| ==> UseOf(w.calls[i]) in uses && MemoCallOk(cfg, db, w.calls[i]))
  }

  /** Only a writing segment puts an entry into the memo: the template its call has found. */
  lemma MemoAfter(cfg: Config, w: World, e: Event, n: string)
    requires Enabled(cfg, w, e) && n in Apply(cfg, w, e).client.memo
    ensures var t := Apply(cfg, w, e).client.memo[n];
            || (n in w.client.memo && w.client.memo[n] == t)
            || (e.Proceed? && w.calls[e.i].pc.WriteMemo? && n == w.calls[e.i].name && t == w.calls[e.i].pc.template)
  {
  }

  lemma StepKeepsEntry(cfg: Config, db: map<string, Template>, uses: iset<Use>, w: World, e: Event, n: string)
    requires MemoInv(cfg, db, uses, w) && Enabled(cfg, w, e) && SameAnswers(cfg, db, uses)
    requires n in Apply(cfg, w, e).client.memo
    ensures MemoEntryOk(cfg, db, uses, n, Apply(cfg, w, e).client.memo[n])
  {
    MemoAfter(cfg, w, e, n);
    if e.Proceed? { assert MemoCallOk(cfg, db, w.calls[e.i]) && UseOf(w.calls[e.i]) in uses; }
  }

  /** Reading the memo, a call finds the answer of its own use. */
  lemma ReadingMemo(cfg: Config, db: map<string, Template>, uses: iset<Use>, w: World, i: nat)
    requires MemoInv(cfg, db, uses, w) && i < |w.calls| && w.calls[i].pc.ReadMemo?
    ensures MemoCallOk(cfg, db, Resume(cfg, w, i, Go).calls[i])
  {
    var call := w.calls[i];
    if call.name in w.client.memo {
      assert MemoEntryOk(cfg, db, uses, call.name, w.client.memo[call.name]);
    }
  }

  /** Resumed anywhere else, a call stays in agreement; a row is the one the database has for the name in turn. */
  lemma ElsewhereKeepsMemoCall(cfg: Config, db: map<string, Template>, w: World, i: nat, input: Input)
    requires i < |w.calls| && Fits(w.calls[i].pc, input) && !w.calls[i].pc.ReadMemo? && MemoCallOk(cfg, db, w.calls[i])
    requires input.Row? ==> input.row == Lookup(db, NameOf(w.calls[i], w.calls[i].pc.second))
    ensures MemoCallOk(cfg, db, Resume(cfg, w, i, input).calls[i])
  {
  }

  lemma StepKeepsMemoCall(cfg: Config, db: map<string, Template>, uses: iset<Use>, w: World, e: Event, i: nat)
    requires MemoInv(cfg, db, uses, w) && Enabled(cfg, w, e) && Steady(uses, e)
    requires i < |Apply(cfg, w, e).calls|
    ensures UseOf(Apply(cfg, w, e).calls[i]) in uses && MemoCallOk(cfg, db, Apply(cfg, w, e).calls[i])
  {
    if Subject(e) != Some(i) {
      OtherCallsStay(cfg, w, e, i);
    }
    if i < |w.calls| {
      assert UseOf(w.calls[i]) in uses && MemoCallOk(cfg, db, w.calls[i]);
      if Subject(e) == Some(i) && IsResume(e) {
        if w.calls[i].pc.ReadMemo? {
          ReadingMemo(cfg, db, uses, w, i);
        } else {
          ElsewhereKeepsMemoCall(cfg, db, w, i, InputOf(cfg, w, e));
        }
      }
    }
  }

  lemma StepKeepsMemo(cfg: Config, db: map<string, Template>, uses: iset<Use>, w: World, e: Event)
    requires MemoInv(cfg, db, uses, w) && Enabled(cfg, w, e) && Steady(uses, e) && SameAnswers(cfg, db, uses)
    ensures MemoInv(cfg, db, uses, Apply(cfg, w, e))
  {
    var w' := Apply(cfg, w, e);
    forall n | n in w'.client.memo
      ensures MemoEntryOk(cfg, db, uses, n, w'.client.memo[n])
    {
      StepKeepsEntry(cfg, db, uses, w, e, n);
    }
    forall i | 0 <= i < |w'.calls|
      ensures UseOf(w'.calls[i]) in uses && MemoCallOk(cfg, db, w'.calls[i])
    {
      StepKeepsMemoCall(cfg, db, uses, w, e, i);
    }
  }

  lemma {:induction false} RunKeepsMemo(cfg: Config, db: map<string, Template>, uses: iset<Use>, ws: seq<World>,
                                        es: seq<Event>)
    requires SteadyRun(cfg, db, uses, ws, es) && SameAnswers(cfg, db, uses)
    ensures MemoInv(cfg, db, uses, ws[|es|])
  {
    if |es| > 0 {
      RunPrefix(cfg, ws, es);
      RunKeepsMemo(cfg, db, uses, ws[..|es|], es[..|es| - 1]);
      StepKeepsMemo(cfg, db, uses, ws[|es| - 1], es[|es| - 1]);
    }
  }

  // ---------- the condition is needed ----------

  /** The database path can be reached: a remote mode without an API key fails every call before it. */
  predicate DbReachable(cfg: Config) {
    !cfg.remote || cfg.hasKey
  }

  /** A run that has come to world `w`. */
  ghost predicate Reaches(cfg: Config, db: map<string, Template>, uses: iset<Use>, w: World) {
    exists ws, es :: SteadyRun(cfg, db, uses, ws, es) && ws[|es|] == w
  }

  lemma ReachesStart(cfg: Config, db: map<string, Template>, uses: iset<Use>) returns (w: World)
    ensures Reaches(cfg, db, uses, w) && Initial(w) && w.db == db
  {
    w := World(0, map[], db, Client(map[], map[], ZERO), [], {});
    assert SteadyRun(cfg, db, uses, [w], []);
  }

  lemma ReachesNext(cfg: Config, db: map<string, Template>, uses: iset<Use>, w: World, e: Event)
    requires Reaches(cfg, db, uses, w) && Enabled(cfg, w, e) && Steady(uses, e)
    ensures Reaches(cfg, db, uses, Apply(cfg, w, e))
  {
    var ws, es :| SteadyRun(cfg, db, uses, ws, es) && ws[|es|] == w;
    var ws', es' := ws + [Apply(cfg, w, e)], es + [e];
    assert SteadyRun(cfg, db, uses, ws', es') && ws'[|es'|] == Apply(cfg, w, e);
  }

  /** A new call of the given use gets to its look into the memo, when no remote entry is in its way. */
  lemma CallReachesMemo(cfg: Config, db: map<string, Template>, uses: iset<Use>, w: World, use: Use)
      returns (w': World)
    requires Reaches(cfg, db, uses, w) && use in uses && DbReachable(cfg) && w.client.remote == map[]
    ensures Reaches(cfg, db, uses, w') && |w'.calls| == |w.calls| + 1 && w'.db == w.db
    ensures w'.client.memo == w.client.memo && w'.client.remote == map[]
    ensures UseOf(w'.calls[|w.calls|]) == use && w'.calls[|w.calls|].pc == ReadMemo
  {
    var i := |w.calls|;
    ReachesNext(cfg, db, uses, w, StartCall(use.name, use.fallback));
    var w1 := Apply(cfg, w, StartCall(use.name, use.fallback));
    ReachesNext(cfg, db, uses, w1, Proceed(i));
    w' := Apply(cfg, w1, Proceed(i));
    if cfg.remote {
      ReachesNext(cfg, db, uses, w', Proceed(i));
      w' := Apply(cfg, w', Proceed(i));
      ReachesNext(cfg, db, uses, w', Lose(i, false));
      w' := Apply(cfg, w', Lose(i, false));
    }
  }

  /** Where a call continues when the row it asked for has arrived. */
  function AfterRow(cfg: Config, db: map<string, Template>, use: Use, second: bool): Pc {
    var n := NameUsed(use.name, use.fallback, second);
    if n in db then WriteMemo(db[n], Database)
    else if !second && Usable(use.fallback) then AwaitRow(true)
    else
      match HardcodedFor(cfg, use.name, use.fallback)
      case Some(h) => WriteMemo(h, Hardcoded)
      case None => Failed(NotFound)
  }

  lemma RowComes(cfg: Config, db: map<string, Template>, uses: iset<Use>, w: World, i: nat) returns (w': World)
    requires Reaches(cfg, db, uses, w) && i < |w.calls| && w.calls[i].pc.AwaitRow? && w.db == db
    ensures Reaches(cfg, db, uses, w') && w'.db == db && w'.client.remote == w.client.remote
    ensures i < |w'.calls| && UseOf(w'.calls[i]) == UseOf(w.calls[i])
    ensures w'.calls[i].pc == AfterRow(cfg, db, UseOf(w.calls[i]), w.calls[i].pc.second)
  {
    ReachesNext(cfg, db, uses, w, RowArrives(i));
    w' := Apply(cfg, w, RowArrives(i));
  }

  lemma MissesMemo(cfg: Config, db: map<string, Template>, uses: iset<Use>, w: World, i: nat) returns (w': World)
    requires Reaches(cfg, db, uses, w) && i < |w.calls| && w.calls[i].pc == ReadMemo && w.db == db
    requires w.calls[i].name !in w.client.memo
    ensures Reaches(cfg, db, uses, w') && w'.db == db && w'.client.remote == w.client.remote
    ensures i < |w'.calls| && UseOf(w'.calls[i]) == UseOf(w.calls[i]) && w'.calls[i].pc == AwaitRow(false)
  {
    ReachesNext(cfg, db, uses, w, Proceed(i));
    w' := Apply(cfg, w, Proceed(i));
  }

  /** The rows lead to the answer of the chain. */
  lemma RowsGiveAnswer(cfg: Config, db: map<string, Template>, use: Use)
    requires ChainAnswer(cfg, db, use).Some?
    ensures var pc := AfterRow(cfg, db, use, false);
            if pc == AwaitRow(true)
            then AfterRow(cfg, db, use, true).WriteMemo?
              && Some(AfterRow(cfg, db, use, true).template) == ChainAnswer(cfg, db, use)
            else pc.WriteMemo? && Some(pc.template) == ChainAnswer(cfg, db, use)
  {
  }

  /** From there a call with an empty memo entry fetches the answer of the chain, if there is one. */
  lemma CallFindsAnswer(cfg: Config, db: map<string, Template>, uses: iset<Use>, w: World, i: nat) returns (w': World)
    requires Reaches(cfg, db, uses, w) && i < |w.calls| && w.calls[i].pc == ReadMemo && w.db == db
    requires w.calls[i].name !in w.client.memo && ChainAnswer(cfg, db, UseOf(w.calls[i])).Some?
    ensures Reaches(cfg, db, uses, w') && w'.db == db && w'.client.remote == w.client.remote
    ensures i < |w'.calls| && UseOf(w'.calls[i]) == UseOf(w.calls[i]) && w'.calls[i].pc.WriteMemo?
    ensures Some(w'.calls[i].pc.template) == ChainAnswer(cfg, db, UseOf(w.calls[i]))
  {
    var use := UseOf(w.calls[i]);
    RowsGiveAnswer(cfg, db, use);
    var w1 := MissesMemo(cfg, db, uses, w, i);
    w' := RowComes(cfg, db, uses, w1, i);
    if AfterRow(cfg, db, use, false) == AwaitRow(true) {
      w' := RowComes(cfg, db, uses, w', i);
    }
  }

  /** And memoises it. */
  lemma CallMemoises(cfg: Config, db: map<string, Template>, uses: iset<Use>, w: World, i: nat) returns (w': World)
    requires Reaches(cfg, db, uses, w) && i < |w.calls| && w.calls[i].pc == ReadMemo && w.db == db
    requires w.calls[i].name !in w.client.memo && ChainAnswer(cfg, db, UseOf(w.calls[i])).Some?
    requires w.client.remote == map[]
    ensures Reaches(cfg, db, uses, w') && w'.db == db && w'.client.remote == map[]
    ensures w.calls[i].name in w'.client.memo
    ensures ChainAnswer(cfg, db, UseOf(w.calls[i])) == Some(w'.client.memo[w.calls[i].name])
  {
    var w1 := CallFindsAnswer(cfg, db, uses, w, i);
    ReachesNext(cfg, db, uses, w1, Proceed(i));
    w' := Apply(cfg, w1, Proceed(i));
  }

  /** Two ways to request a name with different answers: after the first has been answered, the second is served the
      first one's template from the memo. */
  lemma OtherUseGetsTheMemo(cfg: Config, db: map<string, Template>, uses: iset<Use>, u: Use, v: Use)
      returns (w: World, i: nat)
    requires DbReachable(cfg) && u in uses && v in uses && u.name == v.name && ChainAnswer(cfg, db, u).Some?
    ensures Reaches(cfg, db, uses, w) && i < |w.calls| && UseOf(w.calls[i]) == v
    ensures w.calls[i].pc == Served(ChainAnswer(cfg, db, u).value, Memo, false)
  {
    var w0 := ReachesStart(cfg, db, uses);
    var w1 := CallReachesMemo(cfg, db, uses, w0, u);
    var w2 := CallMemoises(cfg, db, uses, w1, 0);
    var w3 := CallReachesMemo(cfg, db, uses, w2, v);
    i := |w2.calls|;
    ReachesNext(cfg, db, uses, w3, Proceed(i));
    w := Apply(cfg, w3, Proceed(i));
  }

  // ---------- the result ----------

  /** In every run over the database and the uses, every call agrees with the chain. */
  ghost predicate MemoAgrees(cfg: Config, db: map<string, Template>, uses: iset<Use>) {
    forall w: World :: Reaches(cfg, db, uses, w) ==>
      forall i :: 0 <= i < |w.calls| ==> AgreesWithChain(cfg, db, w.calls[i])
  }

  predicate NotStarted(pc: Pc) {
    pc == Begin || pc == Failed(NoApiKey)
  }

  lemma {:induction false} WithoutKeyNothingStarts(cfg: Config, ws: seq<World>, es: seq<Event>)
    requires IsRun(cfg, ws, es) && !DbReachable(cfg)
    ensures forall i :: 0 <= i < |ws[|es|].calls| ==> NotStarted(ws[|es|].calls[i].pc)
  {
    if |es| > 0 {
      var w := ws[|es| - 1];
      RunPrefix(cfg, ws, es);
      WithoutKeyNothingStarts(cfg, ws[..|es|], es[..|es| - 1]);
      assert forall i :: 0 <= i < |w.calls| ==> NotStarted(w.calls[i].pc);
    }
  }

  lemma SameAnswersSuffice(cfg: Config, db: map<string, Template>, uses: iset<Use>, w: World)
    requires Reaches(cfg, db, uses, w) && (SameAnswers(cfg, db, uses) || !DbReachable(cfg))
    ensures forall i :: 0 <= i < |w.calls| ==> AgreesWithChain(cfg, db, w.calls[i])
  {
    var ws, es :| SteadyRun(cfg, db, uses, ws, es) && ws[|es|] == w;
    if SameAnswers(cfg, db, uses) {
      RunKeepsMemo(cfg, db, uses, ws, es);
    } else {
      WithoutKeyNothingStarts(cfg, ws, es);
    }
  }

  /** Of two uses with different answers, one has an answer; the other is served it. */
  lemma OtherAnswersFail(cfg: Config, db: map<string, Template>, uses: iset<Use>, u: Use, v: Use)
    requires DbReachable(cfg) && u in uses && v in uses && u.name == v.name
    requires ChainAnswer(cfg, db, u).Some? && ChainAnswer(cfg, db, u) != ChainAnswer(cfg, db, v)
    ensures !MemoAgrees(cfg, db, uses)
  {
    var w, i := OtherUseGetsTheMemo(cfg, db, uses, u, v);
    assert !AgreesWithChain(cfg, db, w.calls[i]);
  }

  /** The memo agrees with the chain, in all runs with any evictions and interleavings, if and only if every name has
      one answer in all the ways it is requested, or the database path cannot be reached. */
  lemma MemoAgreesIff(cfg: Config, db: map<string, Template>, uses: iset<Use>)
    ensures MemoAgrees(cfg, db, uses) <==> SameAnswers(cfg, db, uses) || !DbReachable(cfg)
  {
    if SameAnswers(cfg, db, uses) || !DbReachable(cfg) {
      forall w: World | Reaches(cfg, db, uses, w)
        ensures forall i :: 0 <= i < |w.calls| ==> AgreesWithChain(cfg, db, w.calls[i])
      {
        SameAnswersSuffice(cfg, db, uses, w);
      }
    } else {
      var u, v :| u in uses && v in uses && u.name == v.name && ChainAnswer(cfg, db, u) != ChainAnswer(cfg, db, v);
      if ChainAnswer(cfg, db, u).Some? {
        OtherAnswersFail(cfg, db, uses, u, v);
      } else {
        OtherAnswersFail(cfg, db, uses, v, u);
      }
    }
  }

  /** A name requested both with a fallback and without one, as the document analysis does when it composes a prompt
      and when it asks for the prompt's hash: the answers are the same exactly when the name has a row, or nothing is
      added by the fallback. */
  lemma WithAndWithoutFallback(cfg: Config, db: map<string, Template>, name: string, f: string)
    requires f != ""
    ensures SameAnswers(cfg, db, iset{Use(name, Some(f)), Use(name, None)})
       <==> || name in db
            || (if f in db then name in cfg.hardcoded && cfg.hardcoded[name] == db[f]
                else name in cfg.hardcoded || f !in cfg.hardcoded)
  {
    var u, v := Use(name, Some(f)), Use(name, None);
    assert SameAnswers(cfg, db, iset{u, v}) <==> ChainAnswer(cfg, db, u) == ChainAnswer(cfg, db, v);
  }

  /** The memo is keyed by the name alone: where only the fallback has a row, a call without a fallback is served the
      fallback's row from the memo, although its own chain has another answer or none. */
  lemma MemoIgnoresTheFallback(cfg: Config, db: map<string, Template>, name: string, f: string)
      returns (w: World, i: nat)
    requires DbReachable(cfg) && f != "" && name !in db && f in db
    ensures Reaches(cfg, db, iset{Use(name, Some(f)), Use(name, None)}, w) && i < |w.calls|
    ensures UseOf(w.calls[i]) == Use(name, None) && w.calls[i].pc == Served(db[f], Memo, false)
    ensures ChainAnswer(cfg, db, Use(name, None)) == Lookup(cfg.hardcoded, name)
  {
    var uses := iset{Use(name, Some(f)), Use(name, None)};
    w, i := OtherUseGetsTheMemo(cfg, db, uses, Use(name, Some(f)), Use(name, None));
  }
}
