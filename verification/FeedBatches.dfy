/** Collapsing runs of look-alike actions in the activity feed.
    `norm` stands for the verdict normaliser; everything holds for any such function. */
module FeedBatches {
  import opened Options

  datatype Action = Action(id: string, actionType: string, date: string, text: Option<string>)

  datatype FeedEntry =
    | Single(action: Action)
    | Batch(actionType: string, date: string, verdict: string, actions: seq<Action>)

  type Normalizer = Option<string> -> string

  const BATCHABLE := {"engrossment", "enrollment", "committee_report", "amendment"}
  const NO_VERDICT := "(no recorded verdict)"

  predicate Batchable(a: Action) {
    a.actionType in BATCHABLE
  }

  /** `date.slice(0, 10)`. */
  function Day(date: string): string {
    if |date| <= 10 then date else date[..10]
  }

  predicate Alike(norm: Normalizer, a: Action, b: Action) {
    a.actionType == b.actionType && Day(a.date) == Day(b.date) && norm(a.text) == norm(b.text)
  }

  function VerdictOf(norm: Normalizer, a: Action): string {
    if norm(a.text) != "" then norm(a.text) else NO_VERDICT
  }

  function MakeBatch(norm: Normalizer, run: seq<Action>): FeedEntry
    requires run != []
  {
    Batch(run[0].actionType, run[0].date, VerdictOf(norm, run[0]), run)
  }

  function Members(e: FeedEntry): seq<Action> {
    if e.Single? then [e.action] else e.actions
  }

  function Flatten(out: seq<FeedEntry>): seq<Action> {
    if out == [] then [] else Members(out[0]) + Flatten(out[1..])
  }

  // ---------- what the result has to be ----------

  /** A single, or a batch of at least `minBatch` batchable look-alikes described by its first member. */
  ghost predicate EntryOk(norm: Normalizer, minBatch: int, e: FeedEntry) {
    e.Batch? ==>
      && e.actions != [] && |e.actions| >= minBatch
      && e == MakeBatch(norm, e.actions)
      && forall k :: 0 <= k < |e.actions| ==> Batchable(e.actions[k]) && Alike(norm, e.actions[0], e.actions[k])
  }

  ghost predicate EntriesOk(norm: Normalizer, minBatch: int, out: seq<FeedEntry>) {
    forall n :: 0 <= n < |out| ==> EntryOk(norm, minBatch, out[n])
  }

  /** From `lo` on, `s` has a run of batchable look-alikes that cannot be extended on either side. */
  ghost predicate MaximalRun(norm: Normalizer, s: seq<Action>, lo: nat, run: seq<Action>) {
    && run != [] && lo + |run| <= |s| && (forall k :: 0 <= k < |run| ==> s[lo + k] == run[k])
    && Batchable(run[0])
    && (forall k :: 0 <= k < |run| ==> Alike(norm, run[0], run[k]))
    && (lo == 0 || !Alike(norm, s[lo - 1], run[0]))
    && (lo + |run| == |s| || !Alike(norm, run[0], s[lo + |run|]))
  }

  /** The entry at position `n` is a batch with the members `run`, and `lo` actions come before it. */
  ghost predicate BatchAt(out: seq<FeedEntry>, n: nat, lo: nat, run: seq<Action>) {
    n < |out| && out[n].Batch? && |Flatten(out[..n])| == lo && out[n].actions == run
  }

  ghost predicate HasBatch(out: seq<FeedEntry>, lo: nat, run: seq<Action>) {
    exists n: nat :: BatchAt(out, n, lo, run)
  }

  /** No maximal run of at least `minBatch` is left as singles. */
  ghost predicate Complete(norm: Normalizer, minBatch: int, s: seq<Action>, out: seq<FeedEntry>) {
    forall lo: nat, run :: MaximalRun(norm, s, lo, run) && |run| >= minBatch ==> HasBatch(out, lo, run)
  }

  ghost predicate IsBatching(norm: Normalizer, minBatch: int, s: seq<Action>, out: seq<FeedEntry>) {
    Flatten(out) == s && EntriesOk(norm, minBatch, out) && Complete(norm, minBatch, s, out)
  }

  // ---------- the computed result ----------

  /** The length of the maximal prefix of look-alikes. */
  function RunLength(norm: Normalizer, s: seq<Action>): (n: nat)
    requires s != []
    ensures 1 <= n <= |s|
  {
    var last := |s| - 1;
    if last == 0 then 1
    else
      var n := RunLength(norm, s[..last]);
      if n == last && Alike(norm, s[0], s[last]) then n + 1 else n
  }

  lemma {:induction false} RunLengthIsMaximal(norm: Normalizer, s: seq<Action>)
    requires s != []
    ensures forall k :: 0 <= k < RunLength(norm, s) ==> Alike(norm, s[0], s[k])
    ensures RunLength(norm, s) < |s| ==> !Alike(norm, s[0], s[RunLength(norm, s)])
  {
    if |s| > 1 {
      RunLengthIsMaximal(norm, s[..|s| - 1]);
    }
  }

  function Singles(run: seq<Action>): (out: seq<FeedEntry>)
    ensures |out| == |run|
    ensures forall k :: 0 <= k < |run| ==> out[k] == Single(run[k])
  {
    seq(|run|, k requires 0 <= k < |run| => Single(run[k]))
  }

  function Emit(norm: Normalizer, minBatch: int, run: seq<Action>): seq<FeedEntry>
    requires run != []
  {
    if |run| >= minBatch then [MakeBatch(norm, run)] else Singles(run)
  }

  /** The first segment: one action that is not batchable, or the first run. */
  function Cut(norm: Normalizer, s: seq<Action>): (n: nat)
    requires s != []
    ensures 1 <= n <= |s|
  {
    if Batchable(s[0]) then RunLength(norm, s) else 1
  }

  function FirstEntries(norm: Normalizer, minBatch: int, s: seq<Action>): seq<FeedEntry>
    requires s != []
  {
    if Batchable(s[0]) then Emit(norm, minBatch, s[..Cut(norm, s)]) else [Single(s[0])]
  }

  function Batches(norm: Normalizer, minBatch: int, s: seq<Action>): seq<FeedEntry> {
    if s == [] then [] else FirstEntries(norm, minBatch, s) + Batches(norm, minBatch, s[Cut(norm, s)..])
  }

  // ---------- flattening ----------

  lemma {:induction false} FlattenConcat(a: seq<FeedEntry>, b: seq<FeedEntry>)
    ensures Flatten(a + b) == Flatten(a) + Flatten(b)
  {
    if a == [] {
      assert a + b == b;
    } else {
      assert (a + b)[1..] == a[1..] + b;
      FlattenConcat(a[1..], b);
    }
  }

  lemma {:induction false} FlattenSingles(run: seq<Action>)
    ensures Flatten(Singles(run)) == run
  {
    if run != [] {
      assert Singles(run)[1..] == Singles(run[1..]);
      FlattenSingles(run[1..]);
    }
  }

  lemma FlattenOne(e: FeedEntry)
    ensures Flatten([e]) == Members(e)
  {
    assert [e][1..] == [];
  }

  lemma FirstEntriesFlatten(norm: Normalizer, minBatch: int, s: seq<Action>)
    requires s != []
    ensures Flatten(FirstEntries(norm, minBatch, s)) == s[..Cut(norm, s)]
  {
    var run := s[..Cut(norm, s)];
    if !Batchable(s[0]) {
      FlattenOne(Single(s[0]));
    } else if |run| >= minBatch {
      FlattenOne(MakeBatch(norm, run));
    } else {
      FlattenSingles(run);
    }
  }

  lemma FirstEntriesOk(norm: Normalizer, minBatch: int, s: seq<Action>)
    requires s != []
    ensures EntriesOk(norm, minBatch, FirstEntries(norm, minBatch, s))
  {
    RunLengthIsMaximal(norm, s);
  }

  lemma FlattenSplit(out: seq<FeedEntry>, n: nat)
    requires n <= |out|
    ensures Flatten(out) == Flatten(out[..n]) + Flatten(out[n..])
  {
    assert out == out[..n] + out[n..];
    FlattenConcat(out[..n], out[n..]);
  }

  /** Entries of an admissible result are not empty, so later entries start at later positions. */
  lemma OffsetsGrow(norm: Normalizer, minBatch: int, out: seq<FeedEntry>, m: nat, n: nat)
    requires EntriesOk(norm, minBatch, out) && m < n <= |out|
    ensures |Flatten(out[..m])| < |Flatten(out[..n])|
  {
    FlattenSplit(out[..n], m);
    assert out[..n][..m] == out[..m];
    var tail := out[..n][m..];
    assert tail[0] == out[m] && EntryOk(norm, minBatch, out[m]);
    assert |Members(tail[0])| > 0;
  }

  // ---------- correctness ----------

  lemma FrontRunIsSegment(norm: Normalizer, s: seq<Action>, run: seq<Action>)
    requires s != [] && MaximalRun(norm, s, 0, run)
    ensures Batchable(s[0]) && run == s[..Cut(norm, s)]
  {
    forall k | 0 <= k < |run|
      ensures s[k] == run[k] && Alike(norm, s[0], s[k])
    {
      assert s[0 + k] == run[k] && s[0 + 0] == run[0];
    }
    RunLengthIs(norm, s, |run|);
  }

  lemma LaterRunIsBehind(norm: Normalizer, s: seq<Action>, lo: nat, run: seq<Action>)
    requires s != [] && MaximalRun(norm, s, lo, run) && lo > 0
    ensures lo >= Cut(norm, s)
  {
    RunLengthIsMaximal(norm, s);
    assert s[lo + 0] == run[0];
  }

  /** `t` is what is left of `s` behind `n` actions. */
  predicate TailOf(s: seq<Action>, n: nat, t: seq<Action>) {
    |s| == n + |t| && forall k :: 0 <= k < |t| ==> s[n + k] == t[k]
  }

  lemma RunInTail(norm: Normalizer, s: seq<Action>, n: nat, t: seq<Action>, lo: nat, run: seq<Action>)
    requires TailOf(s, n, t) && MaximalRun(norm, s, n + lo, run)
    ensures MaximalRun(norm, t, lo, run)
  {
    forall k | 0 <= k < |run|
      ensures t[lo + k] == run[k]
    {
      assert s[n + (lo + k)] == t[lo + k] && s[n + lo + k] == run[k];
    }
    assert lo > 0 ==> s[n + (lo - 1)] == t[lo - 1];
    assert lo + |run| < |t| ==> s[n + (lo + |run|)] == t[lo + |run|];
  }

  /** The other way round, where no run continues into the tail. */
  lemma RunOfTail(norm: Normalizer, s: seq<Action>, n: nat, t: seq<Action>, lo: nat, run: seq<Action>)
    requires TailOf(s, n, t) && MaximalRun(norm, t, lo, run)
    requires 0 < n < |s| ==> !(Batchable(s[n]) && Alike(norm, s[n - 1], s[n]))
    ensures MaximalRun(norm, s, n + lo, run)
  {
    forall k | 0 <= k < |run|
      ensures s[n + lo + k] == run[k]
    {
      assert s[n + (lo + k)] == t[lo + k] && t[lo + k] == run[k];
    }
    assert lo == 0 ==> s[n + 0] == t[0] && t[0 + 0] == run[0];
    assert lo > 0 ==> s[n + (lo - 1)] == t[lo - 1];
    assert lo + |run| < |t| ==> s[n + (lo + |run|)] == t[lo + |run|];
  }

  /** One unfolding of `Batches`, with the pieces named. */
  lemma BatchesUnfold(norm: Normalizer, minBatch: int, s: seq<Action>, first: seq<FeedEntry>, rest: seq<FeedEntry>)
    requires s != [] && first == FirstEntries(norm, minBatch, s) && rest == Batches(norm, minBatch, s[Cut(norm, s)..])
    ensures Batches(norm, minBatch, s) == first + rest
  {
  }

  /** A run at the front that is long enough is the first entry. */
  lemma FrontRunIsBatch(norm: Normalizer, minBatch: int, s: seq<Action>, rest: seq<FeedEntry>)
    requires s != [] && Batchable(s[0]) && Cut(norm, s) >= minBatch
    ensures HasBatch(FirstEntries(norm, minBatch, s) + rest, 0, s[..Cut(norm, s)])
  {
    var out := FirstEntries(norm, minBatch, s) + rest;
    assert out[..0] == [];
    assert BatchAt(out, 0, 0, s[..Cut(norm, s)]);
  }

  lemma BatchAtShift(first: seq<FeedEntry>, rest: seq<FeedEntry>, k: nat, lo: nat, run: seq<Action>, at: nat)
    requires BatchAt(rest, k, lo, run) && at == |Flatten(first)| + lo
    ensures BatchAt(first + rest, |first| + k, at, run)
  {
    assert (first + rest)[..|first| + k] == first + rest[..k];
    FlattenConcat(first, rest[..k]);
  }

  /** What is batched in the rest is batched in the whole, behind the first entries. */
  lemma HasBatchShift(first: seq<FeedEntry>, rest: seq<FeedEntry>, lo: nat, run: seq<Action>, at: nat)
    requires HasBatch(rest, lo, run) && at == |Flatten(first)| + lo
    ensures HasBatch(first + rest, at, run)
  {
    var k: nat :| BatchAt(rest, k, lo, run);
    BatchAtShift(first, rest, k, lo, run, at);
  }

  lemma RunIsPlaced(norm: Normalizer, minBatch: int, s: seq<Action>, n: nat, t: seq<Action>, first: seq<FeedEntry>,
                    rest: seq<FeedEntry>, lo: nat, at: nat, run: seq<Action>)
    requires TailOf(s, n, t) && |Flatten(first)| == n && Complete(norm, minBatch, t, rest)
    requires MaximalRun(norm, s, lo, run) && |run| >= minBatch && lo == n + at
    ensures HasBatch(first + rest, lo, run)
  {
    RunInTail(norm, s, n, t, at, run);
    HasBatchShift(first, rest, at, run, lo);
  }

  lemma CompleteStep(norm: Normalizer, minBatch: int, s: seq<Action>, t: seq<Action>, first: seq<FeedEntry>,
                     rest: seq<FeedEntry>)
    requires s != [] && first == FirstEntries(norm, minBatch, s) && |Flatten(first)| == Cut(norm, s)
    requires TailOf(s, Cut(norm, s), t) && Complete(norm, minBatch, t, rest)
    ensures Complete(norm, minBatch, s, first + rest)
  {
    forall lo: nat, run | MaximalRun(norm, s, lo, run) && |run| >= minBatch
      ensures HasBatch(first + rest, lo, run)
    {
      if lo == 0 {
        FrontRunIsSegment(norm, s, run);
        FrontRunIsBatch(norm, minBatch, s, rest);
      } else {
        LaterRunIsBehind(norm, s, lo, run);
        RunIsPlaced(norm, minBatch, s, Cut(norm, s), t, first, rest, lo, lo - Cut(norm, s), run);
      }
    }
  }

  lemma {:induction false} BatchesComplete(norm: Normalizer, minBatch: int, s: seq<Action>)
    ensures Complete(norm, minBatch, s, Batches(norm, minBatch, s))
    decreases |s|
  {
    if s != [] {
      var first, rest := FirstEntries(norm, minBatch, s), Batches(norm, minBatch, s[Cut(norm, s)..]);
      FirstEntriesFlatten(norm, minBatch, s);
      BatchesComplete(norm, minBatch, s[Cut(norm, s)..]);
      CompleteStep(norm, minBatch, s, s[Cut(norm, s)..], first, rest);
      BatchesUnfold(norm, minBatch, s, first, rest);
    }
  }

  lemma FlattenPieces(first: seq<FeedEntry>, rest: seq<FeedEntry>, s: seq<Action>, n: nat)
    requires n <= |s| && Flatten(first) == s[..n] && Flatten(rest) == s[n..]
    ensures Flatten(first + rest) == s
  {
    FlattenConcat(first, rest);
    assert s == s[..n] + s[n..];
  }

  lemma {:induction false} BatchesFlatten(norm: Normalizer, minBatch: int, s: seq<Action>)
    ensures Flatten(Batches(norm, minBatch, s)) == s
    decreases |s|
  {
    if s != [] {
      var n := Cut(norm, s);
      var first, rest := FirstEntries(norm, minBatch, s), Batches(norm, minBatch, s[n..]);
      BatchesUnfold(norm, minBatch, s, first, rest);
      FirstEntriesFlatten(norm, minBatch, s);
      BatchesFlatten(norm, minBatch, s[n..]);
      FlattenPieces(first, rest, s, n);
    }
  }

  lemma {:induction false} BatchesEntriesOk(norm: Normalizer, minBatch: int, s: seq<Action>)
    ensures EntriesOk(norm, minBatch, Batches(norm, minBatch, s))
    decreases |s|
  {
    if s != [] {
      var n := Cut(norm, s);
      FirstEntriesOk(norm, minBatch, s);
      BatchesEntriesOk(norm, minBatch, s[n..]);
      EntriesConcat(norm, minBatch, FirstEntries(norm, minBatch, s), Batches(norm, minBatch, s[n..]));
    }
  }

  lemma EntriesConcat(norm: Normalizer, minBatch: int, a: seq<FeedEntry>, b: seq<FeedEntry>)
    requires EntriesOk(norm, minBatch, a) && EntriesOk(norm, minBatch, b)
    ensures EntriesOk(norm, minBatch, a + b)
  {
  }

  /** The computed result flattens to the input, batches only look-alikes, and batches every maximal run that is long
      enough. */
  lemma BatchesIsBatching(norm: Normalizer, minBatch: int, s: seq<Action>)
    ensures IsBatching(norm, minBatch, s, Batches(norm, minBatch, s))
  {
    BatchesFlatten(norm, minBatch, s);
    BatchesEntriesOk(norm, minBatch, s);
    BatchesComplete(norm, minBatch, s);
  }

  // ---------- uniqueness ----------

  lemma FlattenNonEmpty(norm: Normalizer, minBatch: int, out: seq<FeedEntry>)
    requires EntriesOk(norm, minBatch, out)
    ensures out != [] ==> Flatten(out) != [] && Members(out[0]) != [] && Flatten(out)[0] == Members(out[0])[0]
  {
    assert out != [] ==> EntryOk(norm, minBatch, out[0]);
  }

  lemma TakeDrop(out: seq<FeedEntry>, m: nat, q: nat)
    requires m <= q <= |out|
    ensures out[..q][..m] == out[..m] && out[..q][m..] == out[m..][..q - m]
  {
  }

  /** A batch that starts at or behind the cut is a batch of the rest. */
  lemma BatchAtTail(norm: Normalizer, minBatch: int, out: seq<FeedEntry>, m: nat, q: nat, lo: nat, run: seq<Action>,
                    at: nat)
    requires EntriesOk(norm, minBatch, out) && m <= |out| && |Flatten(out[..m])| + at == lo && BatchAt(out, q, lo, run)
    ensures m <= q && BatchAt(out[m..], q - m, at, run)
  {
    if q < m {
      OffsetsGrow(norm, minBatch, out, q, m);
    } else {
      TakeDrop(out, m, q);
      FlattenSplit(out[..q], m);
    }
  }

  lemma EntriesTail(norm: Normalizer, minBatch: int, out: seq<FeedEntry>, m: nat)
    requires EntriesOk(norm, minBatch, out) && m <= |out|
    ensures EntriesOk(norm, minBatch, out[m..])
  {
  }

  lemma HasBatchTail(norm: Normalizer, minBatch: int, out: seq<FeedEntry>, m: nat, lo: nat, run: seq<Action>, at: nat)
    requires EntriesOk(norm, minBatch, out) && m <= |out| && |Flatten(out[..m])| + at == lo && HasBatch(out, lo, run)
    ensures HasBatch(out[m..], at, run)
  {
    var q: nat :| BatchAt(out, q, lo, run);
    BatchAtTail(norm, minBatch, out, m, q, lo, run, at);
  }

  lemma TailRunIsBatched(norm: Normalizer, minBatch: int, s: seq<Action>, t: seq<Action>, out: seq<FeedEntry>,
                         m: nat, n: nat, lo: nat, run: seq<Action>)
    requires EntriesOk(norm, minBatch, out) && Complete(norm, minBatch, s, out)
    requires m <= |out| && |Flatten(out[..m])| == n && TailOf(s, n, t)
    requires 0 < n < |s| ==> !(Batchable(s[n]) && Alike(norm, s[n - 1], s[n]))
    requires MaximalRun(norm, t, lo, run) && |run| >= minBatch
    ensures HasBatch(out[m..], lo, run)
  {
    RunOfTail(norm, s, n, t, lo, run);
    HasBatchTail(norm, minBatch, out, m, n + lo, run, lo);
  }

  lemma TailComplete(norm: Normalizer, minBatch: int, s: seq<Action>, t: seq<Action>, out: seq<FeedEntry>, m: nat,
                     n: nat)
    requires EntriesOk(norm, minBatch, out) && Complete(norm, minBatch, s, out)
    requires m <= |out| && |Flatten(out[..m])| == n && TailOf(s, n, t)
    requires 0 < n < |s| ==> !(Batchable(s[n]) && Alike(norm, s[n - 1], s[n]))
    ensures Complete(norm, minBatch, t, out[m..])
  {
    forall lo: nat, run | MaximalRun(norm, t, lo, run) && |run| >= minBatch
      ensures HasBatch(out[m..], lo, run)
    {
      TailRunIsBatched(norm, minBatch, s, t, out, m, n, lo, run);
    }
  }

  /** Cutting a batching at a point where no run continues leaves a batching of the rest. */
  lemma TailIsBatching(norm: Normalizer, minBatch: int, s: seq<Action>, out: seq<FeedEntry>, m: nat, n: nat)
    requires IsBatching(norm, minBatch, s, out)
    requires m <= |out| && n <= |s| && Flatten(out[..m]) == s[..n]
    requires 0 < n < |s| ==> !(Batchable(s[n]) && Alike(norm, s[n - 1], s[n]))
    ensures IsBatching(norm, minBatch, s[n..], out[m..])
  {
    EntriesTail(norm, minBatch, out, m);
    FlattenTail(s, out, m, n);
    TailComplete(norm, minBatch, s, s[n..], out, m, n);
  }

  lemma FlattenTail(s: seq<Action>, out: seq<FeedEntry>, m: nat, n: nat)
    requires m <= |out| && n <= |s| && Flatten(out) == s && Flatten(out[..m]) == s[..n]
    ensures Flatten(out[m..]) == s[n..]
  {
    FlattenSplit(out, m);
    assert s == s[..n] + Flatten(out[m..]);
  }

  lemma RunLengthAtLeast(norm: Normalizer, s: seq<Action>, m: nat)
    requires s != [] && m <= |s| && forall k :: 0 <= k < m ==> Alike(norm, s[0], s[k])
    ensures m <= RunLength(norm, s)
  {
    RunLengthIsMaximal(norm, s);
  }

  /** A batch within a run is not longer than the run. */
  lemma BatchWithinRun(norm: Normalizer, s: seq<Action>, k: nat, e: FeedEntry, rest: seq<Action>)
    requires s != [] && k < RunLength(norm, s) && e.Batch? && e.actions != []
    requires forall j :: 0 <= j < |e.actions| ==> Alike(norm, e.actions[0], e.actions[j])
    requires s[k..] == e.actions + rest
    ensures k + |e.actions| <= RunLength(norm, s)
  {
    RunLengthIsMaximal(norm, s);
    forall j | 0 <= j < k + |e.actions|
      ensures Alike(norm, s[0], s[j])
    {
      if j >= k {
        assert s[j] == s[k..][j - k] == e.actions[j - k];
        assert s[k] == s[k..][0] == e.actions[0];
        assert Alike(norm, s[0], s[k]);
      }
    }
    RunLengthAtLeast(norm, s, k + |e.actions|);
  }

  /** Within a run that is too short to be batched the next entry is a single. */
  lemma NextIsSingle(norm: Normalizer, minBatch: int, s: seq<Action>, k: nat, tail: seq<FeedEntry>)
    requires s != [] && k < RunLength(norm, s) < minBatch
    requires Flatten(tail) == s[k..] && EntriesOk(norm, minBatch, tail)
    ensures tail != [] && tail[0] == Single(s[k])
  {
    assert tail != [];
    FlattenNonEmpty(norm, minBatch, tail);
    assert EntryOk(norm, minBatch, tail[0]);
    if tail[0].Batch? {
      BatchWithinRun(norm, s, k, tail[0], Flatten(tail[1..]));
    }
  }

  lemma OneMoreSingle(s: seq<Action>, out: seq<FeedEntry>, k: nat)
    requires k < |out| && k < |s| && out[..k] == Singles(s[..k]) && out[k..][0] == Single(s[k])
    ensures out[..k + 1] == Singles(s[..k + 1]) && Flatten(out[..k + 1]) == s[..k + 1]
  {
    assert out[..k + 1] == out[..k] + [out[k..][0]];
    assert Singles(s[..k + 1]) == Singles(s[..k]) + [Single(s[k])];
    FlattenSingles(s[..k + 1]);
  }

  /** Where the run at the front is too short to be batched, every result starts with singles. */
  lemma {:induction false} ShortRunStaysSingle(norm: Normalizer, minBatch: int, s: seq<Action>, out: seq<FeedEntry>,
                                               k: nat)
    requires Flatten(out) == s && EntriesOk(norm, minBatch, out)
    requires s != [] && k <= RunLength(norm, s) < minBatch
    ensures k <= |out| && out[..k] == Singles(s[..k]) && Flatten(out[..k]) == s[..k]
  {
    if k > 0 {
      ShortRunStaysSingle(norm, minBatch, s, out, k - 1);
      FlattenTail(s, out, k - 1, k - 1);
      EntriesTail(norm, minBatch, out, k - 1);
      NextIsSingle(norm, minBatch, s, k - 1, out[k - 1..]);
      OneMoreSingle(s, out, k - 1);
    }
  }

  lemma {:induction false} BatchingIsUnique(norm: Normalizer, minBatch: int, s: seq<Action>, out: seq<FeedEntry>)
    requires IsBatching(norm, minBatch, s, out)
    ensures out == Batches(norm, minBatch, s)
    decreases |s|
  {
    FlattenNonEmpty(norm, minBatch, out);
    if s != [] {
      var m := FirstSegment(norm, minBatch, s, out);
      var n := Cut(norm, s);
      TailIsBatching(norm, minBatch, s, out, m, n);
      BatchingIsUnique(norm, minBatch, s[n..], out[m..]);
      assert out == out[..m] + out[m..];
    }
  }

  /** The entries every result has for the first segment of the input. */
  lemma FirstSegment(norm: Normalizer, minBatch: int, s: seq<Action>, out: seq<FeedEntry>) returns (m: nat)
    requires IsBatching(norm, minBatch, s, out) && s != []
    ensures m <= |out| && out[..m] == FirstEntries(norm, minBatch, s) && Flatten(out[..m]) == s[..Cut(norm, s)]
    ensures var n := Cut(norm, s); n < |s| ==> !(Batchable(s[n]) && Alike(norm, s[n - 1], s[n]))
  {
    var n := Cut(norm, s);
    FlattenNonEmpty(norm, minBatch, out);
    FirstEntriesFlatten(norm, minBatch, s);
    RunLengthIsMaximal(norm, s);
    assert Batchable(s[0]) ==> Alike(norm, s[0], s[n - 1]);
    assert out != [] && EntryOk(norm, minBatch, out[0]);
    if !Batchable(s[0]) {
      m := 1;
      assert out[..1] == [Single(s[0])];
    } else if n >= minBatch {
      m := 1;
      assert MaximalRun(norm, s, 0, s[..n]);
      var q: nat :| BatchAt(out, q, 0, s[..n]);
      if q > 0 { OffsetsGrow(norm, minBatch, out, 0, q); }
      assert out[..1] == [MakeBatch(norm, s[..n])];
    } else {
      m := n;
      ShortRunStaysSingle(norm, minBatch, s, out, n);
    }
  }

  // ---------- splitting the input ----------

  /** The length of the last segment: the trailing run, or one action that is not batchable. */
  function LastSegment(norm: Normalizer, s: seq<Action>): nat
    requires s != []
  {
    if Cut(norm, s) == |s| then |s| else LastSegment(norm, s[Cut(norm, s)..])
  }

  /** A run continues from the end of `s` into `t`. */
  predicate Joined(norm: Normalizer, s: seq<Action>, t: seq<Action>)
    requires s != [] && t != []
  {
    Batchable(t[0]) && Alike(norm, s[|s| - 1], t[0])
  }

  lemma CutOfConcat(norm: Normalizer, s: seq<Action>, t: seq<Action>)
    requires s != [] && t != []
    ensures Cut(norm, s) < |s| || !Joined(norm, s, t) ==> Cut(norm, s + t) == Cut(norm, s)
    ensures Cut(norm, s) == |s| && Joined(norm, s, t) ==>
              Batchable(s[0]) && Cut(norm, s + t) == |s| + RunLength(norm, t)
  {
    var n := Cut(norm, s);
    var w := s + t;
    assert w[0] == s[0];
    RunLengthIsMaximal(norm, s);
    RunLengthIsMaximal(norm, t);
    if Batchable(s[0]) {
      assert Alike(norm, s[0], s[n - 1]);
      if n < |s| || !Joined(norm, s, t) {
        assert n < |s| ==> w[n] == s[n];
        assert n == |s| ==> w[n] == t[0];
        RunLengthIs(norm, w, n);
      } else {
        var q := RunLength(norm, t);
        assert Alike(norm, t[0], s[|s| - 1]);
        forall k | 0 <= k < n + q
          ensures Alike(norm, w[0], w[k])
        {
          if k >= n { assert w[k] == t[k - n]; }
        }
        assert n + q < |w| ==> w[n + q] == t[q];
        RunLengthIs(norm, w, n + q);
      }
    }
  }

  /** One unfolding of `Batches`, with the pieces named. */
  lemma BatchesStep(norm: Normalizer, minBatch: int, w: seq<Action>, run: seq<Action>, rest: seq<Action>)
    requires w == run + rest && run != [] && Cut(norm, w) == |run|
    ensures Batches(norm, minBatch, w)
         == (if Batchable(w[0]) then Emit(norm, minBatch, run) else [Single(w[0])]) + Batches(norm, minBatch, rest)
  {
    assert w[..|run|] == run && w[|run|..] == rest;
  }

  lemma OneSegment(norm: Normalizer, minBatch: int, s: seq<Action>)
    requires s != [] && Cut(norm, s) == |s|
    ensures Batches(norm, minBatch, s) == if Batchable(s[0]) then Emit(norm, minBatch, s) else [Single(s[0])]
  {
    assert s == s + [];
    BatchesStep(norm, minBatch, s, s, []);
  }

  lemma SeparateSegments(norm: Normalizer, minBatch: int, s: seq<Action>, t: seq<Action>)
    requires s != [] && t != [] && Cut(norm, s) == |s| && !Joined(norm, s, t)
    ensures Batches(norm, minBatch, s + t) == Batches(norm, minBatch, s) + Batches(norm, minBatch, t)
  {
    CutOfConcat(norm, s, t);
    OneSegment(norm, minBatch, s);
    BatchesStep(norm, minBatch, s + t, s, t);
  }

  lemma JoinedSegments(norm: Normalizer, minBatch: int, s: seq<Action>, t: seq<Action>)
    requires s != [] && t != [] && Cut(norm, s) == |s| && Joined(norm, s, t)
    ensures Batches(norm, minBatch, s + t) == Batches(norm, minBatch, s) + Batches(norm, minBatch, t)
       <==> |s| + RunLength(norm, t) < minBatch
  {
    var q := RunLength(norm, t);
    CutOfConcat(norm, s, t);
    OneSegment(norm, minBatch, s);
    assert t == t[..q] + t[q..];
    JoinedPieces(norm, minBatch, s, t, t[..q], t[q..]);
  }

  lemma JoinedPieces(norm: Normalizer, minBatch: int, s: seq<Action>, t: seq<Action>, front: seq<Action>,
                     rest: seq<Action>)
    requires s != [] && front != [] && t == front + rest && Batchable(s[0]) && Batchable(front[0])
    requires Cut(norm, t) == |front| && Cut(norm, s + t) == |s| + |front|
    requires Batches(norm, minBatch, s) == Emit(norm, minBatch, s)
    ensures Batches(norm, minBatch, s + t) == Batches(norm, minBatch, s) + Batches(norm, minBatch, t)
       <==> |s| + |front| < minBatch
  {
    assert s + t == (s + front) + rest;
    BatchesStep(norm, minBatch, t, front, rest);
    BatchesStep(norm, minBatch, s + t, s + front, rest);
    EmitJoined(norm, minBatch, s, front, Batches(norm, minBatch, rest));
  }

  /** A joined run is emitted like its two parts exactly when even the whole is too short to be batched. */
  lemma EmitJoined(norm: Normalizer, minBatch: int, a: seq<Action>, b: seq<Action>, rest: seq<FeedEntry>)
    requires a != [] && b != []
    ensures Emit(norm, minBatch, a + b) + rest == Emit(norm, minBatch, a) + (Emit(norm, minBatch, b) + rest)
       <==> |a| + |b| < minBatch
  {
    if |a| + |b| < minBatch {
      assert Singles(a + b) == Singles(a) + Singles(b);
    } else {
      assert (Emit(norm, minBatch, a + b) + rest)[0] == MakeBatch(norm, a + b);
      assert (Emit(norm, minBatch, a) + (Emit(norm, minBatch, b) + rest))[0] == Emit(norm, minBatch, a)[0];
      assert Emit(norm, minBatch, a)[0].Batch? ==> |Emit(norm, minBatch, a)[0].actions| < |a + b|;
    }
  }

  /** Batching distributes over the concatenation. */
  predicate Distributes(norm: Normalizer, minBatch: int, s: seq<Action>, t: seq<Action>) {
    Batches(norm, minBatch, s + t) == Batches(norm, minBatch, s) + Batches(norm, minBatch, t)
  }

  /** The first segment of several does not matter for distributing. */
  lemma LaterSegmentsDecide(norm: Normalizer, minBatch: int, s: seq<Action>, run: seq<Action>, u: seq<Action>,
                            t: seq<Action>)
    requires run != [] && u != [] && t != [] && s == run + u && Cut(norm, s) == |run|
    ensures Distributes(norm, minBatch, s, t) <==> Distributes(norm, minBatch, u, t)
  {
    CutOfConcat(norm, s, t);
    assert s + t == run + (u + t);
    BatchesStep(norm, minBatch, s, run, u);
    BatchesStep(norm, minBatch, s + t, run, u + t);
    PrefixCancels(if Batchable(s[0]) then Emit(norm, minBatch, run) else [Single(s[0])],
                  Batches(norm, minBatch, u + t), Batches(norm, minBatch, u), Batches(norm, minBatch, t));
  }

  lemma TailDecides(norm: Normalizer, minBatch: int, s: seq<Action>, u: seq<Action>, t: seq<Action>)
    requires s != [] && t != [] && Cut(norm, s) < |s| && u == s[Cut(norm, s)..]
    ensures Distributes(norm, minBatch, s, t) <==> Distributes(norm, minBatch, u, t)
  {
    assert s == s[..Cut(norm, s)] + u;
    LaterSegmentsDecide(norm, minBatch, s, s[..Cut(norm, s)], u, t);
  }

  /** No run crosses the boundary, or the one that does is too short to be batched even as a whole. */
  predicate Separable(norm: Normalizer, minBatch: int, s: seq<Action>, t: seq<Action>)
    requires s != [] && t != []
  {
    !Joined(norm, s, t) || LastSegment(norm, s) + RunLength(norm, t) < minBatch
  }

  lemma LaterSegmentsSeparable(norm: Normalizer, minBatch: int, s: seq<Action>, u: seq<Action>, t: seq<Action>)
    requires s != [] && t != [] && Cut(norm, s) < |s| && u == s[Cut(norm, s)..]
    ensures Separable(norm, minBatch, s, t) <==> Separable(norm, minBatch, u, t)
  {
    assert s[|s| - 1] == u[|u| - 1];
  }

  lemma OneSegmentDistributesIff(norm: Normalizer, minBatch: int, s: seq<Action>, t: seq<Action>)
    requires s != [] && t != [] && Cut(norm, s) == |s|
    ensures Distributes(norm, minBatch, s, t) <==> Separable(norm, minBatch, s, t)
  {
    if Joined(norm, s, t) { JoinedSegments(norm, minBatch, s, t); } else { SeparateSegments(norm, minBatch, s, t); }
  }

  /** Batching distributes over concatenation exactly when the parts are separable. */
  lemma {:induction false} DistributesIff(norm: Normalizer, minBatch: int, s: seq<Action>, t: seq<Action>)
    requires s != [] && t != []
    ensures Distributes(norm, minBatch, s, t) <==> Separable(norm, minBatch, s, t)
    decreases |s|
  {
    if Cut(norm, s) == |s| {
      OneSegmentDistributesIff(norm, minBatch, s, t);
    } else {
      var u := s[Cut(norm, s)..];
      DistributesIff(norm, minBatch, u, t);
      TailDecides(norm, minBatch, s, u, t);
      LaterSegmentsSeparable(norm, minBatch, s, u, t);
    }
  }

  lemma PrefixCancels(first: seq<FeedEntry>, a: seq<FeedEntry>, b: seq<FeedEntry>, c: seq<FeedEntry>)
    ensures first + a == (first + b) + c <==> a == b + c
  {
    assert (first + b) + c == first + (b + c);
    if first + a == first + (b + c) {
      assert a == (first + a)[|first|..] == (first + (b + c))[|first|..] == b + c;
    }
  }

  // ---------- the result in terms of the actions ----------

  /** The same first ten characters, or the same shorter date. */
  predicate SameDay(a: string, b: string) {
    if |a| >= 10 && |b| >= 10 then a[..10] == b[..10] else a == b
  }

  /** What a reader of the feed takes for repetitions of one entry. */
  predicate Repeats(norm: Normalizer, a: Action, b: Action) {
    && a.actionType == b.actionType && SameDay(a.date, b.date) && norm(a.text) == norm(b.text)
    && a.actionType in {"engrossment", "enrollment", "committee_report", "amendment"}
  }

  lemma RepeatsIffAlike(norm: Normalizer, a: Action, b: Action)
    ensures Repeats(norm, a, b) <==> Batchable(a) && Alike(norm, a, b)
  {
    assert |Day(a.date)| < 10 ==> |a.date| < 10;
    assert |Day(b.date)| < 10 ==> |b.date| < 10;
    assert |a.date| == 10 ==> a.date[..10] == a.date;
    assert |b.date| == 10 ==> b.date[..10] == b.date;
  }

  /** A batch has at least `minBatch` members, which repeat its first one; it shows the type and the date of that one
      and the normalised text, or a substitute where that is empty. */
  predicate ShowsRepeats(norm: Normalizer, minBatch: int, e: FeedEntry) {
    e.Batch? ==>
      && e.actions != [] && |e.actions| >= minBatch
      && (forall k :: 0 <= k < |e.actions| ==> Repeats(norm, e.actions[0], e.actions[k]))
      && e.actionType == e.actions[0].actionType && e.date == e.actions[0].date
      && e.verdict == if norm(e.actions[0].text) == "" then "(no recorded verdict)" else norm(e.actions[0].text)
  }

  lemma ShowsRepeatsIff(norm: Normalizer, minBatch: int, e: FeedEntry)
    ensures ShowsRepeats(norm, minBatch, e) <==> EntryOk(norm, minBatch, e)
  {
    if e.Batch? && e.actions != [] {
      forall k | 0 <= k < |e.actions|
        ensures Repeats(norm, e.actions[0], e.actions[k])
           <==> Batchable(e.actions[0]) && Alike(norm, e.actions[0], e.actions[k])
      {
        RepeatsIffAlike(norm, e.actions[0], e.actions[k]);
      }
    }
  }

  /** The stretch of look-alikes from `lo` to `hi`, extended to the left as far as it goes. */
  lemma {:induction false} ExtendLeft(norm: Normalizer, s: seq<Action>, lo: nat, hi: nat) returns (a: nat)
    requires lo < hi <= |s| && forall k :: lo <= k < hi ==> Alike(norm, s[lo], s[k])
    ensures a <= lo && forall k :: a <= k < hi ==> Alike(norm, s[a], s[k])
    ensures a == 0 || !Alike(norm, s[a - 1], s[a])
  {
    a := lo;
    if lo > 0 && Alike(norm, s[lo - 1], s[lo]) {
      a := ExtendLeft(norm, s, lo - 1, hi);
    }
  }

  lemma {:induction false} ExtendRight(norm: Normalizer, s: seq<Action>, lo: nat, hi: nat) returns (b: nat)
    requires lo < hi <= |s| && forall k :: lo <= k < hi ==> Alike(norm, s[lo], s[k])
    ensures hi <= b <= |s| && forall k :: lo <= k < b ==> Alike(norm, s[lo], s[k])
    ensures b == |s| || !Alike(norm, s[lo], s[b])
    decreases |s| - hi
  {
    b := hi;
    if hi < |s| && Alike(norm, s[lo], s[hi]) {
      b := ExtendRight(norm, s, lo, hi + 1);
    }
  }

  /** The entry at position `n` is a batch that covers the actions from `lo` to `hi`. */
  ghost predicate CoveredBy(out: seq<FeedEntry>, n: nat, lo: nat, hi: nat) {
    n < |out| && out[n].Batch? && |Flatten(out[..n])| <= lo && hi <= |Flatten(out[..n])| + |out[n].actions|
  }

  /** At least `minBatch` neighbouring actions, from `lo` to `hi`, that repeat each other. */
  predicate RepeatRun(norm: Normalizer, minBatch: int, s: seq<Action>, lo: nat, hi: nat) {
    lo < hi <= |s| && hi - lo >= minBatch && forall k :: lo <= k < hi ==> Repeats(norm, s[lo], s[k])
  }

  ghost predicate Covered(out: seq<FeedEntry>, lo: nat, hi: nat) {
    exists n: nat :: CoveredBy(out, n, lo, hi)
  }

  /** The result as a reader sees it: all actions in their order, batches of repetitions, and every long enough run of
      repetitions within one batch. */
  ghost predicate ReadsAsBatching(norm: Normalizer, minBatch: int, s: seq<Action>, out: seq<FeedEntry>) {
    && Flatten(out) == s
    && (forall n :: 0 <= n < |out| ==> ShowsRepeats(norm, minBatch, out[n]))
    && (forall lo: nat, hi: nat :: RepeatRun(norm, minBatch, s, lo, hi) ==> Covered(out, lo, hi))
  }

  lemma AllAlike(norm: Normalizer, minBatch: int, s: seq<Action>, lo: nat, hi: nat)
    requires RepeatRun(norm, minBatch, s, lo, hi)
    ensures Batchable(s[lo]) && forall k :: lo <= k < hi ==> Alike(norm, s[lo], s[k])
  {
    forall k | lo <= k < hi
      ensures Batchable(s[lo]) && Alike(norm, s[lo], s[k])
    {
      RepeatsIffAlike(norm, s[lo], s[k]);
    }
    assert Repeats(norm, s[lo], s[lo]);
    RepeatsIffAlike(norm, s[lo], s[lo]);
  }

  /** A stretch of look-alikes lies in a maximal run. */
  lemma RunAround(norm: Normalizer, s: seq<Action>, lo: nat, hi: nat) returns (a: nat, b: nat)
    requires lo < hi <= |s| && Batchable(s[lo]) && forall k :: lo <= k < hi ==> Alike(norm, s[lo], s[k])
    ensures a <= lo && hi <= b <= |s| && MaximalRun(norm, s, a, s[a..b])
  {
    a := ExtendLeft(norm, s, lo, hi);
    b := ExtendRight(norm, s, a, hi);
    assert Alike(norm, s[a], s[lo]);
  }

  /** Neighbouring repetitions are all in one batch. */
  lemma RepeatsAreBatched(norm: Normalizer, minBatch: int, s: seq<Action>, out: seq<FeedEntry>, lo: nat, hi: nat)
    requires IsBatching(norm, minBatch, s, out) && RepeatRun(norm, minBatch, s, lo, hi)
    ensures Covered(out, lo, hi)
  {
    AllAlike(norm, minBatch, s, lo, hi);
    var a, b := RunAround(norm, s, lo, hi);
    assert HasBatch(out, a, s[a..b]);
    var n: nat :| BatchAt(out, n, a, s[a..b]);
    assert CoveredBy(out, n, lo, hi);
  }

  /** Where the members of an entry stand in the list. */
  lemma MembersInPlace(s: seq<Action>, out: seq<FeedEntry>, n: nat)
    requires Flatten(out) == s && n < |out|
    ensures StandsAt(s, |Flatten(out[..n])|, Members(out[n]))
  {
    assert out == out[..n] + ([out[n]] + out[n + 1..]);
    FlattenConcat(out[..n], [out[n]] + out[n + 1..]);
    FlattenConcat([out[n]], out[n + 1..]);
    FlattenOne(out[n]);
  }

  /** The members stand in the list from `p` on. */
  predicate StandsAt(s: seq<Action>, p: nat, members: seq<Action>) {
    p + |members| <= |s| && forall k :: 0 <= k < |members| ==> s[p + k] == members[k]
  }

  predicate AllLike(norm: Normalizer, s: seq<Action>, p: nat, q: nat, x: Action) {
    q <= |s| && forall j :: p <= j < q ==> Alike(norm, x, s[j])
  }

  lemma LikeInPlace(norm: Normalizer, s: seq<Action>, p: nat, members: seq<Action>, x: Action)
    requires StandsAt(s, p, members) && forall k :: 0 <= k < |members| ==> Alike(norm, x, members[k])
    ensures AllLike(norm, s, p, p + |members|, x)
  {
    forall j | p <= j < p + |members|
      ensures Alike(norm, x, s[j])
    {
      assert s[p + (j - p)] == members[j - p];
    }
  }

  /** Look-alikes around a maximal run are just this run. */
  lemma NotLonger(norm: Normalizer, s: seq<Action>, lo: nat, run: seq<Action>, p: nat, q: nat, x: Action)
    requires MaximalRun(norm, s, lo, run) && p <= lo && lo + |run| <= q && AllLike(norm, s, p, q, x)
    ensures p == lo && q == lo + |run|
  {
    assert s[lo + 0] == run[0];
    assert lo == 0 || !Alike(norm, s[lo - 1], run[0]);
    assert lo + |run| == |s| || !Alike(norm, run[0], s[lo + |run|]);
  }

  lemma SameMembers(s: seq<Action>, lo: nat, members: seq<Action>, run: seq<Action>)
    requires |members| == |run| && StandsAt(s, lo, members) && StandsAt(s, lo, run)
    ensures members == run
  {
    forall k | 0 <= k < |run|
      ensures members[k] == run[k]
    {
      assert s[lo + k] == run[k];
    }
  }

  lemma RunStands(norm: Normalizer, s: seq<Action>, lo: nat, run: seq<Action>, members: seq<Action>, p: nat)
    requires MaximalRun(norm, s, lo, run) && members != [] && StandsAt(s, p, members)
    requires p <= lo && lo + |run| <= p + |members|
    requires forall k :: 0 <= k < |members| ==> Alike(norm, members[0], members[k])
    ensures p == lo && members == run
  {
    LikeInPlace(norm, s, p, members, members[0]);
    NotLonger(norm, s, lo, run, p, p + |members|, members[0]);
    SameMembers(s, lo, members, run);
  }

  /** A batch of look-alikes that covers a maximal run has just its members. */
  lemma CoversExactly(norm: Normalizer, minBatch: int, s: seq<Action>, out: seq<FeedEntry>, n: nat, lo: nat,
                      run: seq<Action>)
    requires Flatten(out) == s && MaximalRun(norm, s, lo, run) && CoveredBy(out, n, lo, lo + |run|)
    requires EntryOk(norm, minBatch, out[n])
    ensures BatchAt(out, n, lo, run)
  {
    MembersInPlace(s, out, n);
    RunStands(norm, s, lo, run, out[n].actions, |Flatten(out[..n])|);
  }

  lemma RunRepeats(norm: Normalizer, minBatch: int, s: seq<Action>, lo: nat, run: seq<Action>)
    requires MaximalRun(norm, s, lo, run) && |run| >= minBatch
    ensures RepeatRun(norm, minBatch, s, lo, lo + |run|)
  {
    assert s[lo] == run[0];
    forall k | lo <= k < lo + |run|
      ensures Repeats(norm, s[lo], s[k])
    {
      assert s[lo + (k - lo)] == run[k - lo];
      RepeatsIffAlike(norm, s[lo], s[k]);
    }
  }

  lemma ReadsIff(norm: Normalizer, minBatch: int, s: seq<Action>, out: seq<FeedEntry>)
    ensures ReadsAsBatching(norm, minBatch, s, out) <==> IsBatching(norm, minBatch, s, out)
  {
    forall n | 0 <= n < |out|
      ensures ShowsRepeats(norm, minBatch, out[n]) <==> EntryOk(norm, minBatch, out[n])
    {
      ShowsRepeatsIff(norm, minBatch, out[n]);
    }
    if IsBatching(norm, minBatch, s, out) {
      forall lo: nat, hi: nat | RepeatRun(norm, minBatch, s, lo, hi)
        ensures Covered(out, lo, hi)
      {
        RepeatsAreBatched(norm, minBatch, s, out, lo, hi);
      }
    }
    if ReadsAsBatching(norm, minBatch, s, out) {
      forall lo: nat, run | MaximalRun(norm, s, lo, run) && |run| >= minBatch
        ensures HasBatch(out, lo, run)
      {
        RunRepeats(norm, minBatch, s, lo, run);
        assert Covered(out, lo, lo + |run|);
        var n: nat :| CoveredBy(out, n, lo, lo + |run|);
        CoversExactly(norm, minBatch, s, out, n, lo, run);
      }
    }
  }

  /** `groupBillBatches` computes the one list with these properties: in terms of maximal runs, and as a reader sees
      them. */
  lemma BatchingCharacterised(norm: Normalizer, minBatch: int, s: seq<Action>, out: seq<FeedEntry>)
    ensures IsBatching(norm, minBatch, s, out) <==> out == Batches(norm, minBatch, s)
    ensures ReadsAsBatching(norm, minBatch, s, out) <==> out == Batches(norm, minBatch, s)
  {
    BatchesIsBatching(norm, minBatch, s);
    if IsBatching(norm, minBatch, s, out) {
      BatchingIsUnique(norm, minBatch, s, out);
    }
    ReadsIff(norm, minBatch, s, out);
  }

  // ---------- the loops ----------

  /** The inner loop: the run that starts at `i`. */
  method CollectRun(norm: Normalizer, actions: seq<Action>, i: nat) returns (run: seq<Action>, j: nat)
    requires i < |actions|
    ensures i < j <= |actions| && run == actions[i..j] && RunLength(norm, actions[i..]) == j - i
  {
    var a := actions[i];
    var dateKey := Day(a.date);
    var verdictKey := norm(a.text);
    run := [a];
    j := i + 1;
    while j < |actions|
      invariant i < j <= |actions|
      invariant run == actions[i..j]
      invariant forall k :: i <= k < j ==> Alike(norm, a, actions[k])
    {
      var b := actions[j];
      if b.actionType != a.actionType || Day(b.date) != dateKey || norm(b.text) != verdictKey {
        break;
      }
      run := run + [b];
      j := j + 1;
    }
    RunLengthIs(norm, actions[i..], j - i);
  }

  method GroupBillBatches(norm: Normalizer, actions: seq<Action>, minBatch: int := 3) returns (out: seq<FeedEntry>)
    ensures out == Batches(norm, minBatch, actions)
    ensures ReadsAsBatching(norm, minBatch, actions, out)
  {
    BatchingCharacterised(norm, minBatch, actions, Batches(norm, minBatch, actions));
    ghost var whole := Batches(norm, minBatch, actions);
    out := [];
    var i := 0;
    while i < |actions|
      invariant 0 <= i <= |actions|
      invariant whole == out + Batches(norm, minBatch, actions[i..])
    {
      var a := actions[i];
      if !Batchable(a) {
        Unfold(norm, minBatch, actions, i, i + 1, out, whole);
        out := out + [Single(a)];
        i := i + 1;
        continue;
      }
      var run, j := CollectRun(norm, actions, i);
      Unfold(norm, minBatch, actions, i, j, out, whole);
      if |run| >= minBatch {
        out := out + [Batch(a.actionType, a.date, if norm(a.text) != "" then norm(a.text) else NO_VERDICT, run)];
      } else {
        out := AppendSingles(out, run);
      }
      i := j;
    }
  }

  lemma Unfold(norm: Normalizer, minBatch: int, s: seq<Action>, i: nat, j: nat, before: seq<FeedEntry>,
               whole: seq<FeedEntry>)
    requires i < j <= |s| && Cut(norm, s[i..]) == j - i
    requires whole == before + Batches(norm, minBatch, s[i..])
    ensures var more := if Batchable(s[i]) then Emit(norm, minBatch, s[i..j]) else [Single(s[i])];
            whole == (before + more) + Batches(norm, minBatch, s[j..])
  {
    assert s[i..] == s[i..j] + s[j..];
    BatchesStep(norm, minBatch, s[i..], s[i..j], s[j..]);
    Regroup(before, if Batchable(s[i]) then Emit(norm, minBatch, s[i..j]) else [Single(s[i])],
            Batches(norm, minBatch, s[j..]));
  }

  lemma Regroup(a: seq<FeedEntry>, b: seq<FeedEntry>, c: seq<FeedEntry>)
    ensures a + (b + c) == (a + b) + c
  {
  }

  method AppendSingles(before: seq<FeedEntry>, run: seq<Action>) returns (out: seq<FeedEntry>)
    ensures out == before + Singles(run)
  {
    out := before;
    for r := 0 to |run|
      invariant out == before + Singles(run[..r])
    {
      out := out + [Single(run[r])];
      assert Singles(run[..r + 1]) == Singles(run[..r]) + [Single(run[r])];
    }
    assert run[..|run|] == run;
  }

  lemma RunLengthIs(norm: Normalizer, s: seq<Action>, n: nat)
    requires 0 < n <= |s|
    requires forall k :: 0 <= k < n ==> Alike(norm, s[0], s[k])
    requires n < |s| ==> !Alike(norm, s[0], s[n])
    ensures n == RunLength(norm, s)
  {
    RunLengthIsMaximal(norm, s);
  }
}
