/** Grouping the activity feed by action type: buckets in order of first appearance, then a stable sort. */
module FeedGroups {
  import opened FeedBatches

  datatype Group = Group(actionType: string, title: string, items: seq<Action>)

  const TYPE_ORDER := map[
    "committee_hearing" := 1, "committee_report" := 2, "amendment" := 3, "resolution" := 4, "engrossment" := 5,
    "enrollment" := 6, "vote" := 7, "speech" := 8, "presence" := 9]

  function SortKey(actionType: string): int {
    if actionType in TYPE_ORDER then TYPE_ORDER[actionType] else 99
  }

  const PUNCH_BY_TYPE := map[
    "presence" := "Attendance", "committee_hearing" := "Committee hearing", "committee_report" := "Committee report",
    "amendment" := "Amendment", "engrossment" := "Bill engrossed", "enrollment" := "Bill enrolled",
    "resolution" := "Resolution introduced", "vote" := "Floor vote", "speech" := "Floor speech"]

  function LabelOf(actionType: string): string {
    if actionType in PUNCH_BY_TYPE then PUNCH_BY_TYPE[actionType] else actionType
  }

  // ---------- what a grouping is ----------

  function Filter(t: string, s: seq<Action>): seq<Action> {
    if s == [] then []
    else
      var last := s[|s| - 1];
      if last.actionType == t then Filter(t, s[..|s| - 1]) + [last] else Filter(t, s[..|s| - 1])
  }

  /** Where a type first appears; the length of the list if it does not. */
  function FirstIndex(t: string, s: seq<Action>): (n: nat)
    ensures n <= |s|
    ensures n < |s| ==> s[n].actionType == t
    ensures forall k :: 0 <= k < n ==> s[k].actionType != t
  {
    if s == [] then 0
    else
      var n := FirstIndex(t, s[..|s| - 1]);
      if n < |s| - 1 || s[|s| - 1].actionType == t then n else |s|
  }

  predicate Appears(t: string, s: seq<Action>) {
    FirstIndex(t, s) < |s|
  }

  /** By sort key, ties by first appearance. */
  predicate Precedes(s: seq<Action>, t: string, u: string) {
    SortKey(t) < SortKey(u) || (SortKey(t) == SortKey(u) && FirstIndex(t, s) < FirstIndex(u, s))
  }

  predicate Ordered(s: seq<Action>, ts: seq<string>) {
    forall i, j :: 0 <= i < j < |ts| ==> Precedes(s, ts[i], ts[j])
  }

  function GroupOf(s: seq<Action>, t: string): Group {
    Group(t, LabelOf(t), Filter(t, s))
  }

  /** Every type that appears has its group, each group is the input filtered by its type in the original order, and
      the groups are in order. */
  ghost predicate IsGrouping(s: seq<Action>, gs: seq<Group>) {
    && (forall i :: 0 <= i < |gs| ==> Appears(gs[i].actionType, s) && gs[i] == GroupOf(s, gs[i].actionType))
    && (forall t :: Appears(t, s) ==> exists i :: 0 <= i < |gs| && gs[i].actionType == t)
    && (forall i, j :: 0 <= i < j < |gs| ==> Precedes(s, gs[i].actionType, gs[j].actionType))
  }

  // ---------- the computed grouping ----------

  /** The types in order of first appearance. */
  function FirstTypes(s: seq<Action>): (ts: seq<string>) {
    if s == [] then []
    else
      var ts := FirstTypes(s[..|s| - 1]);
      if s[|s| - 1].actionType in ts then ts else ts + [s[|s| - 1].actionType]
  }

  /** Insertion behind the last element that does not sort after `t`. */
  function Insert(ts: seq<string>, t: string): seq<string> {
    if ts == [] then [t]
    else if SortKey(ts[|ts| - 1]) <= SortKey(t) then ts + [t]
    else Insert(ts[..|ts| - 1], t) + [ts[|ts| - 1]]
  }

  /** The stable sort by sort key. */
  function StableSort(ts: seq<string>): seq<string> {
    if ts == [] then [] else Insert(StableSort(ts[..|ts| - 1]), ts[|ts| - 1])
  }

  function MakeGroups(s: seq<Action>, ts: seq<string>): (gs: seq<Group>)
    ensures |gs| == |ts| && forall i :: 0 <= i < |ts| ==> gs[i] == GroupOf(s, ts[i])
  {
    seq(|ts|, i requires 0 <= i < |ts| => GroupOf(s, ts[i]))
  }

  function Groups(s: seq<Action>): seq<Group> {
    MakeGroups(s, StableSort(FirstTypes(s)))
  }

  lemma {:induction false} FirstTypesMembers(s: seq<Action>, t: string)
    ensures t in FirstTypes(s) <==> Appears(t, s)
  {
    if s != [] { FirstTypesMembers(s[..|s| - 1], t); }
  }

  lemma {:induction false} FirstTypesOrdered(s: seq<Action>, i: nat, j: nat)
    requires i < j < |FirstTypes(s)|
    ensures FirstIndex(FirstTypes(s)[i], s) < FirstIndex(FirstTypes(s)[j], s)
  {
    var p := s[..|s| - 1];
    var ts := FirstTypes(p);
    FirstTypesMembers(p, FirstTypes(s)[i]);
    if j < |ts| {
      FirstTypesOrdered(p, i, j);
      FirstTypesMembers(p, FirstTypes(s)[j]);
    } else {
      FirstTypesMembers(p, s[|s| - 1].actionType);
    }
  }

  lemma {:induction false} InsertMembers(ts: seq<string>, t: string)
    ensures forall u :: u in Insert(ts, t) <==> u in ts || u == t
  {
    if ts != [] && SortKey(ts[|ts| - 1]) > SortKey(t) {
      InsertMembers(ts[..|ts| - 1], t);
      assert ts == ts[..|ts| - 1] + [ts[|ts| - 1]];
    }
  }

  lemma {:induction false} InsertKeepsOrder(s: seq<Action>, ts: seq<string>, t: string)
    requires Ordered(s, ts) && forall u :: u in ts ==> FirstIndex(u, s) < FirstIndex(t, s)
    ensures Ordered(s, Insert(ts, t))
  {
    if ts == [] {
    } else if SortKey(ts[|ts| - 1]) <= SortKey(t) {
      var out := ts + [t];
      forall i, j | 0 <= i < j < |out|
        ensures Precedes(s, out[i], out[j])
      {
        if j == |ts| {
          assert i < |ts| - 1 ==> Precedes(s, ts[i], ts[|ts| - 1]);
          assert out[i] in ts;
        }
      }
    } else {
      var front, last := ts[..|ts| - 1], ts[|ts| - 1];
      InsertKeepsOrder(s, front, t);
      InsertMembers(front, t);
      var rest := Insert(front, t);
      var out := rest + [last];
      forall i, j | 0 <= i < j < |out|
        ensures Precedes(s, out[i], out[j])
      {
        if j == |rest| {
          assert out[i] in rest;
          if out[i] in front {
            var k :| 0 <= k < |front| && front[k] == out[i];
            assert Precedes(s, ts[k], ts[|ts| - 1]);
          }
        }
      }
    }
  }

  lemma {:induction false} SortOrdersPrefix(s: seq<Action>, ts: seq<string>)
    requires forall i, j :: 0 <= i < j < |ts| ==> FirstIndex(ts[i], s) < FirstIndex(ts[j], s)
    ensures Ordered(s, StableSort(ts)) && forall u :: u in StableSort(ts) <==> u in ts
  {
    if ts != [] {
      var front, last := ts[..|ts| - 1], ts[|ts| - 1];
      assert ts == front + [last];
      SortOrdersPrefix(s, front);
      InsertMembers(StableSort(front), last);
      InsertKeepsOrder(s, StableSort(front), last);
    }
  }

  /** The computed grouping is one. */
  lemma GroupsIsGrouping(s: seq<Action>)
    ensures IsGrouping(s, Groups(s))
  {
    var ts := FirstTypes(s);
    forall i, j | 0 <= i < j < |ts|
      ensures FirstIndex(ts[i], s) < FirstIndex(ts[j], s)
    {
      FirstTypesOrdered(s, i, j);
    }
    SortOrdersPrefix(s, ts);
    var sorted := StableSort(ts);
    forall t
      ensures t in sorted <==> Appears(t, s)
    {
      FirstTypesMembers(s, t);
    }
    forall t | Appears(t, s)
      ensures exists i :: 0 <= i < |Groups(s)| && Groups(s)[i].actionType == t
    {
      var i :| 0 <= i < |sorted| && sorted[i] == t;
      assert Groups(s)[i].actionType == t;
    }
    forall i | 0 <= i < |sorted|
      ensures Appears(sorted[i], s)
    {
      assert sorted[i] in sorted;
    }
  }

  // ---------- there is no other ----------

  lemma PrecedesIsStrict(s: seq<Action>, t: string, u: string)
    requires Appears(t, s) && Appears(u, s)
    ensures Precedes(s, t, u) || t == u || Precedes(s, u, t)
    ensures !(Precedes(s, t, u) && Precedes(s, u, t)) && !Precedes(s, t, t)
  {
    if FirstIndex(t, s) == FirstIndex(u, s) {
      assert s[FirstIndex(t, s)].actionType == t && s[FirstIndex(u, s)].actionType == u;
    }
  }

  lemma GroupOfType(s: seq<Action>, gs: seq<Group>, t: string) returns (i: nat)
    requires IsGrouping(s, gs) && Appears(t, s)
    ensures i < |gs| && gs[i].actionType == t
  {
    i :| 0 <= i < |gs| && gs[i].actionType == t;
  }

  ghost predicate AgreeUpTo(gs: seq<Group>, hs: seq<Group>, k: nat) {
    k <= |gs| && k <= |hs| && forall i :: 0 <= i < k ==> gs[i] == hs[i]
  }

  lemma ExtendAgreement(gs: seq<Group>, hs: seq<Group>, k: nat)
    requires AgreeUpTo(gs, hs, k) && k < |gs| && k < |hs| && gs[k] == hs[k]
    ensures AgreeUpTo(gs, hs, k + 1)
  {
  }

  /** Behind a common prefix the type of a group is not one of the prefix. */
  lemma NotBefore(s: seq<Action>, gs: seq<Group>, hs: seq<Group>, k: nat)
    requires IsGrouping(s, gs) && AgreeUpTo(gs, hs, k) && k < |gs|
    ensures forall i :: 0 <= i < k ==> hs[i].actionType != gs[k].actionType
  {
    var t := gs[k].actionType;
    PrecedesIsStrict(s, t, t);
    forall i | 0 <= i < k
      ensures hs[i].actionType != t
    {
      assert gs[i] == hs[i] && Precedes(s, gs[i].actionType, gs[k].actionType);
    }
  }

  lemma NextGroupAgrees(s: seq<Action>, gs: seq<Group>, hs: seq<Group>, k: nat)
    requires IsGrouping(s, gs) && IsGrouping(s, hs) && AgreeUpTo(gs, hs, k) && k < |gs|
    ensures AgreeUpTo(gs, hs, k + 1)
  {
    var t := gs[k].actionType;
    var j := GroupOfType(s, hs, t);
    NotBefore(s, gs, hs, k);
    assert k <= j;
    var u := hs[k].actionType;
    var i := GroupOfType(s, gs, u);
    NotBefore(s, hs, gs, k);
    PrecedesIsStrict(s, t, u);
    assert j > k ==> Precedes(s, u, t);
    assert i > k ==> Precedes(s, t, u);
    ExtendAgreement(gs, hs, k);
  }

  /** Two groupings agree on their first `k` groups. */
  lemma {:induction false} GroupingsAgree(s: seq<Action>, gs: seq<Group>, hs: seq<Group>, k: nat)
    requires IsGrouping(s, gs) && IsGrouping(s, hs) && k <= |gs|
    ensures AgreeUpTo(gs, hs, k)
  {
    if k > 0 {
      GroupingsAgree(s, gs, hs, k - 1);
      NextGroupAgrees(s, gs, hs, k - 1);
    }
  }

  /** Being the grouping of the input determines the result. */
  lemma GroupingCharacterised(s: seq<Action>, gs: seq<Group>)
    ensures IsGrouping(s, gs) <==> gs == Groups(s)
  {
    GroupsIsGrouping(s);
    if IsGrouping(s, gs) {
      GroupingsAgree(s, gs, Groups(s), |gs|);
      GroupingsAgree(s, Groups(s), gs, |Groups(s)|);
    }
  }

  // ---------- the result in terms of the actions ----------

  /** The types of the feed in the order of their groups, with the labels of these. */
  const FEED_ORDER := [
    ("committee_hearing", "Committee hearing"), ("committee_report", "Committee report"), ("amendment", "Amendment"),
    ("resolution", "Resolution introduced"), ("engrossment", "Bill engrossed"), ("enrollment", "Bill enrolled"),
    ("vote", "Floor vote"), ("speech", "Floor speech"), ("presence", "Attendance")]

  /** The type has its place in the feed. */
  predicate Placed(t: string) {
    exists p :: 0 <= p < |FEED_ORDER| && FEED_ORDER[p].0 == t
  }

  lemma PlaceDecides(p: nat)
    requires p < |FEED_ORDER|
    ensures SortKey(FEED_ORDER[p].0) == p + 1 && LabelOf(FEED_ORDER[p].0) == FEED_ORDER[p].1
  {
  }

  lemma NoPlace(t: string)
    requires !Placed(t)
    ensures SortKey(t) == 99 && LabelOf(t) == t
  {
    assert FEED_ORDER[0].0 != t && FEED_ORDER[1].0 != t && FEED_ORDER[2].0 != t && FEED_ORDER[3].0 != t;
    assert FEED_ORDER[4].0 != t && FEED_ORDER[5].0 != t && FEED_ORDER[6].0 != t && FEED_ORDER[7].0 != t;
    assert FEED_ORDER[8].0 != t;
  }

  /** Some `t` stands before each `u`. */
  predicate ComesFirst(s: seq<Action>, t: string, u: string) {
    forall k :: 0 <= k < |s| && s[k].actionType == u ==> exists m :: 0 <= m < k && s[m].actionType == t
  }

  /** Hearings and reports lead, presence comes last of the known types, unknown types come behind all of them in the
      order in which they first appear. */
  lemma GroupsInFeedOrder(s: seq<Action>, gs: seq<Group>, i: nat, j: nat)
    requires IsGrouping(s, gs) && i < j < |gs|
    ensures var t, u := gs[i].actionType, gs[j].actionType;
            && (forall p, q :: 0 <= p < |FEED_ORDER| && 0 <= q < |FEED_ORDER| ==>
                  (FEED_ORDER[p].0 == t && FEED_ORDER[q].0 == u ==> p < q))
            && (Placed(u) ==> Placed(t))
            && (!Placed(t) ==> ComesFirst(s, t, u))
  {
    var t, u := gs[i].actionType, gs[j].actionType;
    assert Precedes(s, t, u);
    forall p, q | 0 <= p < |FEED_ORDER| && 0 <= q < |FEED_ORDER| && FEED_ORDER[p].0 == t && FEED_ORDER[q].0 == u
      ensures p < q
    {
      PlaceDecides(p);
      PlaceDecides(q);
      if p == q { PrecedesIsStrict(s, t, t); }
    }
    if !Placed(t) {
      NoPlace(t);
      if q :| 0 <= q < |FEED_ORDER| && FEED_ORDER[q].0 == u { PlaceDecides(q); }
      if !Placed(u) { NoPlace(u); }
      FirstComesFirst(s, t, u);
    }
  }

  lemma FirstComesFirst(s: seq<Action>, t: string, u: string)
    requires FirstIndex(t, s) < FirstIndex(u, s)
    ensures ComesFirst(s, t, u)
  {
    forall k | 0 <= k < |s| && s[k].actionType == u
      ensures exists m :: 0 <= m < k && s[m].actionType == t
    {
      assert FirstIndex(u, s) <= k && s[FirstIndex(t, s)].actionType == t;
    }
  }

  /** The items are those of the type, at increasing positions of the list. */
  ghost predicate Selects(ps: seq<nat>, s: seq<Action>, t: string, items: seq<Action>) {
    && |ps| == |items|
    && (forall k :: 0 <= k < |ps| ==> ps[k] < |s| && items[k] == s[ps[k]] && s[ps[k]].actionType == t)
    && (forall j, k :: 0 <= j < k < |ps| ==> ps[j] < ps[k])
    && (forall n: nat :: n < |s| && s[n].actionType == t ==> n in ps)
  }

  lemma SelectsMore(ps: seq<nat>, s: seq<Action>, t: string, items: seq<Action>)
    requires s != [] && Selects(ps, s[..|s| - 1], t, items)
    ensures var a := s[|s| - 1];
            if a.actionType == t then Selects(ps + [|s| - 1], s, t, items + [a]) else Selects(ps, s, t, items)
  {
  }

  lemma {:induction false} FilterSelects(t: string, s: seq<Action>) returns (ps: seq<nat>)
    ensures Selects(ps, s, t, Filter(t, s))
  {
    ps := [];
    if s != [] {
      ps := FilterSelects(t, s[..|s| - 1]);
      SelectsMore(ps, s, t, Filter(t, s[..|s| - 1]));
      if s[|s| - 1].actionType == t { ps := ps + [|s| - 1]; }
    }
  }

  /** Every group has its label and exactly the actions of its type, each once, in the order of the feed. */
  lemma GroupHolds(s: seq<Action>, gs: seq<Group>, i: nat)
    requires IsGrouping(s, gs) && i < |gs|
    ensures exists ps :: Selects(ps, s, gs[i].actionType, gs[i].items)
    ensures forall p :: 0 <= p < |FEED_ORDER| && FEED_ORDER[p].0 == gs[i].actionType ==> gs[i].title == FEED_ORDER[p].1
    ensures !Placed(gs[i].actionType) ==> gs[i].title == gs[i].actionType
  {
    var t := gs[i].actionType;
    assert gs[i] == GroupOf(s, t);
    var ps := FilterSelects(t, s);
    if p :| 0 <= p < |FEED_ORDER| && FEED_ORDER[p].0 == t { PlaceDecides(p); } else { NoPlace(t); }
    forall p | 0 <= p < |FEED_ORDER| && FEED_ORDER[p].0 == t
      ensures gs[i].title == FEED_ORDER[p].1
    {
      PlaceDecides(p);
    }
  }

  // ---------- nothing is lost ----------

  function FlattenGroups(gs: seq<Group>): seq<Action> {
    if gs == [] then [] else FlattenGroups(gs[..|gs| - 1]) + gs[|gs| - 1].items
  }

  /** Grouping and then batching each group, flattened again. */
  function FlattenFeed(norm: Normalizer, minBatch: int, gs: seq<Group>): seq<Action> {
    if gs == [] then []
    else FlattenFeed(norm, minBatch, gs[..|gs| - 1]) + Flatten(Batches(norm, minBatch, gs[|gs| - 1].items))
  }

  lemma {:induction false} FeedFlattensToGroups(norm: Normalizer, minBatch: int, gs: seq<Group>)
    ensures FlattenFeed(norm, minBatch, gs) == FlattenGroups(gs)
  {
    if gs != [] {
      FeedFlattensToGroups(norm, minBatch, gs[..|gs| - 1]);
      BatchesFlatten(norm, minBatch, gs[|gs| - 1].items);
    }
  }

  lemma {:induction false} FilterCount(t: string, s: seq<Action>, a: Action)
    ensures multiset(Filter(t, s))[a] == if a.actionType == t then multiset(s)[a] else 0
  {
    if s != [] {
      var p, last := s[..|s| - 1], s[|s| - 1];
      FilterCount(t, p, a);
      assert s == p + [last];
    }
  }

  predicate HasGroup(gs: seq<Group>, t: string) {
    exists i :: 0 <= i < |gs| && gs[i].actionType == t
  }

  lemma HasGroupLast(front: seq<Group>, last: Group, t: string)
    ensures HasGroup(front + [last], t) <==> HasGroup(front, t) || last.actionType == t
  {
    var gs := front + [last];
    assert gs[|front|] == last;
    if i :| 0 <= i < |front| && front[i].actionType == t { assert gs[i] == front[i]; }
  }

  lemma {:induction false} GroupsCount(s: seq<Action>, gs: seq<Group>, a: Action)
    requires forall i :: 0 <= i < |gs| ==> gs[i] == GroupOf(s, gs[i].actionType)
    requires forall i, j :: 0 <= i < j < |gs| ==> gs[i].actionType != gs[j].actionType
    ensures multiset(FlattenGroups(gs))[a] == if HasGroup(gs, a.actionType) then multiset(s)[a] else 0
  {
    if gs != [] {
      var front, last := gs[..|gs| - 1], gs[|gs| - 1];
      GroupsCount(s, front, a);
      FilterCount(last.actionType, s, a);
      assert gs == front + [last];
      HasGroupLast(front, last, a.actionType);
    }
  }

  /** The whole feed holds exactly the actions it was given, each as often. */
  lemma FeedConserves(norm: Normalizer, minBatch: int, s: seq<Action>)
    ensures multiset(FlattenFeed(norm, minBatch, Groups(s))) == multiset(s)
  {
    var gs := Groups(s);
    GroupsIsGrouping(s);
    FeedFlattensToGroups(norm, minBatch, gs);
    forall i, j | 0 <= i < j < |gs|
      ensures gs[i].actionType != gs[j].actionType
    {
      PrecedesIsStrict(s, gs[i].actionType, gs[j].actionType);
    }
    forall a: Action
      ensures multiset(FlattenGroups(gs))[a] == multiset(s)[a]
    {
      GroupsCount(s, gs, a);
      if a in s {
        var k :| 0 <= k < |s| && s[k] == a;
        assert FirstIndex(a.actionType, s) <= k;
        assert Appears(a.actionType, s);
      }
    }
  }

  // ---------- the loops ----------

  /** The map filled in a loop; JavaScript's Map remembers the order of insertion. */
  method FillBuckets(actions: seq<Action>) returns (order: seq<string>, buckets: map<string, seq<Action>>)
    ensures order == FirstTypes(actions)
    ensures BucketsOk(buckets, order, actions)
  {
    order, buckets := [], map[];
    for i := 0 to |actions|
      invariant order == FirstTypes(actions[..i])
      invariant BucketsOk(buckets, order, actions[..i])
    {
      var a := actions[i];
      assert actions[..i + 1] == actions[..i] + [a];
      BucketStep(buckets, order, actions[..i], a);
      order, buckets := PutInBucket(order, buckets, a);
    }
    assert actions[..|actions|] == actions;
  }

  method PutInBucket(order: seq<string>, buckets: map<string, seq<Action>>, a: Action)
      returns (order': seq<string>, buckets': map<string, seq<Action>>)
    ensures order' == if a.actionType in buckets then order else order + [a.actionType]
    ensures buckets' == buckets[a.actionType :=
                                  (if a.actionType in buckets then buckets[a.actionType] else []) + [a]]
  {
    order', buckets' := order, buckets;
    assert [] + [a] == [a];
    if a.actionType !in buckets {
      order' := order + [a.actionType];
      buckets' := buckets[a.actionType := [a]];
    } else {
      buckets' := buckets[a.actionType := buckets[a.actionType] + [a]];
    }
  }

  ghost predicate BucketsOk(buckets: map<string, seq<Action>>, order: seq<string>, s: seq<Action>) {
    && (forall t :: t in buckets <==> t in order)
    && (forall t :: t in buckets ==> buckets[t] == Filter(t, s))
  }

  lemma BucketStep(buckets: map<string, seq<Action>>, order: seq<string>, p: seq<Action>, a: Action)
    requires order == FirstTypes(p) && BucketsOk(buckets, order, p)
    ensures var t := a.actionType;
            var order' := if t in buckets then order else order + [t];
            && order' == FirstTypes(p + [a])
            && BucketsOk(buckets[t := (if t in buckets then buckets[t] else []) + [a]], order', p + [a])
  {
    assert (p + [a])[..|p|] == p;
    FirstTypesMembers(p, a.actionType);
    if !Appears(a.actionType, p) { NotAppearing(a.actionType, p); }
  }

  lemma MakeGroupsStep(s: seq<Action>, ts: seq<string>, i: nat)
    requires i < |ts|
    ensures MakeGroups(s, ts[..i + 1]) == MakeGroups(s, ts[..i]) + [Group(ts[i], LabelOf(ts[i]), Filter(ts[i], s))]
  {
  }

  method GroupActionsByType(actions: seq<Action>) returns (groups: seq<Group>)
    ensures groups == Groups(actions)
    ensures IsGrouping(actions, groups)
  {
    var order, buckets := FillBuckets(actions);
    ghost var types := order;
    order := StableSort(order);
    groups := [];
    for i := 0 to |order|
      invariant groups == MakeGroups(actions, order[..i])
    {
      assert order[i] in buckets by { SortMembers(types, order[i]); }
      MakeGroupsStep(actions, order, i);
      groups := groups + [Group(order[i], LabelOf(order[i]), buckets[order[i]])];
    }
    assert order[..|order|] == order;
    GroupsIsGrouping(actions);
  }

  lemma {:induction false} NotAppearing(t: string, s: seq<Action>)
    requires !Appears(t, s)
    ensures Filter(t, s) == []
  {
    if s != [] { NotAppearing(t, s[..|s| - 1]); }
  }

  lemma {:induction false} SortMembers(ts: seq<string>, t: string)
    ensures t in StableSort(ts) <==> t in ts
  {
    if ts != [] {
      SortMembers(ts[..|ts| - 1], t);
      InsertMembers(StableSort(ts[..|ts| - 1]), ts[|ts| - 1]);
      assert ts == ts[..|ts| - 1] + [ts[|ts| - 1]];
    }
  }
}
