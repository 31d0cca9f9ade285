/** The ability builder: an ordered rule list for an engine in which the last matching rule wins. */
module Abilities {
  import opened Options
  import opened Placeholders

  datatype Effect = Allow | Deny | OtherEffect

  datatype PolicyView = PolicyView(effect: Effect, actions: seq<string>, fields: seq<string>, conditions: Fields)

  /** A policy attached to the subject of its permission. */
  datatype Item = Item(subject: string, policy: PolicyView)

  datatype Rule = Rule(actions: seq<string>, subject: string, fields: Option<seq<string>>, conditions: Option<Fields>,
                       inverted: bool)

  const ADMIN_RULE := Rule(["manage"], "all", None, None, false)

  function RuleOf(item: Item, lookup: LookupFn): Rule {
    Rule(item.policy.actions, item.subject,
         if item.policy.fields != [] then Some(item.policy.fields) else None,
         if item.policy.conditions != Nil then Some(RewriteFields(item.policy.conditions, lookup)) else None,
         item.policy.effect == Deny)
  }

  /** One policy: an allowing rule goes to the front, a denying one to the end. */
  function AddRule(rules: seq<Rule>, item: Item, lookup: LookupFn): seq<Rule> {
    match item.policy.effect
    case Allow => [RuleOf(item, lookup)] + rules
    case Deny => rules + [RuleOf(item, lookup)]
    case OtherEffect => rules
  }

  function AddRules(rules: seq<Rule>, items: seq<Item>, lookup: LookupFn): seq<Rule> {
    if items == [] then rules
    else AddRule(AddRules(rules, items[..|items| - 1], lookup), items[|items| - 1], lookup)
  }

  function Build(isAdmin: bool, items: seq<Item>, lookup: LookupFn): seq<Rule> {
    AddRules(if isAdmin then [ADMIN_RULE] else [], items, lookup)
  }

  // ---------- evaluation ----------

  /** The engine's decision on a request: `matches` tells which rules are relevant to it; the last one decides. */
  function Decide(rules: seq<Rule>, matches: Rule -> bool): bool {
    if rules == [] then false
    else if matches(rules[|rules| - 1]) then !rules[|rules| - 1].inverted
    else Decide(rules[..|rules| - 1], matches)
  }

  /** The order-free reading: the administrator's rule or some allowing policy matches, and no denying one does. */
  ghost predicate Permitted(isAdmin: bool, items: seq<Item>, lookup: LookupFn, matches: Rule -> bool) {
    && ((isAdmin && matches(ADMIN_RULE))
        || exists item :: item in items && item.policy.effect == Allow && matches(RuleOf(item, lookup)))
    && !exists item :: item in items && item.policy.effect == Deny && matches(RuleOf(item, lookup))
  }

  /** No allowing rule stands behind a denying one. */
  predicate AllowsFirst(rules: seq<Rule>) {
    forall i, j :: 0 <= i < j < |rules| && rules[i].inverted ==> rules[j].inverted
  }

  lemma {:induction false} DecideOnAllowsFirst(rules: seq<Rule>, matches: Rule -> bool)
    requires AllowsFirst(rules)
    ensures Decide(rules, matches)
       <==> && (exists r :: r in rules && !r.inverted && matches(r))
            && !(exists r :: r in rules && r.inverted && matches(r))
  {
    if rules != [] {
      var front, last := rules[..|rules| - 1], rules[|rules| - 1];
      assert rules == front + [last];
      DecideOnAllowsFirst(front, matches);
      if matches(last) && !last.inverted {
        forall r | r in rules
          ensures !r.inverted
        {
          var i :| 0 <= i < |rules| && rules[i] == r;
          assert rules[|rules| - 1] == last;
        }
      }
    }
  }

  lemma {:induction false} AddRulesMembers(rules: seq<Rule>, items: seq<Item>, lookup: LookupFn, r: Rule)
    ensures r in AddRules(rules, items, lookup)
       <==> r in rules || exists item :: item in items && item.policy.effect != OtherEffect && r == RuleOf(item, lookup)
  {
    if items != [] {
      var front, last := items[..|items| - 1], items[|items| - 1];
      assert items == front + [last];
      AddRulesMembers(rules, front, lookup, r);
    }
  }

  lemma {:induction false} AddRulesAllowsFirst(rules: seq<Rule>, items: seq<Item>, lookup: LookupFn)
    requires AllowsFirst(rules)
    ensures AllowsFirst(AddRules(rules, items, lookup))
  {
    if items != [] {
      AddRulesAllowsFirst(rules, items[..|items| - 1], lookup);
    }
  }

  /** The list the builder produces, read with "last match wins", decides as the order-free reading. */
  lemma BuildRefinesPermitted(isAdmin: bool, items: seq<Item>, lookup: LookupFn, matches: Rule -> bool)
    ensures Decide(Build(isAdmin, items, lookup), matches) <==> Permitted(isAdmin, items, lookup, matches)
  {
    var start := if isAdmin then [ADMIN_RULE] else [];
    var rules := Build(isAdmin, items, lookup);
    AddRulesAllowsFirst(start, items, lookup);
    DecideOnAllowsFirst(rules, matches);
    forall r: Rule
      ensures r in rules
         <==> || r in start
              || exists item :: item in items && item.policy.effect != OtherEffect && r == RuleOf(item, lookup)
    {
      AddRulesMembers(start, items, lookup, r);
    }
    AllowingRules(isAdmin, items, lookup, matches);
    DenyingRules(isAdmin, items, lookup, matches);
  }

  lemma AllowingRules(isAdmin: bool, items: seq<Item>, lookup: LookupFn, matches: Rule -> bool)
    ensures (exists r :: r in Build(isAdmin, items, lookup) && !r.inverted && matches(r))
       <==> (isAdmin && matches(ADMIN_RULE))
            || exists item :: item in items && item.policy.effect == Allow && matches(RuleOf(item, lookup))
  {
    var start := if isAdmin then [ADMIN_RULE] else [];
    if r :| r in Build(isAdmin, items, lookup) && !r.inverted && matches(r) {
      AddRulesMembers(start, items, lookup, r);
    }
    if isAdmin { AddRulesMembers(start, items, lookup, ADMIN_RULE); }
    if item :| item in items && item.policy.effect == Allow && matches(RuleOf(item, lookup)) {
      AddRulesMembers(start, items, lookup, RuleOf(item, lookup));
    }
  }

  lemma DenyingRules(isAdmin: bool, items: seq<Item>, lookup: LookupFn, matches: Rule -> bool)
    ensures (exists r :: r in Build(isAdmin, items, lookup) && r.inverted && matches(r))
       <==> exists item :: item in items && item.policy.effect == Deny && matches(RuleOf(item, lookup))
  {
    var start := if isAdmin then [ADMIN_RULE] else [];
    if r :| r in Build(isAdmin, items, lookup) && r.inverted && matches(r) {
      AddRulesMembers(start, items, lookup, r);
    }
    if item :| item in items && item.policy.effect == Deny && matches(RuleOf(item, lookup)) {
      AddRulesMembers(start, items, lookup, RuleOf(item, lookup));
    }
  }

  /** Permuting permissions or policies never changes a decision. */
  lemma OrderNeverMatters(isAdmin: bool, items: seq<Item>, others: seq<Item>, lookup: LookupFn, matches: Rule -> bool)
    requires multiset(items) == multiset(others)
    ensures Decide(Build(isAdmin, items, lookup), matches) == Decide(Build(isAdmin, others, lookup), matches)
  {
    BuildRefinesPermitted(isAdmin, items, lookup, matches);
    BuildRefinesPermitted(isAdmin, others, lookup, matches);
    assert forall item :: item in items <==> item in multiset(items);
    assert forall item :: item in others <==> item in multiset(others);
    assert forall item :: item in items <==> item in others;
  }

  // ---------- the decision in terms of the policies ----------

  /** A question to the engine.  `meets` stands for its matching of conditions; it is told whether the rule denies, as
      the engine matches a subject that is given by its type only against allowing rules alone. */
  datatype Query = Query(action: string, subject: string, field: Option<string>, meets: (Fields, bool) -> bool)

  /** A rule with fields covers a question for one of them, and, if it allows, one for no field in particular. */
  predicate Covers(fields: seq<string>, field: Option<string>, denies: bool) {
    if field.Some? then field.value in fields else !denies
  }

  /** The engine's reading of a rule. */
  predicate Relevant(r: Rule, q: Query) {
    && (q.action in r.actions || "manage" in r.actions)
    && (r.subject == q.subject || r.subject == "all")
    && (r.fields.Some? ==> Covers(r.fields.value, q.field, r.inverted))
    && (r.conditions.Some? ==> q.meets(r.conditions.value, r.inverted))
  }

  function Asked(q: Query): Rule -> bool {
    r => Relevant(r, q)
  }

  /** The policy, for the subject of its permission, speaks about the question: it lists the action, covers the field,
      and its conditions, filled in for the user, are met. */
  predicate Speaks(subject: string, p: PolicyView, user: LookupFn, q: Query) {
    && (q.action in p.actions || "manage" in p.actions)
    && (subject == q.subject || subject == "all")
    && (p.fields != [] ==> Covers(p.fields, q.field, p.effect.Deny?))
    && (p.conditions != Nil ==> q.meets(RewriteFields(p.conditions, user), p.effect.Deny?))
  }

  /** Some policy with the effect speaks about the question. */
  ghost predicate SomeSpeaks(items: seq<Item>, effect: Effect, user: LookupFn, q: Query) {
    exists k ::
      0 <= k < |items| && items[k].policy.effect == effect && Speaks(items[k].subject, items[k].policy, user, q)
  }

  lemma RuleSpeaks(item: Item, user: LookupFn, q: Query)
    requires item.policy.effect != OtherEffect
    ensures Relevant(RuleOf(item, user), q) <==> Speaks(item.subject, item.policy, user, q)
  {
  }

  lemma AdminRuleSpeaks(q: Query)
    ensures Relevant(ADMIN_RULE, q)
  {
    assert ADMIN_RULE.actions[0] == "manage";
  }

  lemma SomeSpeaksIff(items: seq<Item>, effect: Effect, user: LookupFn, q: Query)
    requires effect != OtherEffect
    ensures SomeSpeaks(items, effect, user, q)
       <==> exists item :: item in items && item.policy.effect == effect && Asked(q)(RuleOf(item, user))
  {
    if k :| 0 <= k < |items| && items[k].policy.effect == effect && Speaks(items[k].subject, items[k].policy, user, q) {
      RuleSpeaks(items[k], user, q);
      assert items[k] in items;
    }
    if item :| item in items && item.policy.effect == effect && Asked(q)(RuleOf(item, user)) {
      RuleSpeaks(item, user, q);
      var k :| 0 <= k < |items| && items[k] == item;
      assert Speaks(items[k].subject, items[k].policy, user, q);
    }
  }

  /** The list the builder produces allows what an administrator or some allowing policy may do, unless a denying policy
      speaks about it; an administrator without such a policy may do everything. */
  lemma DecidesByPolicies(isAdmin: bool, items: seq<Item>, user: LookupFn, q: Query)
    ensures Decide(Build(isAdmin, items, user), Asked(q))
       <==> (isAdmin || SomeSpeaks(items, Allow, user, q)) && !SomeSpeaks(items, Deny, user, q)
  {
    BuildRefinesPermitted(isAdmin, items, user, Asked(q));
    AdminRuleSpeaks(q);
    SomeSpeaksIff(items, Allow, user, q);
    SomeSpeaksIff(items, Deny, user, q);
  }

  // ---------- one list of policies for a sequence of users ----------

  /** The item after its conditions were rewritten in place for the users, one after the other. */
  function ItemAfter(item: Item, users: seq<LookupFn>): Item {
    item.(policy := item.policy.(conditions := RewriteForAll(item.policy.conditions, users)))
  }

  function ItemsAfter(items: seq<Item>, users: seq<LookupFn>): (r: seq<Item>)
    ensures |r| == |items| && forall k :: 0 <= k < |items| ==> r[k] == ItemAfter(items[k], users)
  {
    seq(|items|, k requires 0 <= k < |items| => ItemAfter(items[k], users))
  }

  /** No placeholder in the conditions of an allowing or denying policy resolves for any of the users. */
  predicate NoneResolvesIn(items: seq<Item>, users: seq<LookupFn>) {
    forall k :: 0 <= k < |items| && items[k].policy.effect != OtherEffect ==>
      NoneResolves(items[k].policy.conditions, users)
  }

  /** Whoever comes after the users, gets the rules that the original policies give. */
  ghost predicate LaterRulesUnaffected(items: seq<Item>, users: seq<LookupFn>) {
    forall isAdmin, next: LookupFn :: Build(isAdmin, ItemsAfter(items, users), next) == Build(isAdmin, items, next)
  }

  /** Two lists of items give the same rules where their rules agree one by one. */
  lemma {:induction false} SameRules(rules: seq<Rule>, items: seq<Item>, others: seq<Item>, lookup: LookupFn)
    requires |items| == |others|
    requires forall k :: 0 <= k < |items| ==>
               && items[k].policy.effect == others[k].policy.effect
               && (items[k].policy.effect != OtherEffect ==> RuleOf(items[k], lookup) == RuleOf(others[k], lookup))
    ensures AddRules(rules, items, lookup) == AddRules(rules, others, lookup)
  {
    if items != [] { SameRules(rules, items[..|items| - 1], others[..|items| - 1], lookup); }
  }

  lemma AddedRuleShows(a: seq<Rule>, b: seq<Rule>, item: Item, other: Item, lookup: LookupFn)
    requires item.policy.effect == other.policy.effect && AddRule(a, item, lookup) == AddRule(b, other, lookup)
    ensures a == b && (item.policy.effect != OtherEffect ==> RuleOf(item, lookup) == RuleOf(other, lookup))
  {
    var r, o := RuleOf(item, lookup), RuleOf(other, lookup);
    match item.policy.effect {
      case Allow => assert ([r] + a)[1..] == a && ([o] + b)[1..] == b && ([r] + a)[0] == r && ([o] + b)[0] == o;
      case Deny =>
        assert (a + [r])[..|a + [r]| - 1] == a && (b + [o])[..|b + [o]| - 1] == b;
        assert (a + [r])[|a + [r]| - 1] == r && (b + [o])[|b + [o]| - 1] == o;
      case OtherEffect =>
    }
  }

  /** And only there. */
  lemma {:induction false} RulesShowItems(rules: seq<Rule>, items: seq<Item>, others: seq<Item>, lookup: LookupFn,
                                          k: nat)
    requires |items| == |others| && k < |items|
    requires forall j :: 0 <= j < |items| ==> items[j].policy.effect == others[j].policy.effect
    requires AddRules(rules, items, lookup) == AddRules(rules, others, lookup)
    ensures items[k].policy.effect != OtherEffect ==> RuleOf(items[k], lookup) == RuleOf(others[k], lookup)
  {
    var m := |items| - 1;
    AddedRuleShows(AddRules(rules, items[..m], lookup), AddRules(rules, others[..m], lookup), items[m], others[m],
                   lookup);
    if k < m { RulesShowItems(rules, items[..m], others[..m], lookup, k); }
  }

  lemma {:induction false} NilStaysNil(f: Fields, users: seq<LookupFn>)
    ensures RewriteForAll(f, users) == Nil <==> f == Nil
  {
    if users != [] { NilStaysNil(f, users[..|users| - 1]); }
  }

  /** For a user who fills no placeholder the rule shows the conditions as they are. */
  lemma RuleShowsConditions(item: Item, users: seq<LookupFn>, none: LookupFn)
    requires forall x :: none(x) == None
    requires RuleOf(ItemAfter(item, users), none) == RuleOf(item, none)
    ensures RewriteForAll(item.policy.conditions, users) == item.policy.conditions
  {
    NilStaysNil(item.policy.conditions, users);
    NothingResolvedFor(item.policy.conditions, none);
    NothingResolvedFor(RewriteForAll(item.policy.conditions, users), none);
  }

  lemma UnaffectedShows(items: seq<Item>, users: seq<LookupFn>, k: nat)
    requires LaterRulesUnaffected(items, users) && k < |items| && items[k].policy.effect != OtherEffect
    ensures RewriteForAll(items[k].policy.conditions, users) == items[k].policy.conditions
  {
    var none: LookupFn := x => None;
    assert Build(false, ItemsAfter(items, users), none) == Build(false, items, none);
    RulesShowItems([], ItemsAfter(items, users), items, none, k);
    RuleShowsConditions(items[k], users, none);
  }

  /** On one list of policies that all requests share: whoever comes after the given users gets the rules that the
      original policies give if and only if no placeholder in them resolved for any of these users. */
  lemma LaterRulesUnaffectedIff(items: seq<Item>, users: seq<LookupFn>)
    requires AllFewBraces(users)
    ensures LaterRulesUnaffected(items, users) <==> NoneResolvesIn(items, users)
  {
    if NoneResolvesIn(items, users) {
      forall k | 0 <= k < |items| && items[k].policy.effect != OtherEffect
        ensures ItemAfter(items[k], users) == items[k]
      {
        UnchangedForAllIff(items[k].policy.conditions, users);
      }
      forall isAdmin, next: LookupFn
        ensures Build(isAdmin, ItemsAfter(items, users), next) == Build(isAdmin, items, next)
      {
        SameRules(if isAdmin then [ADMIN_RULE] else [], ItemsAfter(items, users), items, next);
      }
    }
    if LaterRulesUnaffected(items, users) {
      forall k | 0 <= k < |items| && items[k].policy.effect != OtherEffect
        ensures NoneResolves(items[k].policy.conditions, users)
      {
        UnaffectedShows(items, users, k);
        UnchangedForAllIff(items[k].policy.conditions, users);
      }
    }
  }

  /** So it fails for a policy on the user's own id: once somebody was signed in, everybody gets the rule with the id of
      the first one. */
  lemma EverybodyGetsTheFirstId(item: Item, key: string, users: seq<LookupFn>, next: LookupFn, id: string)
    requires item.policy.effect == Allow && item.policy.conditions == OwnId(key)
    requires users != [] && users[0]("id") == Some(id) && '{' !in id && next("id").Some?
    ensures Build(false, ItemsAfter([item], users), next)
         == [RuleOf(item, next).(conditions := Some(Field(key, Text(id), Nil)))]
    ensures RuleOf(item, next).conditions == Some(Field(key, Text(next("id").value), Nil))
  {
    FirstIdStays(key, users, next, id);
    var after := ItemsAfter([item], users);
    assert after[..0] == [] && AddRules([], after[..0], next) == [];
    assert [RuleOf(after[0], next)] + [] == [RuleOf(after[0], next)];
  }

  // ---------- the builder over policy objects ----------

  class Policy {
    const effect: Effect
    const actions: seq<string>
    const fields: seq<string>
    var conditions: Fields

    constructor (effect: Effect, actions: seq<string>, fields: seq<string>, conditions: Fields)
      ensures View() == PolicyView(effect, actions, fields, conditions)
    {
      this.effect, this.actions, this.fields, this.conditions := effect, actions, fields, conditions;
    }

    function View(): PolicyView
      reads this
    {
      PolicyView(effect, actions, fields, conditions)
    }

    /** Overwrites the policy's own conditions object. */
    method RewriteConditions(lookup: LookupFn)
      modifies this`conditions
      ensures conditions == RewriteFields(old(conditions), lookup)
      ensures SkeletonFields(conditions) == SkeletonFields(old(conditions))
      ensures FewBraces(lookup) ==> (conditions == old(conditions) <==> !AnyResolvesFields(old(conditions), lookup))
    {
      conditions := ReplacePlaceholders(conditions, lookup);
    }
  }

  datatype Permission = Permission(subject: string, policies: seq<Policy>)

  /** A policy object attached to a subject. */
  datatype Attached = Attached(subject: string, policy: Policy)

  /** A rule while the list is being built: it shares the conditions object of its policy. */
  datatype RuleRef = AdminRef | PolicyRef(at: Attached)

  function AddRef(refs: seq<RuleRef>, at: Attached): seq<RuleRef> {
    match at.policy.effect
    case Allow => [PolicyRef(at)] + refs
    case Deny => refs + [PolicyRef(at)]
    case OtherEffect => refs
  }

  function AddRefs(refs: seq<RuleRef>, ats: seq<Attached>): seq<RuleRef> {
    if ats == [] then refs else AddRef(AddRefs(refs, ats[..|ats| - 1]), ats[|ats| - 1])
  }

  lemma {:induction false} AddRefsConcat(refs: seq<RuleRef>, a: seq<Attached>, b: seq<Attached>)
    ensures AddRefs(AddRefs(refs, a), b) == AddRefs(refs, a + b)
  {
    if b == [] {
      assert a + b == a;
    } else {
      AddRefsConcat(refs, a, b[..|b| - 1]);
      assert (a + b)[..|a + b| - 1] == a + b[..|b| - 1];
    }
  }

  function Attach(subject: string, policies: seq<Policy>): (ats: seq<Attached>)
    ensures |ats| == |policies| && forall k :: 0 <= k < |policies| ==> ats[k] == Attached(subject, policies[k])
  {
    seq(|policies|, k requires 0 <= k < |policies| => Attached(subject, policies[k]))
  }

  /** The policies in the order in which they are visited. */
  function AllAttached(permissions: seq<Permission>): seq<Attached> {
    if permissions == [] then []
    else
      var k := |permissions| - 1;
      AllAttached(permissions[..k]) + Attach(permissions[k].subject, permissions[k].policies)
  }

  function AllPolicies(permissions: seq<Permission>): seq<Policy> {
    if permissions == [] then []
    else AllPolicies(permissions[..|permissions| - 1]) + permissions[|permissions| - 1].policies
  }

  function Objects(permissions: seq<Permission>): set<Policy> {
    set k, j | 0 <= k < |permissions| && 0 <= j < |permissions[k].policies| :: permissions[k].policies[j]
  }

  lemma {:induction false} PoliciesAreObjects(permissions: seq<Permission>)
    ensures forall p :: p in AllPolicies(permissions) <==> p in Objects(permissions)
  {
    if permissions != [] {
      var front, last := permissions[..|permissions| - 1], permissions[|permissions| - 1];
      PoliciesAreObjects(front);
      forall p | p in Objects(permissions)
        ensures p in Objects(front) || p in last.policies
      {
        var k, j :| 0 <= k < |permissions| && 0 <= j < |permissions[k].policies| && permissions[k].policies[j] == p;
        assert k < |front| ==> front[k] == permissions[k];
      }
      forall p | p in Objects(front) || p in last.policies
        ensures p in Objects(permissions)
      {
        if p in last.policies {
          var j :| 0 <= j < |last.policies| && last.policies[j] == p;
          assert permissions[|permissions| - 1].policies[j] == p;
        } else {
          var k, j :| 0 <= k < |front| && 0 <= j < |front[k].policies| && front[k].policies[j] == p;
          assert permissions[k].policies[j] == p;
        }
      }
    }
  }

  lemma {:induction false} AttachedPolicies(permissions: seq<Permission>)
    ensures |AllAttached(permissions)| == |AllPolicies(permissions)|
    ensures forall k :: 0 <= k < |AllPolicies(permissions)| ==>
              AllAttached(permissions)[k].policy == AllPolicies(permissions)[k]
  {
    if permissions != [] { AttachedPolicies(permissions[..|permissions| - 1]); }
  }

  lemma AttachedAreObjects(permissions: seq<Permission>)
    ensures forall k :: 0 <= k < |AllAttached(permissions)| ==>
              AllAttached(permissions)[k].policy in Objects(permissions)
  {
    AttachedPolicies(permissions);
    PoliciesAreObjects(permissions);
    forall k | 0 <= k < |AllAttached(permissions)|
      ensures AllAttached(permissions)[k].policy in Objects(permissions)
    {
      assert AllPolicies(permissions)[k] in AllPolicies(permissions);
    }
  }

  function Occurrences(p: Policy, policies: seq<Policy>): nat {
    multiset(policies)[p]
  }

  /** The conditions after `n` rewritings. */
  function Rewritten(f: Fields, lookup: LookupFn, n: nat): Fields {
    if n == 0 then f else RewriteFields(Rewritten(f, lookup, n - 1), lookup)
  }

  lemma {:induction false} RewrittenAdds(f: Fields, lookup: LookupFn, m: nat, n: nat)
    ensures Rewritten(Rewritten(f, lookup, m), lookup, n) == Rewritten(f, lookup, m + n)
  {
    if n > 0 { RewrittenAdds(f, lookup, m, n - 1); }
  }

  /** One policy: its rule goes to its end of the list, its conditions are rewritten in place. */
  method AddPolicy(refs: seq<RuleRef>, at: Attached, lookup: LookupFn) returns (r: seq<RuleRef>)
    modifies at.policy
    ensures r == AddRef(refs, at)
    ensures at.policy.conditions == RewriteFields(old(at.policy.conditions), lookup)
  {
    if at.policy.conditions != Nil {
      at.policy.RewriteConditions(lookup);
    }
    r := match at.policy.effect
      case Allow => [PolicyRef(at)] + refs
      case Deny => refs + [PolicyRef(at)]
      case OtherEffect => refs;
  }

  /** The policies of one permission: each object is rewritten as often as it occurs. */
  method AddPolicies(refs: seq<RuleRef>, subject: string, policies: seq<Policy>, lookup: LookupFn)
      returns (r: seq<RuleRef>)
    modifies policies
    ensures r == AddRefs(refs, Attach(subject, policies))
    ensures forall p :: p in policies ==> p.conditions == Rewritten(old(p.conditions), lookup, Occurrences(p, policies))
  {
    r := refs;
    for i := 0 to |policies|
      invariant r == AddRefs(refs, Attach(subject, policies[..i]))
      invariant forall p :: p in policies ==>
                  p.conditions == Rewritten(old(p.conditions), lookup, Occurrences(p, policies[..i]))
    {
      NextPolicy(refs, subject, policies, i);
      r := AddPolicy(r, Attached(subject, policies[i]), lookup);
    }
    assert policies[..|policies|] == policies;
  }

  lemma NextPolicy(refs: seq<RuleRef>, subject: string, policies: seq<Policy>, i: nat)
    requires i < |policies|
    ensures AddRefs(refs, Attach(subject, policies[..i + 1]))
         == AddRef(AddRefs(refs, Attach(subject, policies[..i])), Attached(subject, policies[i]))
    ensures forall p: Policy :: p in policies ==>
              Occurrences(p, policies[..i + 1]) == Occurrences(p, policies[..i]) + (if p == policies[i] then 1 else 0)
  {
    assert policies[..i + 1] == policies[..i] + [policies[i]];
    assert Attach(subject, policies[..i + 1])[..i] == Attach(subject, policies[..i]);
  }

  function RefObjects(refs: seq<RuleRef>): set<Policy> {
    set r | r in refs && r.PolicyRef? :: r.at.policy
  }

  /** A rule as the engine gets it, with the conditions as they are by then. */
  function Read(r: RuleRef): Rule
    reads if r.PolicyRef? then {r.at.policy} else {}
  {
    match r
    case AdminRef => ADMIN_RULE
    case PolicyRef(at) =>
      var p := at.policy;
      Rule(p.actions, at.subject, if p.fields != [] then Some(p.fields) else None,
           if p.conditions != Nil then Some(p.conditions) else None, p.effect == Deny)
  }

  function ReadAll(refs: seq<RuleRef>): (rules: seq<Rule>)
    reads RefObjects(refs)
    ensures |rules| == |refs| && forall k :: 0 <= k < |refs| ==> rules[k] == Read(refs[k])
  {
    seq(|refs|, k requires 0 <= k < |refs| reads RefObjects(refs) => Read(refs[k]))
  }

  function AttachedObjects(ats: seq<Attached>): set<Policy> {
    set at | at in ats :: at.policy
  }

  function ViewsOf(ats: seq<Attached>): (items: seq<Item>)
    reads AttachedObjects(ats)
    ensures |items| == |ats| && forall k :: 0 <= k < |ats| ==> items[k] == Item(ats[k].subject, ats[k].policy.View())
  {
    seq(|ats|, k requires 0 <= k < |ats| reads AttachedObjects(ats) => Item(ats[k].subject, ats[k].policy.View()))
  }

  /** The item is the policy as it was before its conditions were rewritten. */
  predicate RewrittenOnce(at: Attached, item: Item, lookup: LookupFn)
    reads at.policy
  {
    && item.subject == at.subject && item.policy.effect == at.policy.effect && item.policy.actions == at.policy.actions
    && item.policy.fields == at.policy.fields
    && at.policy.conditions == RewriteFields(item.policy.conditions, lookup)
  }

  lemma ReadPolicy(at: Attached, item: Item, lookup: LookupFn)
    requires RewrittenOnce(at, item, lookup)
    ensures Read(PolicyRef(at)) == RuleOf(item, lookup)
  {
  }

  /** With every policy's conditions rewritten once, the shared list reads as the one built from the policies before. */
  lemma {:induction false} ReadIsBuild(refs: seq<RuleRef>, rules: seq<Rule>, ats: seq<Attached>, items: seq<Item>,
                                       lookup: LookupFn)
    requires ReadAll(refs) == rules && |items| == |ats|
    requires forall k :: 0 <= k < |ats| ==>
               items[k].policy.effect == ats[k].policy.effect && Read(PolicyRef(ats[k])) == RuleOf(items[k], lookup)
    ensures ReadAll(AddRefs(refs, ats)) == AddRules(rules, items, lookup)
  {
    if ats != [] {
      var k := |ats| - 1;
      ReadIsBuild(refs, rules, ats[..k], items[..k], lookup);
      ReadAdded(AddRefs(refs, ats[..k]), ats[k], items[k], lookup);
    }
  }

  lemma ReadConcat(a: seq<RuleRef>, b: seq<RuleRef>)
    ensures ReadAll(a + b) == ReadAll(a) + ReadAll(b)
  {
    var both := ReadAll(a + b);
    forall k | 0 <= k < |a| + |b|
      ensures both[k] == (ReadAll(a) + ReadAll(b))[k]
    {
      assert both[k] == Read((a + b)[k]);
    }
  }

  lemma ReadAdded(refs: seq<RuleRef>, at: Attached, item: Item, lookup: LookupFn)
    requires item.policy.effect == at.policy.effect && Read(PolicyRef(at)) == RuleOf(item, lookup)
    ensures ReadAll(AddRef(refs, at)) == AddRule(ReadAll(refs), item, lookup)
  {
    ReadConcat([PolicyRef(at)], refs);
    ReadConcat(refs, [PolicyRef(at)]);
    assert ReadAll([PolicyRef(at)]) == [RuleOf(item, lookup)];
  }

  /** No policy object is attached twice. */
  predicate AllDistinct(permissions: seq<Permission>) {
    forall p :: p in Objects(permissions) ==> Occurrences(p, AllPolicies(permissions)) == 1
  }

  /** The builder.  Every policy's conditions end rewritten as often as the policy occurs, and the rules, which share
      them, are read after that; where each conditions object ends as rewritten once, in particular when no policy is
      attached twice, they are the rules built from the policies as they were before. */
  method DefineAbility(permissions: seq<Permission>, isAdmin: bool, lookup: LookupFn) returns (rules: seq<Rule>)
    modifies Objects(permissions)
    ensures rules == ReadAll(AddRefs(if isAdmin then [AdminRef] else [], AllAttached(permissions)))
    ensures forall p :: p in Objects(permissions) ==>
              p.conditions == Rewritten(old(p.conditions), lookup, Occurrences(p, AllPolicies(permissions)))
    ensures (forall p :: p in Objects(permissions) ==> p.conditions == RewriteFields(old(p.conditions), lookup)) ==>
              rules == Build(isAdmin, old(ViewsOf(AllAttached(permissions))), lookup)
    ensures AllDistinct(permissions) ==>
              forall p :: p in Objects(permissions) ==> p.conditions == RewriteFields(old(p.conditions), lookup)
    ensures AllDistinct(permissions) ==> rules == Build(isAdmin, old(ViewsOf(AllAttached(permissions))), lookup)
    ensures AllDistinct(permissions) ==>
              forall q :: Decide(rules, Asked(q)) <==>
                && (isAdmin || old(PolicySpeaks(permissions, Allow, lookup, q)))
                && !old(PolicySpeaks(permissions, Deny, lookup, q))
  {
    ghost var items := ViewsOf(AllAttached(permissions));
    forall q
      ensures SomeSpeaks(items, Allow, lookup, q) <==> PolicySpeaks(permissions, Allow, lookup, q)
      ensures SomeSpeaks(items, Deny, lookup, q) <==> PolicySpeaks(permissions, Deny, lookup, q)
    {
      ViewsSpeak(permissions, Allow, lookup, q);
      ViewsSpeak(permissions, Deny, lookup, q);
    }
    var start := if isAdmin then [AdminRef] else [];
    var refs := AttachPermissions(start, permissions, lookup);
    rules := ReadAll(refs);
    if forall p :: p in Objects(permissions) ==> p.conditions == RewriteFields(old(p.conditions), lookup) {
      AttachedAreObjects(permissions);
      BuiltOnce(permissions, isAdmin, items, lookup);
    }
    forall q
      ensures Decide(Build(isAdmin, items, lookup), Asked(q))
         <==> (isAdmin || SomeSpeaks(items, Allow, lookup, q)) && !SomeSpeaks(items, Deny, lookup, q)
    {
      DecidesByPolicies(isAdmin, items, lookup, q);
    }
  }

  /** Where each conditions object is as rewritten once, the shared list reads as the list built from the values. */
  lemma BuiltOnce(permissions: seq<Permission>, isAdmin: bool, items: seq<Item>, lookup: LookupFn)
    requires |items| == |AllAttached(permissions)|
    requires forall k :: 0 <= k < |items| ==> RewrittenOnce(AllAttached(permissions)[k], items[k], lookup)
    ensures ReadAll(AddRefs(if isAdmin then [AdminRef] else [], AllAttached(permissions)))
            == Build(isAdmin, items, lookup)
  {
    var ats := AllAttached(permissions);
    forall k | 0 <= k < |ats|
      ensures items[k].policy.effect == ats[k].policy.effect && Read(PolicyRef(ats[k])) == RuleOf(items[k], lookup)
    {
      ReadPolicy(ats[k], items[k], lookup);
    }
    ReadIsBuild(if isAdmin then [AdminRef] else [], if isAdmin then [ADMIN_RULE] else [], ats, items, lookup);
  }

  lemma MoreRewritten(before: Fields, middle: Fields, after: Fields, lookup: LookupFn, p: Policy, done: seq<Policy>,
                      more: seq<Policy>)
    requires middle == Rewritten(before, lookup, Occurrences(p, done))
    requires after == Rewritten(middle, lookup, Occurrences(p, more))
    ensures after == Rewritten(before, lookup, Occurrences(p, done + more))
  {
    RewrittenAdds(before, lookup, Occurrences(p, done), Occurrences(p, more));
  }

  lemma NextPermission(permissions: seq<Permission>, start: seq<RuleRef>, i: nat)
    requires i < |permissions|
    ensures AllPolicies(permissions[..i + 1]) == AllPolicies(permissions[..i]) + permissions[i].policies
    ensures AddRefs(start, AllAttached(permissions[..i + 1]))
         == AddRefs(AddRefs(start, AllAttached(permissions[..i])),
                    Attach(permissions[i].subject, permissions[i].policies))
  {
    assert permissions[..i + 1][..i] == permissions[..i];
    AddRefsConcat(start, AllAttached(permissions[..i]), Attach(permissions[i].subject, permissions[i].policies));
  }

  method AttachPermissions(start: seq<RuleRef>, permissions: seq<Permission>, lookup: LookupFn)
      returns (refs: seq<RuleRef>)
    modifies Objects(permissions)
    ensures refs == AddRefs(start, AllAttached(permissions))
    ensures forall p :: p in Objects(permissions) ==>
              p.conditions == Rewritten(old(p.conditions), lookup, Occurrences(p, AllPolicies(permissions)))
  {
    refs := start;
    for i := 0 to |permissions|
      invariant refs == AddRefs(start, AllAttached(permissions[..i]))
      invariant forall p :: p in Objects(permissions) ==>
                  p.conditions == Rewritten(old(p.conditions), lookup, Occurrences(p, AllPolicies(permissions[..i])))
    {
      label Before:
      ghost var done, more := AllPolicies(permissions[..i]), permissions[i].policies;
      NextPermission(permissions, start, i);
      refs := AddPolicies(refs, permissions[i].subject, permissions[i].policies, lookup);
      forall p | p in Objects(permissions)
        ensures p.conditions == Rewritten(old(p.conditions), lookup, Occurrences(p, done + more))
      {
        assert p !in more ==> p.conditions == old@Before(p.conditions);
        MoreRewritten(old(p.conditions), old@Before(p.conditions), p.conditions, lookup, p, done, more);
      }
    }
    assert permissions[..|permissions|] == permissions;
  }

  // ---------- what the guard asks ----------

  /** Some policy with the effect, attached to a permission, speaks about the question. */
  ghost predicate PolicySpeaks(permissions: seq<Permission>, effect: Effect, user: LookupFn, q: Query)
    reads Objects(permissions)
  {
    exists k, j :: 0 <= k < |permissions| && 0 <= j < |permissions[k].policies|
                   && permissions[k].policies[j].effect == effect
                   && Speaks(permissions[k].subject, permissions[k].policies[j].View(), user, q)
  }

  lemma {:induction false} AttachedAt(permissions: seq<Permission>, k: nat, j: nat)
    requires k < |permissions| && j < |permissions[k].policies|
    ensures Attached(permissions[k].subject, permissions[k].policies[j]) in AllAttached(permissions)
  {
    var m := |permissions| - 1;
    var ats := Attach(permissions[m].subject, permissions[m].policies);
    if k < m {
      AttachedAt(permissions[..m], k, j);
    } else {
      assert ats[j] in ats;
    }
  }

  lemma {:induction false} AttachedFrom(permissions: seq<Permission>, at: Attached) returns (k: nat, j: nat)
    requires at in AllAttached(permissions)
    ensures k < |permissions| && j < |permissions[k].policies|
    ensures at == Attached(permissions[k].subject, permissions[k].policies[j])
  {
    k := |permissions| - 1;
    var ats := Attach(permissions[k].subject, permissions[k].policies);
    if at in ats {
      j :| 0 <= j < |ats| && ats[j] == at;
    } else {
      k, j := AttachedFrom(permissions[..k], at);
    }
  }

  lemma ViewsSpeak(permissions: seq<Permission>, effect: Effect, user: LookupFn, q: Query)
    ensures SomeSpeaks(ViewsOf(AllAttached(permissions)), effect, user, q)
       <==> PolicySpeaks(permissions, effect, user, q)
  {
    var ats := AllAttached(permissions);
    var items := ViewsOf(ats);
    if i :| 0 <= i < |items| && items[i].policy.effect == effect && Speaks(items[i].subject, items[i].policy, user, q) {
      var k, j := AttachedFrom(permissions, ats[i]);
      assert Speaks(permissions[k].subject, permissions[k].policies[j].View(), user, q);
    }
    if k, j :| 0 <= k < |permissions| && 0 <= j < |permissions[k].policies|
               && permissions[k].policies[j].effect == effect
               && Speaks(permissions[k].subject, permissions[k].policies[j].View(), user, q) {
      AttachedAt(permissions, k, j);
      var i :| 0 <= i < |ats| && ats[i] == Attached(permissions[k].subject, permissions[k].policies[j]);
      assert Speaks(items[i].subject, items[i].policy, user, q);
    }
  }

  /** The guard: the ability is built for the user and asked.  The answer is yes exactly when the user is an
      administrator or an allowing policy of the permissions, as they were before, speaks about the question, and no
      denying one does. */
  method Can(permissions: seq<Permission>, isAdmin: bool, user: LookupFn, q: Query) returns (allowed: bool)
    modifies Objects(permissions)
    ensures AllDistinct(permissions) ==>
              (allowed <==> && (isAdmin || old(PolicySpeaks(permissions, Allow, user, q)))
                            && !old(PolicySpeaks(permissions, Deny, user, q)))
  {
    var rules := DefineAbility(permissions, isAdmin, user);
    allowed := Decide(rules, Asked(q));
  }

  // ---------- the guard's requests ----------

  /** One request: whether its user is an administrator, and the user's values. */
  datatype Request = Request(isAdmin: bool, user: LookupFn)

  function UsersOf(requests: seq<Request>): (users: seq<LookupFn>)
    ensures |users| == |requests| && forall k :: 0 <= k < |requests| ==> users[k] == requests[k].user
  {
    seq(|requests|, k requires 0 <= k < |requests| => requests[k].user)
  }

  /** One more user. */
  lemma ItemNext(before: Item, item: Item, users: seq<LookupFn>, next: LookupFn)
    requires item == ItemAfter(before, users)
    ensures item.(policy := item.policy.(conditions := RewriteFields(item.policy.conditions, next)))
         == ItemAfter(before, users + [next])
  {
    assert (users + [next])[..|users|] == users;
  }

  lemma ViewNext(at: Attached, item: Item, before: Item, users: seq<LookupFn>, next: LookupFn)
    requires RewrittenOnce(at, item, next) && item == ItemAfter(before, users)
    ensures Item(at.subject, at.policy.View()) == ItemAfter(before, users + [next])
  {
    ItemNext(before, item, users, next);
  }

  lemma ViewsNext(ats: seq<Attached>, items: seq<Item>, before: seq<Item>, users: seq<LookupFn>, next: LookupFn)
    requires |ats| == |items| && forall j :: 0 <= j < |ats| ==> RewrittenOnce(ats[j], items[j], next)
    requires items == ItemsAfter(before, users)
    ensures ViewsOf(ats) == ItemsAfter(before, users + [next])
  {
    forall j | 0 <= j < |ats|
      ensures ViewsOf(ats)[j] == ItemAfter(before[j], users + [next])
    {
      ViewNext(ats[j], items[j], before[j], users, next);
    }
  }

  /** One request, on the policies as the users before it have left them. */
  method ServeRequest(permissions: seq<Permission>, request: Request, ghost items: seq<Item>,
                      ghost users: seq<LookupFn>)
      returns (rules: seq<Rule>)
    requires AllDistinct(permissions) ==> ViewsOf(AllAttached(permissions)) == ItemsAfter(items, users)
    modifies Objects(permissions)
    ensures AllDistinct(permissions) ==>
              && rules == Build(request.isAdmin, ItemsAfter(items, users), request.user)
              && ViewsOf(AllAttached(permissions)) == ItemsAfter(items, users + [request.user])
  {
    ghost var ats := AllAttached(permissions);
    ghost var before := ViewsOf(ats);
    rules := DefineAbility(permissions, request.isAdmin, request.user);
    if AllDistinct(permissions) {
      AttachedAreObjects(permissions);
      ViewsNext(ats, before, items, users, request.user);
    }
  }

  /** Request `k` is answered from the original policies, unless a placeholder in them resolved for a user before. */
  ghost predicate AnsweredAsWritten(items: seq<Item>, requests: seq<Request>, k: nat, rules: seq<Rule>)
    requires k < |requests|
  {
    AllFewBraces(UsersOf(requests[..k])) && NoneResolvesIn(items, UsersOf(requests[..k])) ==>
      rules == Build(requests[k].isAdmin, items, requests[k].user)
  }

  /** Request `k` is answered from the policies as the users before it have left them. */
  ghost predicate AnsweredAsLeft(items: seq<Item>, requests: seq<Request>, k: nat, rules: seq<Rule>)
    requires k < |requests|
  {
    rules == Build(requests[k].isAdmin, ItemsAfter(items, UsersOf(requests[..k])), requests[k].user)
  }

  lemma LeftAsWritten(items: seq<Item>, requests: seq<Request>, k: nat, rules: seq<Rule>)
    requires k < |requests| && AnsweredAsLeft(items, requests, k, rules)
    ensures AnsweredAsWritten(items, requests, k, rules)
  {
    var users := UsersOf(requests[..k]);
    if AllFewBraces(users) && NoneResolvesIn(items, users) { LaterRulesUnaffectedIff(items, users); }
  }

  /** The answers so far, from the policies as they were left and, under that condition, as they were written. */
  ghost predicate Answered(items: seq<Item>, requests: seq<Request>, answers: seq<seq<Rule>>) {
    && |answers| <= |requests|
    && forall k :: 0 <= k < |answers| ==>
         AnsweredAsLeft(items, requests, k, answers[k]) && AnsweredAsWritten(items, requests, k, answers[k])
  }

  lemma AnsweredNext(items: seq<Item>, requests: seq<Request>, answers: seq<seq<Rule>>, rules: seq<Rule>)
    requires Answered(items, requests, answers) && |answers| < |requests|
    requires AnsweredAsLeft(items, requests, |answers|, rules)
    ensures Answered(items, requests, answers + [rules])
  {
    LeftAsWritten(items, requests, |answers|, rules);
  }

  lemma UsersNext(requests: seq<Request>, k: nat)
    requires k < |requests|
    ensures UsersOf(requests[..k + 1]) == UsersOf(requests[..k]) + [requests[k].user]
  {
  }

  /** The permissions are one list for all requests, which come one after the other: each request gets the rules of the
      policies as the users before it have left them, which are those of the original policies where no placeholder
      resolved for any user before. */
  method ServeRequests(permissions: seq<Permission>, requests: seq<Request>) returns (answers: seq<seq<Rule>>)
    modifies Objects(permissions)
    ensures |answers| == |requests|
    ensures AllDistinct(permissions) ==> Answered(old(ViewsOf(AllAttached(permissions))), requests, answers)
  {
    ghost var items := ViewsOf(AllAttached(permissions));
    answers := [];
    NobodyYet(items);
    for k := 0 to |requests|
      invariant |answers| == k
      invariant AllDistinct(permissions) ==>
                  && ViewsOf(AllAttached(permissions)) == ItemsAfter(items, UsersOf(requests[..k]))
                  && Answered(items, requests, answers)
    {
      var rules := ServeRequest(permissions, requests[k], items, UsersOf(requests[..k]));
      UsersNext(requests, k);
      if AllDistinct(permissions) { AnsweredNext(items, requests, answers, rules); }
      answers := answers + [rules];
    }
  }

  lemma NobodyYet(items: seq<Item>)
    ensures ItemsAfter(items, []) == items
  {
    assert forall k :: 0 <= k < |items| ==> ItemAfter(items[k], []) == items[k];
  }
}
