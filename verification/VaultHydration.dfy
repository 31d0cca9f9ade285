/** Hydrating the process environment from the vault by parallel reads that complete in any order. */
module VaultHydration {
  import opened Options

  type Env = map<string, string>

  datatype Outcome = Hydrated(name: string, overwrote: bool) | Missing(name: string)

  /** What one read reports: whether it found the secret, and whether it replaced a different non-empty value. */
  function OutcomeOf(env: Env, vault: Env, name: string): Outcome {
    if name in vault then Hydrated(name, name in env && env[name] != "" && env[name] != vault[name])
    else Missing(name)
  }

  /** One read completes: the variable is written, or left alone when the vault has no such secret. */
  function Written(env: Env, vault: Env, name: string): Env {
    if name in vault then env[name := vault[name]] else env
  }

  /** The order in which the reads of `n` names complete: each index once. */
  predicate IsOrder(order: seq<nat>, n: nat) {
    && (forall k :: 0 <= k < |order| ==> order[k] < n)
    && (forall i, j :: 0 <= i < j < |order| ==> order[i] != order[j])
    && (forall x: nat :: x < n ==> x in order)
  }

  /** The environment after the reads of all `names`, said without an order: the requested secrets that the vault has,
      and every other variable as it was. */
  predicate IsHydration(env: Env, vault: Env, names: seq<string>, env': Env) {
    && (forall n :: n in names && n in vault ==> n in env' && env'[n] == vault[n])
    && (forall n :: n in env && !(n in names && n in vault) ==> n in env' && env'[n] == env[n])
    && (forall n :: n in env' ==> n in env || (n in names && n in vault))
  }

  // ---------- running the reads ----------

  /** Reads complete one after the other; each stores its outcome at its own index, as `Promise.all` does. */
  function Settle(vault: Env, names: seq<string>, order: seq<nat>, env: Env,
                  outcomes: seq<Outcome>): (r: (Env, seq<Outcome>))
    requires |outcomes| == |names| && forall k :: 0 <= k < |order| ==> order[k] < |names|
    ensures |r.1| == |names|
    decreases order
  {
    if order == [] then (env, outcomes)
    else
      var name := names[order[0]];
      Settle(vault, names, order[1..], Written(env, vault, name), outcomes[order[0] := OutcomeOf(env, vault, name)])
  }

  /** Whatever the order, a variable ends with the vault's value if one of the completed reads found it. */
  lemma {:induction false} SettledEnv(vault: Env, names: seq<string>, order: seq<nat>, env: Env,
                                      outcomes: seq<Outcome>, n: string)
    requires |outcomes| == |names| && forall k :: 0 <= k < |order| ==> order[k] < |names|
    ensures var env' := Settle(vault, names, order, env, outcomes).0;
            if n in vault && (exists k :: 0 <= k < |order| && names[order[k]] == n)
            then n in env' && env'[n] == vault[n]
            else (n in env' <==> n in env) && (n in env ==> env'[n] == env[n])
    decreases order
  {
    if order != [] {
      var rest := order[1..];
      var env1 := Written(env, vault, names[order[0]]);
      SettledEnv(vault, names, rest, env1, outcomes[order[0] := OutcomeOf(env, vault, names[order[0]])], n);
      if k :| 0 <= k < |order| && names[order[k]] == n && k > 0 { assert rest[k - 1] == order[k]; }
      if k :| 0 <= k < |rest| && names[rest[k]] == n { assert order[k + 1] == rest[k]; }
    }
  }

  /** A secret may be requested twice as long as reading it replaces no different value; distinct names always
      qualify. */
  predicate RepeatsHarmless(env: Env, vault: Env, names: seq<string>) {
    forall i, j :: 0 <= i < j < |names| && names[i] == names[j] ==> !Overwrites(OutcomeOf(env, vault, names[i]))
  }

  predicate Overwrites(o: Outcome) {
    o.Hydrated? && o.overwrote
  }

  /** A read that completes in between changes no other outcome, unless it is a harmful repeat. */
  lemma {:induction false} SettledOutcome(vault: Env, names: seq<string>, order: seq<nat>, env: Env,
                                          outcomes: seq<Outcome>, i: nat)
    requires |outcomes| == |names| && i < |names| && forall k :: 0 <= k < |order| ==> order[k] < |names|
    requires forall p, q :: 0 <= p < q < |order| ==> order[p] != order[q]
    requires RepeatsHarmless(env, vault, names)
    ensures Settle(vault, names, order, env, outcomes).1[i]
         == if i in order then OutcomeOf(env, vault, names[i]) else outcomes[i]
    decreases order
  {
    if order != [] {
      var rest := order[1..];
      assert order == [order[0]] + rest;
      var env1 := Written(env, vault, names[order[0]]);
      assert RepeatsHarmless(env1, vault, names);
      SettledOutcome(vault, names, rest, env1, outcomes[order[0] := OutcomeOf(env, vault, names[order[0]])], i);
    }
  }

  /** Outcomes of indices that are not in the order stay. */
  lemma {:induction false} SettledElsewhere(vault: Env, names: seq<string>, order: seq<nat>, env: Env,
                                            outcomes: seq<Outcome>, i: nat)
    requires |outcomes| == |names| && i < |names| && forall k :: 0 <= k < |order| ==> order[k] < |names|
    requires i !in order
    ensures Settle(vault, names, order, env, outcomes).1[i] == outcomes[i]
    decreases order
  {
    if order != [] {
      var env1 := Written(env, vault, names[order[0]]);
      assert order == [order[0]] + order[1..];
      SettledElsewhere(vault, names, order[1..], env1, outcomes[order[0] := OutcomeOf(env, vault, names[order[0]])], i);
    }
  }

  /** Once the vault's value is in the environment, a read of it reports no overwriting. */
  lemma {:induction false} SettledLater(vault: Env, names: seq<string>, order: seq<nat>, env: Env,
                                        outcomes: seq<Outcome>, i: nat)
    requires |outcomes| == |names| && i < |names| && forall k :: 0 <= k < |order| ==> order[k] < |names|
    requires i in order && names[i] in vault && names[i] in env && env[names[i]] == vault[names[i]]
    ensures !Overwrites(Settle(vault, names, order, env, outcomes).1[i])
    decreases order
  {
    var env1 := Written(env, vault, names[order[0]]);
    var outcomes1 := outcomes[order[0] := OutcomeOf(env, vault, names[order[0]])];
    assert order == [order[0]] + order[1..];
    if i in order[1..] {
      SettledLater(vault, names, order[1..], env1, outcomes1, i);
    } else {
      SettledElsewhere(vault, names, order[1..], env1, outcomes1, i);
    }
  }

  /** The final environment is the same for every completion order, repeated names or not. */
  lemma EnvIgnoresOrder(vault: Env, names: seq<string>, order: seq<nat>, env: Env, outcomes: seq<Outcome>)
    requires |outcomes| == |names| && IsOrder(order, |names|)
    ensures IsHydration(env, vault, names, Settle(vault, names, order, env, outcomes).0)
  {
    forall n: string
      ensures var env' := Settle(vault, names, order, env, outcomes).0;
              if n in vault && n in names then n in env' && env'[n] == vault[n]
              else (n in env' <==> n in env) && (n in env ==> env'[n] == env[n])
    {
      SettledEnv(vault, names, order, env, outcomes, n);
      if n in names {
        var i :| 0 <= i < |names| && names[i] == n;
        assert i in order;
        var k :| 0 <= k < |order| && order[k] == i;
        assert names[order[k]] == n;
      }
    }
  }

  lemma HydrationIsUnique(env: Env, vault: Env, names: seq<string>, a: Env, b: Env)
    requires IsHydration(env, vault, names, a) && IsHydration(env, vault, names, b)
    ensures a == b
  {
    forall n
      ensures n in a <==> n in b
      ensures n in a && n in b ==> a[n] == b[n]
    {
      if n in names && n in vault { assert a[n] == b[n]; }
    }
  }

  function Unread(names: seq<string>): (r: seq<Outcome>)
    ensures |r| == |names|
  {
    seq(|names|, i requires 0 <= i < |names| => Missing(names[i]))
  }

  function OutcomesOf(env: Env, vault: Env, names: seq<string>, order: seq<nat>): (r: seq<Outcome>)
    requires IsOrder(order, |names|)
    ensures |r| == |names|
  {
    Settle(vault, names, order, env, Unread(names)).1
  }

  /** The order in which index `x` completes first. */
  function FirstIs(x: nat, n: nat): (order: seq<nat>)
    requires x < n
    ensures |order| == n && order[0] == x
  {
    seq(n, k requires 0 <= k < n => if k == 0 then x else if k <= x then k - 1 else k)
  }

  lemma FirstIsOrder(x: nat, n: nat)
    requires x < n
    ensures IsOrder(FirstIs(x, n), n)
  {
    var order := FirstIs(x, n);
    forall y: nat | y < n
      ensures y in order
    {
      var k := if y == x then 0 else if y < x then y + 1 else y;
      assert order[k] == y;
    }
  }

  /** If a harmful repeat completes first or second makes a difference. */
  lemma RepeatsDiffer(env: Env, vault: Env, names: seq<string>, i: nat, j: nat)
    requires i < j < |names| && names[i] == names[j] && Overwrites(OutcomeOf(env, vault, names[i]))
    ensures IsOrder(FirstIs(i, |names|), |names|) && IsOrder(FirstIs(j, |names|), |names|)
    ensures OutcomesOf(env, vault, names, FirstIs(i, |names|)) != OutcomesOf(env, vault, names, FirstIs(j, |names|))
  {
    var a, b := FirstIs(i, |names|), FirstIs(j, |names|);
    FirstIsOrder(i, |names|);
    FirstIsOrder(j, |names|);
    var env1 := Written(env, vault, names[i]);
    SettledElsewhere(vault, names, a[1..], env1, Unread(names)[i := OutcomeOf(env, vault, names[i])], i);
    assert b == [j] + b[1..] && i in b;
    SettledLater(vault, names, b[1..], env1, Unread(names)[j := OutcomeOf(env, vault, names[j])], i);
    assert !Overwrites(OutcomesOf(env, vault, names, b)[i]);
  }

  /** Each read reports what it would have reported on the environment at the start. */
  lemma OutcomesAtStart(env: Env, vault: Env, names: seq<string>, order: seq<nat>)
    requires RepeatsHarmless(env, vault, names) && IsOrder(order, |names|)
    ensures OutcomesOf(env, vault, names, order)
            == seq(|names|, i requires 0 <= i < |names| => OutcomeOf(env, vault, names[i]))
  {
    forall i | 0 <= i < |names|
      ensures OutcomesOf(env, vault, names, order)[i] == OutcomeOf(env, vault, names[i])
    {
      SettledOutcome(vault, names, order, env, Unread(names), i);
    }
  }

  /** The outcomes are the same for every completion order exactly when no repeated name replaces a different value. */
  lemma OutcomesIgnoreOrderIff(env: Env, vault: Env, names: seq<string>)
    ensures RepeatsHarmless(env, vault, names)
       <==> forall a, b :: IsOrder(a, |names|) && IsOrder(b, |names|) ==>
              OutcomesOf(env, vault, names, a) == OutcomesOf(env, vault, names, b)
  {
    if RepeatsHarmless(env, vault, names) {
      forall a, b | IsOrder(a, |names|) && IsOrder(b, |names|)
        ensures OutcomesOf(env, vault, names, a) == OutcomesOf(env, vault, names, b)
      {
        OutcomesAtStart(env, vault, names, a);
        OutcomesAtStart(env, vault, names, b);
        forall i | 0 <= i < |names|
          ensures OutcomesOf(env, vault, names, a)[i] == OutcomesOf(env, vault, names, b)[i]
        {
          assert OutcomesOf(env, vault, names, a)[i] == OutcomeOf(env, vault, names[i]);
        }
      }
    } else {
      var i, j :| 0 <= i < j < |names| && names[i] == names[j] && Overwrites(OutcomeOf(env, vault, names[i]));
      RepeatsDiffer(env, vault, names, i, j);
    }
  }

  // ---------- the three lists that are logged ----------

  /** `outcomes.filter(p).map(o => o.name)`. */
  function NamesWhere(os: seq<Outcome>, p: Outcome -> bool): seq<string> {
    if os == [] then [] else (if p(os[0]) then [os[0].name] else []) + NamesWhere(os[1..], p)
  }

  predicate IsHydrated(o: Outcome) {
    o.Hydrated?
  }

  predicate IsMissing(o: Outcome) {
    o.Missing?
  }

  function Stored(vault: Env): string -> bool {
    n => n in vault
  }

  function Absent(vault: Env): string -> bool {
    n => n !in vault
  }

  /** The requested names whose value in the environment is not empty and not the vault's. */
  function Replaced(env: Env, vault: Env): string -> bool {
    n => n in vault && n in env && env[n] != "" && env[n] != vault[n]
  }

  function Filter(names: seq<string>, q: string -> bool): seq<string> {
    if names == [] then [] else (if q(names[0]) then [names[0]] else []) + Filter(names[1..], q)
  }

  lemma {:induction false} NamesAreFiltered(os: seq<Outcome>, p: Outcome -> bool, names: seq<string>, q: string -> bool)
    requires |os| == |names|
    requires forall i :: 0 <= i < |os| ==> os[i].name == names[i] && p(os[i]) == q(names[i])
    ensures NamesWhere(os, p) == Filter(names, q)
  {
    if os != [] { NamesAreFiltered(os[1..], p, names[1..], q); }
  }

  /** Which reads found their secret does not depend on the order or on repeats. */
  lemma {:induction false} SettledKind(vault: Env, names: seq<string>, order: seq<nat>, env: Env,
                                       outcomes: seq<Outcome>, i: nat)
    requires |outcomes| == |names| && i < |names| && forall k :: 0 <= k < |order| ==> order[k] < |names|
    requires i in order || (outcomes[i].name == names[i] && (outcomes[i].Hydrated? <==> names[i] in vault))
    ensures var o := Settle(vault, names, order, env, outcomes).1[i];
            o.name == names[i] && (o.Hydrated? <==> names[i] in vault)
    decreases order
  {
    if order != [] {
      assert order == [order[0]] + order[1..];
      SettledKind(vault, names, order[1..], Written(env, vault, names[order[0]]),
                  outcomes[order[0] := OutcomeOf(env, vault, names[order[0]])], i);
    }
  }

  /** The hydrated and missing lists split the request by what the vault has, in the order requested, whatever the
      completion order; the overwritten list is determined too when no repeat is harmful. */
  lemma ListsIgnoreOrder(env: Env, vault: Env, names: seq<string>, order: seq<nat>)
    requires IsOrder(order, |names|)
    ensures NamesWhere(OutcomesOf(env, vault, names, order), IsHydrated) == Filter(names, Stored(vault))
    ensures NamesWhere(OutcomesOf(env, vault, names, order), IsMissing) == Filter(names, Absent(vault))
    ensures RepeatsHarmless(env, vault, names) ==>
              NamesWhere(OutcomesOf(env, vault, names, order), Overwrites)
              == Filter(names, Replaced(env, vault))
  {
    var os := OutcomesOf(env, vault, names, order);
    forall i | 0 <= i < |names|
      ensures os[i].name == names[i] && (os[i].Hydrated? <==> names[i] in vault)
    {
      SettledKind(vault, names, order, env, Unread(names), i);
    }
    NamesAreFiltered(os, IsHydrated, names, Stored(vault));
    NamesAreFiltered(os, IsMissing, names, Absent(vault));
    if RepeatsHarmless(env, vault, names) {
      OutcomesAtStart(env, vault, names, order);
      NamesAreFiltered(os, Overwrites, names, Replaced(env, vault));
    }
  }

  // ---------- the bootstrap step ----------

  function ToLower(s: string): string {
    if s == "" then "" else [if 'A' <= s[0] <= 'Z' then s[0] - 'A' + 'a' else s[0]] + ToLower(s[1..])
  }

  /** `(process.env.SECRETS_PROVIDER || "env").toLowerCase() === "supabase"`. */
  predicate Active(env: Env) {
    "SECRETS_PROVIDER" in env && ToLower(env["SECRETS_PROVIDER"]) == "supabase"
  }

  lemma {:induction false} ToLowerAt(s: string, k: nat)
    requires k < |s|
    ensures |ToLower(s)| == |s| && ToLower(s)[k] == if 'A' <= s[k] <= 'Z' then s[k] - 'A' + 'a' else s[k]
    decreases |s|
  {
    if |s| > 1 { ToLowerAt(s[1..], if k > 0 then k - 1 else 0); }
  }

  /** The mode is hydrating if and only if the variable reads `supabase`, each letter small or capital. */
  lemma ActiveIff(env: Env)
    ensures Active(env)
       <==> && "SECRETS_PROVIDER" in env && |env["SECRETS_PROVIDER"]| == 8
            && forall k :: 0 <= k < 8 ==>
                 env["SECRETS_PROVIDER"][k] == "supabase"[k] || env["SECRETS_PROVIDER"][k] == "SUPABASE"[k]
  {
    if "SECRETS_PROVIDER" in env {
      var v := env["SECRETS_PROVIDER"];
      if v != "" { ToLowerAt(v, 0); }
      if |v| == 8 {
        forall k | 0 <= k < 8
          ensures ToLower(v)[k] == "supabase"[k] <==> v[k] == "supabase"[k] || v[k] == "SUPABASE"[k]
        {
          ToLowerAt(v, k);
          assert "SUPABASE"[k] - 'A' + 'a' == "supabase"[k];
        }
      }
    }
  }

  class Process {
    var env: Env

    constructor (env: Env)
      ensures this.env == env
    {
      this.env := env;
    }

    /** `order` is the order in which the parallel reads happen to complete. */
    method HydrateEnvFromVault(names: seq<string>, vault: Env, order: seq<nat>)
      returns (hydrated: seq<string>, overwritten: seq<string>, missing: seq<string>)
      requires IsOrder(order, |names|)
      modifies this
      ensures !Active(old(env)) ==> env == old(env) && hydrated == overwritten == missing == []
      ensures Active(old(env)) ==> IsHydration(old(env), vault, names, env)
      ensures Active(old(env)) ==> hydrated == Filter(names, Stored(vault)) && missing == Filter(names, Absent(vault))
      ensures Active(old(env)) ==> overwritten == NamesWhere(OutcomesOf(old(env), vault, names, order), Overwrites)
    {
      hydrated, overwritten, missing := [], [], [];
      if !Active(env) || names == [] {
        return;
      }
      ghost var env0 := env;
      var outcomes := Unread(names);
      var k := 0;
      while k < |order|
        invariant 0 <= k <= |order| && |outcomes| == |names|
        invariant Settle(vault, names, order, env0, Unread(names)) == Settle(vault, names, order[k..], env, outcomes)
      {
        var i := order[k];
        ghost var rest := order[k..];
        assert rest[0] == i && rest[1..] == order[k + 1..];
        var had := Lookup(env, names[i]);
        if names[i] in vault {
          var value := vault[names[i]];
          env := env[names[i] := value];
          outcomes := outcomes[i := Hydrated(names[i], had.Some? && had.value != "" && had.value != value)];
        } else {
          outcomes := outcomes[i := Missing(names[i])];
        }
        k := k + 1;
      }
      EnvIgnoresOrder(vault, names, order, env0, Unread(names));
      ListsIgnoreOrder(env0, vault, names, order);
      hydrated := NamesWhere(outcomes, IsHydrated);
      overwritten := NamesWhere(outcomes, Overwrites);
      missing := NamesWhere(outcomes, IsMissing);
    }
  }
}
