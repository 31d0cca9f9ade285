/** The permission layer's placeholder rewriter.
    `lookup` stands for reading the trimmed path from the user object; everything holds for any such function. */
module Placeholders {
  import opened Options
  import opened Tokens

  type LookupFn = string -> Option<string>

  predicate Brace(c: char) {
    c == '{' || c == '}'
  }

  /** The end of the brace-free stretch that starts at `i`. */
  function NameEnd(s: string, i: nat): (e: nat)
    requires i <= |s|
    ensures i <= e <= |s|
    decreases |s| - i
  {
    if i < |s| && !Brace(s[i]) then NameEnd(s, i + 1) else i
  }

  lemma {:induction false} NameEndIs(s: string, i: nat, e: nat)
    requires i <= e <= |s| && (e < |s| ==> Brace(s[e])) && forall j :: i <= j < e ==> !Brace(s[j])
    ensures NameEnd(s, i) == e
    decreases |s| - i
  {
    if i < e { NameEndIs(s, i + 1, e); }
  }

  /** The pattern `{{`, no braces, `}}` matches at `k`. */
  predicate MatchAt(s: string, k: nat) {
    OccursAt(s, OPEN, k) && OccursAt(s, CLOSE, NameEnd(s, k + 2))
  }

  function NameAt(s: string, k: nat): (name: string)
    requires MatchAt(s, k)
    ensures k + 4 + |name| <= |s|
  {
    s[k + 2..NameEnd(s, k + 2)]
  }

  function Replacement(lookup: LookupFn, name: string): string {
    match lookup(name)
    case Some(value) => value
    case None => Print(Hole(name))
  }

  function RewriteFrom(s: string, lookup: LookupFn, k: nat): string
    requires k <= |s|
    decreases |s| - k
  {
    if MatchAt(s, k) then
      Replacement(lookup, NameAt(s, k)) + RewriteFrom(s, lookup, k + 4 + |NameAt(s, k)|)
    else if k < |s| then [s[k]] + RewriteFrom(s, lookup, k + 1)
    else ""
  }

  /** `replacePlaceholder`. */
  function Rewrite(s: string, lookup: LookupFn): string {
    RewriteFrom(s, lookup, 0)
  }

  // ---------- one pass over tokens ----------

  /** The text as its placeholders and the single characters around them. */
  function TokensFrom(s: string, k: nat): seq<Token>
    requires k <= |s|
    decreases |s| - k
  {
    if MatchAt(s, k) then [Hole(NameAt(s, k))] + TokensFrom(s, k + 4 + |NameAt(s, k)|)
    else if k < |s| then [Lit([s[k]])] + TokensFrom(s, k + 1)
    else []
  }

  function ResolveToken(t: Token, lookup: LookupFn): Token {
    if t.Hole? && lookup(t.name).Some? then Lit(lookup(t.name).value) else t
  }

  function Resolve(ts: seq<Token>, lookup: LookupFn): (r: seq<Token>)
    ensures |r| == |ts| && forall i :: 0 <= i < |ts| ==> r[i] == ResolveToken(ts[i], lookup)
  {
    seq(|ts|, i requires 0 <= i < |ts| => ResolveToken(ts[i], lookup))
  }

  lemma MatchedText(s: string, k: nat)
    requires MatchAt(s, k)
    ensures s[k..k + 4 + |NameAt(s, k)|] == Print(Hole(NameAt(s, k)))
  {
    var name := NameAt(s, k);
    var h := Print(Hole(name));
    var e := NameEnd(s, k + 2);
    assert s[k + 0] == OPEN[0] && s[k + 1] == OPEN[1];
    assert s[e + 0] == CLOSE[0] && s[e + 1] == CLOSE[1];
    assert s[k..k + 4 + |name|] == s[k..k + 2] + s[k + 2..e] + s[e..e + 2];
  }

  /** Printing the tokens gives the text back. */
  lemma {:induction false} TokensPrintBack(s: string, k: nat)
    requires k <= |s|
    ensures Render(TokensFrom(s, k)) == s[k..]
    decreases |s| - k
  {
    if MatchAt(s, k) {
      var n := k + 4 + |NameAt(s, k)|;
      TokensPrintBack(s, n);
      RenderCons(Hole(NameAt(s, k)), TokensFrom(s, n));
      MatchedText(s, k);
      SplitAt(s, k, n);
    } else if k < |s| {
      TokensPrintBack(s, k + 1);
      RenderCons(Lit([s[k]]), TokensFrom(s, k + 1));
      SplitAt(s, k, k + 1);
    }
  }

  lemma ResolveCons(t: Token, rest: seq<Token>, lookup: LookupFn)
    ensures Resolve([t] + rest, lookup) == [ResolveToken(t, lookup)] + Resolve(rest, lookup)
  {
  }

  /** From `k` on, the rewriter gives the resolution of the tokens. */
  ghost predicate Gives(s: string, lookup: LookupFn, k: nat, ts: seq<Token>)
    requires k <= |s|
  {
    RewriteFrom(s, lookup, k) == Render(Resolve(ts, lookup))
  }

  lemma ResolvedFront(t: Token, rest: seq<Token>, lookup: LookupFn)
    ensures Render(Resolve([t] + rest, lookup)) == Print(ResolveToken(t, lookup)) + Render(Resolve(rest, lookup))
  {
    ResolveCons(t, rest, lookup);
    RenderCons(ResolveToken(t, lookup), Resolve(rest, lookup));
  }

  /** One more token in front. */
  lemma GivesFront(s: string, lookup: LookupFn, k: nat, t: Token, n: nat, rest: seq<Token>)
    requires k <= n <= |s| && RewriteFrom(s, lookup, k) == Print(ResolveToken(t, lookup)) + RewriteFrom(s, lookup, n)
    requires Gives(s, lookup, n, rest)
    ensures Gives(s, lookup, k, [t] + rest)
  {
    ResolvedFront(t, rest, lookup);
  }

  lemma ReplacementIs(lookup: LookupFn, name: string)
    ensures Print(ResolveToken(Hole(name), lookup)) == Replacement(lookup, name)
  {
  }

  /** At a match both the rewriter and the tokens go on behind it. */
  lemma AtMatch(s: string, lookup: LookupFn, k: nat, name: string, n: nat)
    requires MatchAt(s, k) && NameAt(s, k) == name && n == k + 4 + |name|
    ensures RewriteFrom(s, lookup, k) == Replacement(lookup, name) + RewriteFrom(s, lookup, n)
    ensures TokensFrom(s, k) == [Hole(name)] + TokensFrom(s, n)
  {
    assert NameAt(s, k) == name;
  }

  /** Elsewhere both go on behind one character. */
  lemma AtCharacter(s: string, lookup: LookupFn, k: nat)
    requires k < |s| && !MatchAt(s, k)
    ensures RewriteFrom(s, lookup, k) == [s[k]] + RewriteFrom(s, lookup, k + 1)
    ensures TokensFrom(s, k) == [Lit([s[k]])] + TokensFrom(s, k + 1)
  {
  }

  lemma GivesMatch(s: string, lookup: LookupFn, k: nat, name: string, n: nat)
    requires MatchAt(s, k) && NameAt(s, k) == name && n == k + 4 + |name| && Gives(s, lookup, n, TokensFrom(s, n))
    ensures Gives(s, lookup, k, TokensFrom(s, k))
  {
    AtMatch(s, lookup, k, name, n);
    ReplacementIs(lookup, name);
    GivesFront(s, lookup, k, Hole(name), n, TokensFrom(s, n));
  }

  lemma GivesCharacter(s: string, lookup: LookupFn, k: nat)
    requires k < |s| && !MatchAt(s, k) && Gives(s, lookup, k + 1, TokensFrom(s, k + 1))
    ensures Gives(s, lookup, k, TokensFrom(s, k))
  {
    AtCharacter(s, lookup, k);
    GivesFront(s, lookup, k, Lit([s[k]]), k + 1, TokensFrom(s, k + 1));
  }

  lemma GivesNothing(s: string, lookup: LookupFn)
    ensures Gives(s, lookup, |s|, [])
  {
    OpenAt(s, |s|);
    assert Resolve([], lookup) == [];
  }

  lemma GivesEnd(s: string, lookup: LookupFn)
    ensures Gives(s, lookup, |s|, TokensFrom(s, |s|))
  {
    OpenAt(s, |s|);
    GivesNothing(s, lookup);
  }

  lemma {:induction false} GivesTokens(s: string, lookup: LookupFn, k: nat)
    requires k <= |s|
    ensures Gives(s, lookup, k, TokensFrom(s, k))
    decreases |s| - k
  {
    if k == |s| {
      GivesEnd(s, lookup);
    } else if MatchAt(s, k) {
      var name := NameAt(s, k);
      var n := k + 4 + |name|;
      GivesTokens(s, lookup, n);
      GivesMatch(s, lookup, k, name, n);
    } else {
      GivesTokens(s, lookup, k + 1);
      GivesCharacter(s, lookup, k);
    }
  }

  /** The rewriter maps the tokens in one pass: resolvable holes become their value, all else is printed back. */
  lemma RewriteMapsTokens(s: string, lookup: LookupFn)
    ensures Rewrite(s, lookup) == Render(Resolve(TokensFrom(s, 0), lookup))
  {
    GivesTokens(s, lookup, 0);
  }

  /** A text none of whose placeholders can be resolved is printed back unchanged. */
  lemma UnresolvedUnchanged(s: string, lookup: LookupFn)
    requires forall i :: 0 <= i < |TokensFrom(s, 0)| && TokensFrom(s, 0)[i].Hole? ==>
               lookup(TokensFrom(s, 0)[i].name) == None
    ensures Rewrite(s, lookup) == s
  {
    RewriteMapsTokens(s, lookup);
    TokensPrintBack(s, 0);
    assert Resolve(TokensFrom(s, 0), lookup) == TokensFrom(s, 0);
    assert s[0..] == s;
  }

  // ---------- when a rewriting changes nothing ----------

  /** Some placeholder of the text resolves for the user. */
  predicate AnyResolves(s: string, lookup: LookupFn) {
    TokenResolves(TokensFrom(s, 0), lookup)
  }

  predicate TokenResolves(ts: seq<Token>, lookup: LookupFn) {
    exists i :: 0 <= i < |ts| && ts[i].Hole? && lookup(ts[i].name).Some?
  }

  function Opens(s: string): nat {
    if s == "" then 0 else (if s[0] == '{' then 1 else 0) + Opens(s[1..])
  }

  lemma {:induction false} OpensConcat(a: string, b: string)
    ensures Opens(a + b) == Opens(a) + Opens(b)
  {
    if a == "" {
      assert a + b == b;
    } else {
      assert (a + b)[1..] == a[1..] + b;
      OpensConcat(a[1..], b);
    }
  }

  lemma HoleOpens(name: string)
    ensures Opens(Print(Hole(name))) >= 2
  {
    assert Opens(OPEN) == 2 by { assert OPEN[1..][1..] == "" && OPEN[0] == OPEN[1..][0] == '{'; }
    OpensConcat(OPEN, name);
    OpensConcat(OPEN + name, CLOSE);
  }

  /** No value of the user has two opening braces. */
  ghost predicate FewBraces(lookup: LookupFn) {
    forall name :: lookup(name).Some? ==> Opens(lookup(name).value) < 2
  }

  lemma TokenOpens(t: Token, lookup: LookupFn)
    requires FewBraces(lookup)
    ensures Opens(Print(ResolveToken(t, lookup))) <= Opens(Print(t))
    ensures t.Hole? && lookup(t.name).Some? ==> Opens(Print(ResolveToken(t, lookup))) < Opens(Print(t))
  {
    if t.Hole? { HoleOpens(t.name); }
  }

  lemma ResolvesFront(t: Token, rest: seq<Token>, lookup: LookupFn)
    ensures TokenResolves([t] + rest, lookup) ==> (t.Hole? && lookup(t.name).Some?) || TokenResolves(rest, lookup)
  {
    var ts := [t] + rest;
    if i :| 0 <= i < |ts| && ts[i].Hole? && lookup(ts[i].name).Some? && i > 0 {
      assert rest[i - 1] == ts[i];
    }
  }

  /** Resolving never adds opening braces, and every resolved placeholder takes some away. */
  lemma {:induction false} ResolveOpens(ts: seq<Token>, lookup: LookupFn)
    requires FewBraces(lookup)
    ensures Opens(Render(Resolve(ts, lookup))) <= Opens(Render(ts))
    ensures TokenResolves(ts, lookup) ==> Opens(Render(Resolve(ts, lookup))) < Opens(Render(ts))
  {
    if ts != [] {
      var t, rest := ts[0], ts[1..];
      RenderSplit(ts);
      assert ts == [t] + rest;
      ResolveOpens(rest, lookup);
      ResolvedFront(t, rest, lookup);
      OpensConcat(Print(ResolveToken(t, lookup)), Render(Resolve(rest, lookup)));
      OpensConcat(Print(t), Render(rest));
      TokenOpens(t, lookup);
      ResolvesFront(t, rest, lookup);
    }
  }

  /** A text is unchanged if and only if none of its placeholders resolves. */
  lemma UnchangedIff(s: string, lookup: LookupFn)
    requires FewBraces(lookup)
    ensures Rewrite(s, lookup) == s <==> !AnyResolves(s, lookup)
  {
    if AnyResolves(s, lookup) {
      RewriteMapsTokens(s, lookup);
      TokensPrintBack(s, 0);
      assert s[0..] == s;
      ResolveOpens(TokensFrom(s, 0), lookup);
    } else {
      UnresolvedUnchanged(s, lookup);
    }
  }

  /** For every text: a second pass changes nothing if and only if the rewritten text has no placeholder that
      resolves.  This is `UnchangedIff` at the rewritten text, so the condition is one on the result of the first
      pass; `SecondPassIsIdentity` has one on the text and the values. */
  lemma SecondPassIsIdentityIff(s: string, lookup: LookupFn)
    requires FewBraces(lookup)
    ensures Rewrite(Rewrite(s, lookup), lookup) == Rewrite(s, lookup) <==> !AnyResolves(Rewrite(s, lookup), lookup)
  {
    UnchangedIff(Rewrite(s, lookup), lookup);
  }

  /** With more braces there is no condition on the placeholders alone: a value that is its own placeholder resolves and
      changes nothing. */
  lemma OwnPlaceholderUnchanged(name: string, lookup: LookupFn)
    requires PlainName(name) && lookup(name) == Some(Print(Hole(name)))
    ensures Rewrite(Print(Hole(name)), lookup) == Print(Hole(name)) && AnyResolves(Print(Hole(name)), lookup)
  {
    SingleHole(name, lookup);
    var s := Print(Hole(name));
    HoleIsMatched(s, 0, name);
    assert TokensFrom(s, 0)[0] == Hole(name);
  }

  // ---------- clean texts and the second pass ----------

  lemma NameBetween(s: string, i: nat, name: string)
    requires PlainName(name) && i + |name| < |s| && Brace(s[i + |name|])
    requires forall j :: 0 <= j < |name| ==> s[i + j] == name[j]
    ensures NameEnd(s, i) == i + |name| && s[i..i + |name|] == name
  {
    forall j | i <= j < i + |name|
      ensures !Brace(s[j])
    {
      assert s[i + (j - i)] == name[j - i];
    }
    NameEndIs(s, i, i + |name|);
  }

  lemma MatchIs(s: string, k: nat, name: string)
    requires PlainName(name) && k + |name| + 4 <= |s| && s[k] == s[k + 1] == '{'
    requires s[k + |name| + 2] == s[k + |name| + 3] == '}'
    requires forall i :: 0 <= i < |name| ==> s[k + 2 + i] == name[i]
    ensures MatchAt(s, k) && NameAt(s, k) == name
  {
    OpenAt(s, k);
    NameBetween(s, k + 2, name);
    CloseAt(s, k + 2 + |name|);
  }

  lemma HoleIsMatched(s: string, k: nat, name: string)
    requires OccursAt(s, Print(Hole(name)), k) && PlainName(name)
    ensures MatchAt(s, k) && NameAt(s, k) == name
  {
    HoleInContext(s, k, name);
    MatchIs(s, k, name);
  }

  lemma CloseAt(s: string, k: nat)
    requires k + 2 <= |s| && s[k] == s[k + 1] == '}'
    ensures OccursAt(s, CLOSE, k)
  {
    assert CLOSE[0] == '}' && CLOSE[1] == '}';
  }

  lemma CopyOne(s: string, lookup: LookupFn, k: nat)
    requires k < |s| && !OccursAt(s, OPEN, k)
    ensures RewriteFrom(s, lookup, k) == [s[k]] + RewriteFrom(s, lookup, k + 1)
  {
  }

  lemma {:induction false} CopyMany(s: string, lookup: LookupFn, k: nat, n: nat)
    requires k <= n <= |s| && NoOpenWithin(s, k, n - k)
    ensures RewriteFrom(s, lookup, k) == s[k..n] + RewriteFrom(s, lookup, n)
    decreases n - k
  {
    if k < n {
      CopyMany(s, lookup, k + 1, n);
      CopyOne(s, lookup, k);
      Reassociate(s, k, n, RewriteFrom(s, lookup, n));
    }
  }

  lemma RewriteLiteral(s: string, k: nat, text: string, n: nat, lookup: LookupFn)
    requires OccursAt(s, text, k) && CleanText(text) && n == k + |text|
    ensures RewriteFrom(s, lookup, k) == text + RewriteFrom(s, lookup, n)
  {
    LiteralHasNoOpen(s, k, text);
    CopyMany(s, lookup, k, n);
    OccurrenceIs(s, k, text);
  }

  lemma RewriteHole(s: string, k: nat, name: string, n: nat, lookup: LookupFn)
    requires OccursAt(s, Print(Hole(name)), k) && PlainName(name) && n == k + 4 + |name|
    ensures RewriteFrom(s, lookup, k) == Print(ResolveToken(Hole(name), lookup)) + RewriteFrom(s, lookup, n)
  {
    HoleIsMatched(s, k, name);
    AtMatch(s, lookup, k, name, n);
    ReplacementIs(lookup, name);
  }

  lemma RewriteEnd(s: string, lookup: LookupFn)
    ensures RewriteFrom(s, lookup, |s|) == ""
  {
    OpenAt(s, |s|);
  }

  /** One clean token is replaced by its resolution. */
  lemma RewriteToken(s: string, k: nat, t: Token, n: nat, lookup: LookupFn)
    requires OccursAt(s, Print(t), k) && CleanToken(t) && n == k + |Print(t)|
    ensures RewriteFrom(s, lookup, k) == Print(ResolveToken(t, lookup)) + RewriteFrom(s, lookup, n)
  {
    match t {
      case Hole(name) => RewriteHole(s, k, name, n, lookup);
      case Lit(text) =>
        RewriteLiteral(s, k, text, n, lookup);
        assert Print(ResolveToken(t, lookup)) == text;
    }
  }

  lemma GivesOneMore(s: string, k: nat, t: Token, n: nat, rest: seq<Token>, lookup: LookupFn)
    requires OccursAt(s, Print(t), k) && CleanToken(t) && n == k + |Print(t)| && Gives(s, lookup, n, rest)
    ensures Gives(s, lookup, k, [t] + rest)
  {
    RewriteToken(s, k, t, n, lookup);
    GivesFront(s, lookup, k, t, n, rest);
  }

  lemma GivesAll(s: string, k: nat, ts: seq<Token>, n: nat, lookup: LookupFn)
    requires ts != [] && OccursAt(s, Print(ts[0]), k) && CleanToken(ts[0]) && n == k + |Print(ts[0])|
    requires Gives(s, lookup, n, ts[1..])
    ensures Gives(s, lookup, k, ts)
  {
    GivesOneMore(s, k, ts[0], n, ts[1..], lookup);
    assert ts == [ts[0]] + ts[1..];
  }

  lemma CleanTail(ts: seq<Token>)
    requires CleanTokens(ts) && ts != []
    ensures CleanToken(ts[0]) && CleanTokens(ts[1..])
  {
  }

  /** On a clean text the rewriter finds exactly the holes the text was printed with. */
  lemma {:induction false} RewriteOnTokens(s: string, k: nat, ts: seq<Token>, lookup: LookupFn)
    requires k <= |s| && s[k..] == Render(ts) && CleanTokens(ts)
    ensures Gives(s, lookup, k, ts)
    decreases |ts|
  {
    if ts == [] {
      AllRendered(s, k);
      GivesNothing(s, lookup);
    } else {
      var n := PeelToken(s, k, ts);
      CleanTail(ts);
      RewriteOnTokens(s, n, ts[1..], lookup);
      GivesAll(s, k, ts, n, lookup);
    }
  }

  /** Applied to the whole of a clean text. */
  lemma RewriteClean(ts: seq<Token>, lookup: LookupFn)
    requires CleanTokens(ts)
    ensures Rewrite(Render(ts), lookup) == Render(Resolve(ts, lookup))
  {
    RewriteOnTokens(Render(ts), 0, ts, lookup);
  }

  /** Values that form no new placeholder. */
  predicate CleanValues(ts: seq<Token>, lookup: LookupFn) {
    forall i :: 0 <= i < |ts| ==> CleanToken(ResolveToken(ts[i], lookup))
  }

  /** Then a second pass changes nothing. */
  lemma SecondPassIsIdentity(ts: seq<Token>, lookup: LookupFn)
    requires CleanTokens(ts) && CleanValues(ts, lookup)
    ensures Rewrite(Rewrite(Render(ts), lookup), lookup) == Rewrite(Render(ts), lookup)
  {
    var rs := Resolve(ts, lookup);
    RewriteClean(ts, lookup);
    RewriteClean(rs, lookup);
    assert Resolve(rs, lookup) == rs;
  }

  /** A value that prints a placeholder is resolved by a second pass. */
  lemma SecondPassMayResolve(a: string, b: string, x: string, lookup: LookupFn)
    requires PlainName(a) && PlainName(b) && lookup(a) == Some(Print(Hole(b))) && lookup(b) == Some(x)
    ensures Rewrite(Print(Hole(a)), lookup) == Print(Hole(b))
    ensures Rewrite(Rewrite(Print(Hole(a)), lookup), lookup) == x
  {
    SingleHole(a, lookup);
    SingleHole(b, lookup);
  }

  lemma SingleHole(name: string, lookup: LookupFn)
    requires PlainName(name)
    ensures Rewrite(Print(Hole(name)), lookup) == Print(ResolveToken(Hole(name), lookup))
  {
    RewriteHole(Print(Hole(name)), 0, name, 4 + |name|, lookup);
    RewriteEnd(Print(Hole(name)), lookup);
  }

  // ---------- the conditions object ----------

  /** A conditions object; `Other` is any value that is neither a string nor an object. */
  datatype Json = Text(text: string) | Other(id: int) | Object(fields: Fields)
  datatype Fields = Nil | Field(key: string, value: Json, rest: Fields)

  function RewriteJson(j: Json, lookup: LookupFn): Json {
    match j
    case Text(text) => Text(Rewrite(text, lookup))
    case Other(_) => j
    case Object(fields) => Object(RewriteFields(fields, lookup))
  }

  /** `replacePlaceholders`. */
  function RewriteFields(f: Fields, lookup: LookupFn): Fields {
    match f
    case Nil => Nil
    case Field(key, value, rest) => Field(key, RewriteJson(value, lookup), RewriteFields(rest, lookup))
  }

  /** The object with all strings blanked: its keys, their order and nesting, and its other values. */
  function SkeletonJson(j: Json): Json {
    match j
    case Text(_) => Text("")
    case Other(_) => j
    case Object(fields) => Object(SkeletonFields(fields))
  }

  function SkeletonFields(f: Fields): Fields {
    match f
    case Nil => Nil
    case Field(key, value, rest) => Field(key, SkeletonJson(value), SkeletonFields(rest))
  }

  lemma {:induction false} SkeletonKeptJson(j: Json, lookup: LookupFn)
    ensures SkeletonJson(RewriteJson(j, lookup)) == SkeletonJson(j)
  {
    if j.Object? { SkeletonKept(j.fields, lookup); }
  }

  /** Rewriting keeps the tree of keys. */
  lemma {:induction false} SkeletonKept(f: Fields, lookup: LookupFn)
    ensures SkeletonFields(RewriteFields(f, lookup)) == SkeletonFields(f)
  {
    if f.Field? {
      SkeletonKeptJson(f.value, lookup);
      SkeletonKept(f.rest, lookup);
    }
  }

  /** Some placeholder in some string of the object resolves for the user. */
  predicate AnyResolvesJson(j: Json, lookup: LookupFn) {
    match j
    case Text(text) => AnyResolves(text, lookup)
    case Other(_) => false
    case Object(fields) => AnyResolvesFields(fields, lookup)
  }

  predicate AnyResolvesFields(f: Fields, lookup: LookupFn) {
    f.Field? && (AnyResolvesJson(f.value, lookup) || AnyResolvesFields(f.rest, lookup))
  }

  lemma {:induction false} UnchangedIffJson(j: Json, lookup: LookupFn)
    requires FewBraces(lookup)
    ensures RewriteJson(j, lookup) == j <==> !AnyResolvesJson(j, lookup)
  {
    match j {
      case Text(text) => UnchangedIff(text, lookup);
      case Other(_) =>
      case Object(fields) => UnchangedIffFields(fields, lookup);
    }
  }

  /** A conditions object is unchanged if and only if no placeholder in it resolves. */
  lemma {:induction false} UnchangedIffFields(f: Fields, lookup: LookupFn)
    requires FewBraces(lookup)
    ensures RewriteFields(f, lookup) == f <==> !AnyResolvesFields(f, lookup)
  {
    if f.Field? {
      UnchangedIffJson(f.value, lookup);
      UnchangedIffFields(f.rest, lookup);
    }
  }

  lemma {:induction false} NothingResolvedFor(f: Fields, none: LookupFn)
    requires forall x :: none(x) == None
    ensures RewriteFields(f, none) == f
  {
    if f.Field? {
      NothingResolvedForJson(f.value, none);
      NothingResolvedFor(f.rest, none);
    }
  }

  lemma {:induction false} NothingResolvedForJson(j: Json, none: LookupFn)
    requires forall x :: none(x) == None
    ensures RewriteJson(j, none) == j
  {
    match j {
      case Text(text) => UnresolvedUnchanged(text, none);
      case Other(_) =>
      case Object(fields) => NothingResolvedFor(fields, none);
    }
  }

  // ---------- one object for a sequence of users ----------

  /** The object after it was rewritten in place for one user after the other. */
  function RewriteForAll(f: Fields, users: seq<LookupFn>): Fields {
    if users == [] then f else RewriteFields(RewriteForAll(f, users[..|users| - 1]), users[|users| - 1])
  }

  function OpensJson(j: Json): nat {
    match j
    case Text(text) => Opens(text)
    case Other(_) => 0
    case Object(fields) => OpensFields(fields)
  }

  function OpensFields(f: Fields): nat {
    if f.Nil? then 0 else OpensJson(f.value) + OpensFields(f.rest)
  }

  lemma RewriteOpens(s: string, lookup: LookupFn)
    requires FewBraces(lookup)
    ensures Opens(Rewrite(s, lookup)) <= Opens(s)
    ensures AnyResolves(s, lookup) ==> Opens(Rewrite(s, lookup)) < Opens(s)
  {
    RewriteMapsTokens(s, lookup);
    TokensPrintBack(s, 0);
    assert s[0..] == s;
    ResolveOpens(TokensFrom(s, 0), lookup);
  }

  lemma {:induction false} RewriteOpensJson(j: Json, lookup: LookupFn)
    requires FewBraces(lookup)
    ensures OpensJson(RewriteJson(j, lookup)) <= OpensJson(j)
    ensures AnyResolvesJson(j, lookup) ==> OpensJson(RewriteJson(j, lookup)) < OpensJson(j)
  {
    match j {
      case Text(text) => RewriteOpens(text, lookup);
      case Other(_) =>
      case Object(fields) => RewriteOpensFields(fields, lookup);
    }
  }

  /** Rewriting an object never adds opening braces, and takes some away where a placeholder resolves. */
  lemma {:induction false} RewriteOpensFields(f: Fields, lookup: LookupFn)
    requires FewBraces(lookup)
    ensures OpensFields(RewriteFields(f, lookup)) <= OpensFields(f)
    ensures AnyResolvesFields(f, lookup) ==> OpensFields(RewriteFields(f, lookup)) < OpensFields(f)
  {
    if f.Field? {
      RewriteOpensJson(f.value, lookup);
      RewriteOpensFields(f.rest, lookup);
    }
  }

  ghost predicate AllFewBraces(users: seq<LookupFn>) {
    forall k :: 0 <= k < |users| ==> FewBraces(users[k])
  }

  /** No placeholder in the object resolves for any of the users. */
  predicate NoneResolves(f: Fields, users: seq<LookupFn>) {
    forall k :: 0 <= k < |users| ==> !AnyResolvesFields(f, users[k])
  }

  /** Once a placeholder has resolved for a user, no later rewriting brings the object back. */
  lemma {:induction false} UsersUnaffected(f: Fields, users: seq<LookupFn>)
    requires AllFewBraces(users)
    ensures if NoneResolves(f, users) then RewriteForAll(f, users) == f
            else OpensFields(RewriteForAll(f, users)) < OpensFields(f)
  {
    if users != [] {
      var front, last := users[..|users| - 1], users[|users| - 1];
      UsersUnaffected(f, front);
      RewriteOpensFields(RewriteForAll(f, front), last);
      UnchangedIffFields(f, last);
      NoneResolvesSplit(f, front, last);
      assert users == front + [last];
    }
  }

  lemma NoneResolvesSplit(f: Fields, front: seq<LookupFn>, last: LookupFn)
    ensures NoneResolves(f, front + [last]) <==> NoneResolves(f, front) && !AnyResolvesFields(f, last)
  {
    var users := front + [last];
    assert forall k :: 0 <= k < |front| ==> users[k] == front[k];
    assert users[|front|] == last;
  }

  /** After all the users the object is the original if and only if no placeholder in it resolved for any of them. */
  lemma UnchangedForAllIff(f: Fields, users: seq<LookupFn>)
    requires AllFewBraces(users)
    ensures RewriteForAll(f, users) == f <==> NoneResolves(f, users)
  {
    UsersUnaffected(f, users);
  }

  /** After the given users were signed in, every later one still gets the conditions written for them. */
  ghost predicate LaterUsersUnaffected(f: Fields, users: seq<LookupFn>) {
    forall next: LookupFn :: RewriteFields(RewriteForAll(f, users), next) == RewriteFields(f, next)
  }

  /** The rewriter overwrites the object it is given, so that holds exactly when the object has come out unchanged. */
  lemma UnaffectedIffUnchanged(f: Fields, users: seq<LookupFn>)
    ensures LaterUsersUnaffected(f, users) <==> RewriteForAll(f, users) == f
  {
    if LaterUsersUnaffected(f, users) {
      var none: LookupFn := x => None;
      assert RewriteFields(RewriteForAll(f, users), none) == RewriteFields(f, none);
      NothingResolvedFor(RewriteForAll(f, users), none);
      NothingResolvedFor(f, none);
    }
  }

  /** Later users get the conditions written for them if and only if no placeholder in them resolved for any earlier
      user: the conditions have to be free of placeholders that an earlier user can fill. */
  lemma LaterUsersUnaffectedIff(f: Fields, users: seq<LookupFn>)
    requires AllFewBraces(users)
    ensures LaterUsersUnaffected(f, users) <==> NoneResolves(f, users)
  {
    UnaffectedIffUnchanged(f, users);
    UnchangedForAllIff(f, users);
  }

  /** The conditions of the policies on users, files and knowledge: `key` has to be the id of the user signed in. */
  function OwnId(key: string): Fields {
    Field(key, Text(Print(Hole("id"))), Nil)
  }

  lemma BraceFreeUnchanged(text: string, lookup: LookupFn)
    requires '{' !in text
    ensures Rewrite(text, lookup) == text
  {
    assert Render([Lit(text)]) == text by { RenderCons(Lit(text), []); }
    RewriteClean([Lit(text)], lookup);
    assert Resolve([Lit(text)], lookup) == [Lit(text)];
  }

  lemma OwnIdFor(key: string, user: LookupFn)
    requires user("id").Some?
    ensures RewriteFields(OwnId(key), user) == Field(key, Text(user("id").value), Nil)
  {
    SingleHole("id", user);
  }

  lemma IdUnchanged(key: string, id: string, user: LookupFn)
    requires '{' !in id
    ensures RewriteFields(Field(key, Text(id), Nil), user) == Field(key, Text(id), Nil)
  {
    BraceFreeUnchanged(id, user);
  }

  /** They are the ones of the first user for good: whoever comes next is checked against the first one's id. */
  lemma {:induction false} FirstIdStays(key: string, users: seq<LookupFn>, next: LookupFn, id: string)
    requires users != [] && users[0]("id") == Some(id) && '{' !in id && next("id").Some?
    ensures RewriteForAll(OwnId(key), users) == Field(key, Text(id), Nil)
    ensures RewriteFields(RewriteForAll(OwnId(key), users), next) == Field(key, Text(id), Nil)
    ensures RewriteFields(OwnId(key), next) == Field(key, Text(next("id").value), Nil)
    decreases |users|
  {
    var front, last := users[..|users| - 1], users[|users| - 1];
    if front == [] {
      assert RewriteForAll(OwnId(key), front) == OwnId(key);
      OwnIdFor(key, last);
    } else {
      FirstIdStays(key, front, next, id);
      IdUnchanged(key, id, last);
    }
    IdUnchanged(key, id, next);
    OwnIdFor(key, next);
  }

  // ---------- the loop over the keys ----------

  function Count(f: Fields): nat {
    if f.Nil? then 0 else 1 + Count(f.rest)
  }

  function ValueAt(f: Fields, k: nat): Json
    requires k < Count(f)
  {
    if k == 0 then f.value else ValueAt(f.rest, k - 1)
  }

  function SetValue(f: Fields, k: nat, value: Json): Fields
    requires k < Count(f)
  {
    if k == 0 then f.(value := value) else f.(rest := SetValue(f.rest, k - 1, value))
  }

  /** The object after its first `k` keys have been visited. */
  function RewriteFirst(f: Fields, lookup: LookupFn, k: nat): Fields {
    if f.Nil? || k == 0 then f
    else Field(f.key, RewriteJson(f.value, lookup), RewriteFirst(f.rest, lookup, k - 1))
  }

  lemma {:induction false} VisitNext(f: Fields, lookup: LookupFn, k: nat)
    requires k < Count(f)
    ensures Count(RewriteFirst(f, lookup, k)) == Count(f)
    ensures ValueAt(RewriteFirst(f, lookup, k), k) == ValueAt(f, k)
    ensures SetValue(RewriteFirst(f, lookup, k), k, RewriteJson(ValueAt(f, k), lookup))
            == RewriteFirst(f, lookup, k + 1)
  {
    if k > 0 { VisitNext(f.rest, lookup, k - 1); }
  }

  lemma {:induction false} AllVisited(f: Fields, lookup: LookupFn)
    ensures RewriteFirst(f, lookup, Count(f)) == RewriteFields(f, lookup)
  {
    if f.Field? { AllVisited(f.rest, lookup); }
  }

  function SizeJson(j: Json): nat {
    if j.Object? then SizeFields(j.fields) else 0
  }

  function SizeFields(f: Fields): nat {
    if f.Nil? then 0 else 1 + SizeJson(f.value) + SizeFields(f.rest)
  }

  lemma {:induction false} ValueIsSmaller(f: Fields, k: nat)
    requires k < Count(f)
    ensures SizeJson(ValueAt(f, k)) < SizeFields(f)
  {
    if k > 0 { ValueIsSmaller(f.rest, k - 1); }
  }

  /** `replacePlaceholders`: key by key, nested objects by recursion.  The tree of keys is kept; for a user whose values
      have few braces the object is left as it is exactly when no placeholder in it resolves. */
  method ReplacePlaceholders(conditions: Fields, lookup: LookupFn) returns (result: Fields)
    ensures result == RewriteFields(conditions, lookup)
    ensures SkeletonFields(result) == SkeletonFields(conditions)
    ensures FewBraces(lookup) ==> (result == conditions <==> !AnyResolvesFields(conditions, lookup))
    decreases SizeFields(conditions)
  {
    result := conditions;
    for k := 0 to Count(conditions)
      invariant result == RewriteFirst(conditions, lookup, k) && Count(result) == Count(conditions)
    {
      VisitNext(conditions, lookup, k);
      ValueIsSmaller(conditions, k);
      var value := ValueAt(result, k);
      if value.Object? {
        var nested := ReplacePlaceholders(value.fields, lookup);
        value := Object(nested);
      } else if value.Text? {
        value := Text(Rewrite(value.text, lookup));
      }
      result := SetValue(result, k, value);
      CountKept(conditions, lookup, k + 1);
    }
    AllVisited(conditions, lookup);
    SkeletonKept(conditions, lookup);
    assert FewBraces(lookup) ==> (result == conditions <==> !AnyResolvesFields(conditions, lookup)) by {
      if FewBraces(lookup) { UnchangedIffFields(conditions, lookup); }
    }
  }

  lemma {:induction false} CountKept(f: Fields, lookup: LookupFn, k: nat)
    ensures Count(RewriteFirst(f, lookup, k)) == Count(f)
  {
    if f.Field? && k > 0 { CountKept(f.rest, lookup, k - 1); }
  }
}
