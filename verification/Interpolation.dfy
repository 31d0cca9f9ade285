/** The prompt client's `interpolate`: one `replaceAll` per variable, against substituting all of them at once. */
module Interpolation {
  import opened Tokens

  // ---------- String.prototype.replaceAll with a string replacement ----------

  /** The characters that make a preceding `$` special in a replacement string. */
  predicate AfterDollar(c: char) {
    c == '$' || c == '&' || c == '`' || c == '\''
  }

  function Expand(value: string, matched: string, before: string, after: string): string {
    if value == "" then ""
    else if value[0] == '$' && |value| > 1 && AfterDollar(value[1]) then
      (match value[1]
       case '$' => "$"
       case '&' => matched
       case '`' => before
       case _ => after)
      + Expand(value[2..], matched, before, after)
    else [value[0]] + Expand(value[1..], matched, before, after)
  }

  function ReplaceFrom(s: string, pat: string, value: string, k: nat): string
    requires |pat| > 0 && k <= |s|
    decreases |s| - k
  {
    if OccursAt(s, pat, k) then Expand(value, pat, s[..k], s[k + |pat|..]) + ReplaceFrom(s, pat, value, k + |pat|)
    else if k < |s| then [s[k]] + ReplaceFrom(s, pat, value, k + 1)
    else ""
  }

  function ReplaceAll(s: string, pat: string, value: string): string
    requires |pat| > 0
  {
    ReplaceFrom(s, pat, value, 0)
  }

  // ---------- values and dollar signs ----------

  /** No `$` of the value is followed by a character that makes it special. */
  predicate NoDollarSequence(value: string) {
    forall k :: 0 <= k < |value| - 1 && value[k] == '$' ==> !AfterDollar(value[k + 1])
  }

  function Dollars(s: string): nat {
    if s == "" then 0 else (if s[0] == '$' then 1 else 0) + Dollars(s[1..])
  }

  lemma {:induction false} DollarsConcat(a: string, b: string)
    ensures Dollars(a + b) == Dollars(a) + Dollars(b)
  {
    if a == "" {
      assert a + b == b;
    } else {
      assert (a + b)[1..] == a[1..] + b;
      DollarsConcat(a[1..], b);
    }
  }

  lemma {:induction false} DollarFree(s: string)
    requires '$' !in s
    ensures Dollars(s) == 0
  {
    if s != "" { DollarFree(s[1..]); }
  }

  lemma {:induction false} ExpandPlain(value: string, matched: string, before: string, after: string)
    requires NoDollarSequence(value)
    ensures Expand(value, matched, before, after) == value
  {
    if value != "" {
      assert NoDollarSequence(value[1..]) by {
        forall k | 0 <= k < |value[1..]| - 1 && value[1..][k] == '$'
          ensures !AfterDollar(value[1..][k + 1])
        {
          assert value[k + 1] == '$';
        }
      }
      ExpandPlain(value[1..], matched, before, after);
    }
  }

  /** The value asks for the text before or behind the match: a dollar-backtick or a dollar-quote. */
  predicate AsksForContext(value: string) {
    exists k :: 0 <= k < |value| - 1 && value[k] == '$' && (value[k + 1] == '`' || value[k + 1] == '\'')
  }

  /** The match has no dollar sign, and the text around it has none where the value asks for it. */
  predicate QuietContext(value: string, matched: string, before: string, after: string) {
    '$' !in matched && (AsksForContext(value) ==> '$' !in before && '$' !in after)
  }

  lemma ContextOfRest(value: string, n: nat, matched: string, before: string, after: string)
    requires n <= |value| && QuietContext(value, matched, before, after)
    ensures QuietContext(value[n..], matched, before, after)
  {
    var rest := value[n..];
    if k :| 0 <= k < |rest| - 1 && rest[k] == '$' && (rest[k + 1] == '`' || rest[k + 1] == '\'') {
      assert value[n + k] == '$' && value[n + k + 1] == rest[k + 1];
      assert AsksForContext(value);
    }
  }

  /** Expansion never adds dollar signs, and loses one with every special sequence. */
  lemma {:induction false} ExpandDollars(value: string, matched: string, before: string, after: string)
    requires QuietContext(value, matched, before, after)
    ensures Dollars(Expand(value, matched, before, after)) <= Dollars(value)
    ensures Dollars(Expand(value, matched, before, after)) == Dollars(value) ==> NoDollarSequence(value)
  {
    if value != "" {
      if value[0] == '$' && |value| > 1 && AfterDollar(value[1]) {
        var head := match value[1] case '$' => "$" case '&' => matched case '`' => before case _ => after;
        ContextOfRest(value, 2, matched, before, after);
        ExpandDollars(value[2..], matched, before, after);
        DollarsConcat(head, Expand(value[2..], matched, before, after));
        if value[1] == '$' { assert "$"[1..] == ""; } else { DollarFree(head); }
        assert value == value[..2] + value[2..];
        DollarsConcat(value[..2], value[2..]);
        assert value[..2][1..] == [value[1]] && [value[1]][1..] == "";
      } else {
        var rest := Expand(value[1..], matched, before, after);
        ContextOfRest(value, 1, matched, before, after);
        ExpandDollars(value[1..], matched, before, after);
        assert ([value[0]] + rest)[1..] == rest;
        if Dollars(rest) == Dollars(value[1..]) {
          forall k | 0 <= k < |value| - 1 && value[k] == '$'
            ensures !AfterDollar(value[k + 1])
          {
            if k > 0 { assert value[1..][k - 1] == '$' && value[1..][k] == value[k + 1]; }
          }
        }
      }
    }
  }

  /** A value is inserted as it is exactly when it has no dollar sequence.  The text around it may have dollar signs
      unless the value asks for that text, and a placeholder whose key has none has none either. */
  lemma InsertedVerbatimIff(value: string, matched: string, before: string, after: string)
    requires QuietContext(value, matched, before, after)
    ensures Expand(value, matched, before, after) == value <==> NoDollarSequence(value)
  {
    if NoDollarSequence(value) { ExpandPlain(value, matched, before, after); }
    ExpandDollars(value, matched, before, after);
  }

  // ---------- what the dollar sequences stand for ----------

  /** A replacement string in pieces: text without dollar signs, and the four sequences. */
  datatype Piece = Plain(text: string) | Dollar | Match | Before | After

  function Spell(p: Piece): string {
    match p
    case Plain(text) => text
    case Dollar => "$$"
    case Match => "$&"
    case Before => "$`"
    case After => "$'"
  }

  function Meaning(p: Piece, matched: string, before: string, after: string): string {
    match p
    case Plain(text) => text
    case Dollar => "$"
    case Match => matched
    case Before => before
    case After => after
  }

  function SpellAll(ps: seq<Piece>): string {
    if ps == [] then "" else Spell(ps[0]) + SpellAll(ps[1..])
  }

  function MeaningAll(ps: seq<Piece>, matched: string, before: string, after: string): string {
    if ps == [] then "" else Meaning(ps[0], matched, before, after) + MeaningAll(ps[1..], matched, before, after)
  }

  lemma {:induction false} ExpandText(text: string, rest: string, matched: string, before: string, after: string)
    requires '$' !in text
    ensures Expand(text + rest, matched, before, after) == text + Expand(rest, matched, before, after)
  {
    if text == "" {
      assert text + rest == rest;
    } else {
      ExpandText(text[1..], rest, matched, before, after);
      assert (text + rest)[1..] == text[1..] + rest && (text + rest)[0] == text[0] && text[0] in text;
      assert text == [text[0]] + text[1..];
    }
  }

  lemma ExpandSequence(p: Piece, rest: string, matched: string, before: string, after: string)
    requires !p.Plain?
    ensures Expand(Spell(p) + rest, matched, before, after)
         == Meaning(p, matched, before, after) + Expand(rest, matched, before, after)
  {
    var value := Spell(p) + rest;
    assert value[0] == '$' && value[1] == Spell(p)[1] && value[2..] == rest;
  }

  /** A replacement string is expanded piece by piece: each sequence by what it stands for. */
  lemma {:induction false} ExpandsPieces(ps: seq<Piece>, matched: string, before: string, after: string)
    requires forall p :: p in ps && p.Plain? ==> '$' !in p.text
    ensures Expand(SpellAll(ps), matched, before, after) == MeaningAll(ps, matched, before, after)
  {
    if ps != [] {
      assert ps[0] in ps && forall p :: p in ps[1..] ==> p in ps;
      ExpandsPieces(ps[1..], matched, before, after);
      if ps[0].Plain? {
        ExpandText(ps[0].text, SpellAll(ps[1..]), matched, before, after);
      } else {
        ExpandSequence(ps[0], SpellAll(ps[1..]), matched, before, after);
      }
    }
  }

  // ---------- one variable ----------

  function Placeholder(key: string): (pat: string)
    ensures |pat| == |key| + 4 && pat[..2] == OPEN
  {
    Print(Hole(key))
  }

  /** From position `k` on, the text reads like the start of the pattern, as far as either of them goes. */
  predicate ReadsFrom(text: string, pat: string, k: nat) {
    forall j :: 0 <= j < |pat| && k + j < |text| ==> text[k + j] == pat[j]
  }

  /** The text contains the placeholder of the key, or ends with the beginning of one. */
  predicate Leaks(text: string, key: string) {
    exists k :: 0 <= k < |text| && ReadsFrom(text, Placeholder(key), k)
  }

  lemma ReadsOpen(text: string, key: string, k: nat)
    requires k < |text|
    ensures ReadsFrom(text, Placeholder(key), k) ==> text[k] == '{' && (k + 1 < |text| ==> text[k + 1] == '{')
  {
    var pat := Placeholder(key);
    HoleChars(key);
    if ReadsFrom(text, pat, k) {
      assert text[k + 0] == pat[0] == '{';
      assert k + 1 < |text| ==> text[k + 1] == pat[1] == '{';
    }
  }

  /** A clean text leaks into no key. */
  lemma CleanIsQuiet(text: string, key: string)
    requires CleanText(text)
    ensures !Leaks(text, key)
  {
    forall k | 0 <= k < |text|
      ensures !ReadsFrom(text, Placeholder(key), k)
    {
      ReadsOpen(text, key, k);
    }
  }

  /** Holes with plain names, and literals that do not leak into the key. */
  predicate Quiet(t: Token, key: string) {
    match t
    case Hole(name) => PlainName(name)
    case Lit(text) => !Leaks(text, key)
  }

  predicate QuietTokens(ts: seq<Token>, key: string) {
    forall i :: 0 <= i < |ts| ==> Quiet(ts[i], key)
  }

  lemma CleanTokensAreQuiet(ts: seq<Token>, key: string)
    requires CleanTokens(ts)
    ensures QuietTokens(ts, key)
  {
    forall i | 0 <= i < |ts|
      ensures Quiet(ts[i], key)
    {
      assert CleanToken(ts[i]);
      if ts[i].Lit? { CleanIsQuiet(ts[i].text, key); }
    }
  }

  function FillOne(ts: seq<Token>, key: string, value: string): (r: seq<Token>)
    ensures |r| == |ts|
    ensures forall i :: 0 <= i < |ts| ==> r[i] == if ts[i] == Hole(key) then Lit(value) else ts[i]
  {
    seq(|ts|, i requires 0 <= i < |ts| => if ts[i] == Hole(key) then Lit(value) else ts[i])
  }

  lemma SkipOne(s: string, pat: string, value: string, k: nat)
    requires |pat| > 0 && k < |s| && !OccursAt(s, pat, k)
    ensures ReplaceFrom(s, pat, value, k) == [s[k]] + ReplaceFrom(s, pat, value, k + 1)
  {
  }

  lemma EndOfText(s: string, pat: string, value: string)
    requires |pat| > 0
    ensures ReplaceFrom(s, pat, value, |s|) == ""
  {
  }

  lemma {:induction false} SkipMany(s: string, pat: string, value: string, k: nat, n: nat)
    requires |pat| > 0 && k <= n <= |s|
    requires forall j :: k <= j < n ==> !OccursAt(s, pat, j)
    ensures ReplaceFrom(s, pat, value, k) == s[k..n] + ReplaceFrom(s, pat, value, n)
    decreases n - k
  {
    if k < n {
      SkipMany(s, pat, value, k + 1, n);
      SkipOne(s, pat, value, k);
      Reassociate(s, k, n, ReplaceFrom(s, pat, value, n));
    }
  }

  lemma PatternStartsWithOpen(s: string, key: string, k: nat)
    ensures OccursAt(s, Placeholder(key), k) ==> OccursAt(s, OPEN, k)
  {
    var pat := Placeholder(key);
    assert forall j :: 0 <= j < 2 ==> pat[j] == pat[..2][j] == OPEN[j];
  }

  /** A placeholder found in a text shows its key, up to the first closing brace. */
  lemma KeyShown(s: string, k: nat, key: string)
    requires PlainName(key) && OccursAt(s, Placeholder(key), k)
    ensures k + 2 + |key| < |s| && s[k + 2 + |key|] == '}' && s[k + 2..k + 2 + |key|] == key
    ensures forall i :: k + 2 <= i < k + 2 + |key| ==> s[i] != '}'
  {
    HoleInContext(s, k, key);
    forall i | k + 2 <= i < k + 2 + |key|
      ensures s[i] == key[i - k - 2] && s[i] != '}'
    {
      assert s[k + 2 + (i - k - 2)] == key[i - k - 2] && key[i - k - 2] in key;
    }
  }

  /** A printed hole matches the pattern of its own key only. */
  lemma HoleMatchesItsKey(s: string, k: nat, name: string, key: string)
    requires OccursAt(s, Placeholder(name), k) && PlainName(name) && PlainName(key)
    ensures OccursAt(s, Placeholder(key), k) <==> name == key
  {
    KeyShown(s, k, name);
    if OccursAt(s, Placeholder(key), k) {
      KeyShown(s, k, key);
    }
  }

  /** At a matching hole the value goes in, verbatim if it has no dollar sequence. */
  lemma ReplaceAtHole(s: string, k: nat, pat: string, n: nat, value: string)
    requires |pat| > 0 && OccursAt(s, pat, k) && NoDollarSequence(value) && n == k + |pat|
    ensures ReplaceFrom(s, pat, value, k) == value + ReplaceFrom(s, pat, value, n)
  {
    ReplaceExpands(s, k, pat, n, value);
    ExpandPlain(value, pat, s[..k], s[n..]);
  }

  lemma ReplaceExpands(s: string, k: nat, pat: string, n: nat, value: string)
    requires |pat| > 0 && OccursAt(s, pat, k) && n == k + |pat|
    ensures ReplaceFrom(s, pat, value, k) == Expand(value, pat, s[..k], s[n..]) + ReplaceFrom(s, pat, value, n)
  {
  }

  /** A text in which the pattern does not start is copied. */
  lemma SkipText(s: string, pat: string, value: string, k: nat, text: string, n: nat)
    requires |pat| > 0 && OccursAt(s, text, k) && n == k + |text|
    requires forall j :: k <= j < n ==> !OccursAt(s, pat, j)
    ensures ReplaceFrom(s, pat, value, k) == text + ReplaceFrom(s, pat, value, n)
  {
    SkipMany(s, pat, value, k, n);
    OccurrenceIs(s, k, text);
  }

  /** Everywhere else the token is copied. */
  lemma ReplaceCopies(s: string, k: nat, t: Token, n: nat, key: string, value: string)
    requires OccursAt(s, Print(t), k) && Quiet(t, key) && PlainName(key) && t != Hole(key) && n == k + |Print(t)|
    ensures ReplaceFrom(s, Placeholder(key), value, k) == Print(t) + ReplaceFrom(s, Placeholder(key), value, n)
  {
    forall j | k <= j < n
      ensures !OccursAt(s, Placeholder(key), j)
    {
      NoMatchWithin(s, k, t, key, j);
    }
    SkipText(s, Placeholder(key), value, k, Print(t), n);
  }

  lemma OccurrenceReads(s: string, k: nat, text: string, pat: string, j: nat)
    requires OccursAt(s, text, k) && k <= j < k + |text|
    ensures OccursAt(s, pat, j) ==> ReadsFrom(text, pat, j - k)
  {
    if OccursAt(s, pat, j) {
      forall m | 0 <= m < |pat| && j - k + m < |text|
        ensures text[j - k + m] == pat[m]
      {
        assert s[k + (j - k + m)] == text[j - k + m] && s[j + m] == pat[m];
      }
    }
  }

  lemma NoMatchInQuietText(s: string, k: nat, text: string, key: string, j: nat)
    requires OccursAt(s, text, k) && !Leaks(text, key) && k <= j < k + |text|
    ensures !OccursAt(s, Placeholder(key), j)
  {
    OccurrenceReads(s, k, text, Placeholder(key), j);
  }

  lemma NoMatchWithin(s: string, k: nat, t: Token, key: string, j: nat)
    requires OccursAt(s, Print(t), k) && Quiet(t, key) && PlainName(key) && t != Hole(key) && k <= j < k + |Print(t)|
    ensures !OccursAt(s, Placeholder(key), j)
  {
    match t {
      case Lit(text) => NoMatchInQuietText(s, k, text, key, j);
      case Hole(name) =>
        PatternStartsWithOpen(s, key, j);
        if j == k { HoleMatchesItsKey(s, k, name, key); } else { NoOpenInsideHole(s, k, name, j); }
    }
  }

  function Fill(t: Token, key: string, value: string): Token {
    if t == Hole(key) then Lit(value) else t
  }

  lemma FillCons(t: Token, rest: seq<Token>, key: string, value: string)
    ensures FillOne([t] + rest, key, value) == [Fill(t, key, value)] + FillOne(rest, key, value)
  {
  }

  lemma ReplaceHoleToken(s: string, k: nat, t: Token, n: nat, key: string, value: string)
    requires OccursAt(s, Print(t), k) && t == Hole(key) && NoDollarSequence(value) && n == k + |Print(t)|
    ensures ReplaceFrom(s, Placeholder(key), value, k)
         == Print(Fill(t, key, value)) + ReplaceFrom(s, Placeholder(key), value, n)
  {
    ReplaceAtHole(s, k, Placeholder(key), n, value);
    assert Print(Fill(t, key, value)) == value;
  }

  lemma ReplaceOtherToken(s: string, k: nat, t: Token, n: nat, key: string, value: string)
    requires OccursAt(s, Print(t), k) && Quiet(t, key) && PlainName(key) && t != Hole(key) && n == k + |Print(t)|
    ensures ReplaceFrom(s, Placeholder(key), value, k)
         == Print(Fill(t, key, value)) + ReplaceFrom(s, Placeholder(key), value, n)
  {
    ReplaceCopies(s, k, t, n, key, value);
    assert Fill(t, key, value) == t;
  }

  /** One quiet token is copied, or replaced by the value. */
  lemma ReplaceToken(s: string, k: nat, t: Token, n: nat, key: string, value: string)
    requires OccursAt(s, Print(t), k) && Quiet(t, key) && PlainName(key) && NoDollarSequence(value)
    requires n == k + |Print(t)|
    ensures ReplaceFrom(s, Placeholder(key), value, k)
         == Print(Fill(t, key, value)) + ReplaceFrom(s, Placeholder(key), value, n)
  {
    if t == Hole(key) { ReplaceHoleToken(s, k, t, n, key, value); } else { ReplaceOtherToken(s, k, t, n, key, value); }
  }

  lemma RenderFilled(t: Token, rest: seq<Token>, key: string, value: string)
    ensures Render(FillOne([t] + rest, key, value)) == Print(Fill(t, key, value)) + Render(FillOne(rest, key, value))
  {
    FillCons(t, rest, key, value);
    RenderCons(Fill(t, key, value), FillOne(rest, key, value));
  }

  /** From `k` on, `replaceAll` gives the tokens with the holes of the key filled. */
  ghost predicate Fills(s: string, key: string, value: string, k: nat, ts: seq<Token>)
    requires k <= |s|
  {
    ReplaceFrom(s, Placeholder(key), value, k) == Render(FillOne(ts, key, value))
  }

  lemma FillsNothing(s: string, key: string, value: string)
    ensures Fills(s, key, value, |s|, [])
  {
    EndOfText(s, Placeholder(key), value);
    assert FillOne([], key, value) == [];
  }

  lemma FillsOneMore(s: string, k: nat, t: Token, n: nat, rest: seq<Token>, key: string, value: string)
    requires OccursAt(s, Print(t), k) && Quiet(t, key) && PlainName(key) && NoDollarSequence(value)
    requires n == k + |Print(t)| && Fills(s, key, value, n, rest)
    ensures Fills(s, key, value, k, [t] + rest)
  {
    ReplaceToken(s, k, t, n, key, value);
    RenderFilled(t, rest, key, value);
  }

  lemma QuietTail(ts: seq<Token>, key: string)
    requires QuietTokens(ts, key) && ts != []
    ensures Quiet(ts[0], key) && QuietTokens(ts[1..], key)
  {
  }

  /** `replaceAll` of one placeholder on quiet tokens replaces exactly its holes. */
  lemma {:induction false} ReplaceOnTokens(s: string, k: nat, ts: seq<Token>, key: string, value: string)
    requires k <= |s| && s[k..] == Render(ts) && QuietTokens(ts, key) && PlainName(key) && NoDollarSequence(value)
    ensures Fills(s, key, value, k, ts)
    decreases |ts|
  {
    if ts == [] {
      AllRendered(s, k);
      FillsNothing(s, key, value);
    } else {
      var n := PeelToken(s, k, ts);
      QuietTail(ts, key);
      ReplaceOnTokens(s, n, ts[1..], key, value);
      FillsOneMore(s, k, ts[0], n, ts[1..], key, value);
      assert ts == [ts[0]] + ts[1..];
    }
  }

  /** Applied to the whole text. */
  lemma ReplaceAllOnTokens(ts: seq<Token>, key: string, value: string)
    requires QuietTokens(ts, key) && PlainName(key) && NoDollarSequence(value)
    ensures ReplaceAll(Render(ts), Placeholder(key), value) == Render(FillOne(ts, key, value))
  {
    ReplaceOnTokens(Render(ts), 0, ts, key, value);
  }

  // ---------- all variables ----------

  datatype Variable = Variable(key: string, value: string)

  function Sequential(template: string, vars: seq<Variable>): string
    decreases vars
  {
    if vars == [] then template
    else Sequential(ReplaceAll(template, Placeholder(vars[0].key), vars[0].value), vars[1..])
  }

  /** The entries of an object: every key once. */
  predicate DistinctKeys(vars: seq<Variable>) {
    forall i, j :: 0 <= i < j < |vars| ==> vars[i].key != vars[j].key
  }

  /** Plain keys, and values that are inserted as they are. */
  predicate PlainVariables(vars: seq<Variable>) {
    forall i :: 0 <= i < |vars| ==> PlainName(vars[i].key) && NoDollarSequence(vars[i].value)
  }

  /** No value leaks into a key that is replaced after it; the last value may be any text. */
  predicate LaterKeysSafe(vars: seq<Variable>) {
    forall i, j :: 0 <= i < j < |vars| ==> !Leaks(vars[i].value, vars[j].key)
  }

  predicate QuietForAll(ts: seq<Token>, vars: seq<Variable>) {
    forall j :: 0 <= j < |vars| ==> QuietTokens(ts, vars[j].key)
  }

  /** One simultaneous substitution: every hole with a variable becomes its value, the others stay. */
  function Substituted(t: Token, vars: seq<Variable>): Token {
    if vars == [] then t
    else if t == Hole(vars[0].key) then Lit(vars[0].value)
    else Substituted(t, vars[1..])
  }

  function Simultaneous(ts: seq<Token>, vars: seq<Variable>): (r: seq<Token>)
    ensures |r| == |ts| && forall i :: 0 <= i < |ts| ==> r[i] == Substituted(ts[i], vars)
  {
    seq(|ts|, i requires 0 <= i < |ts| => Substituted(ts[i], vars))
  }

  lemma {:induction false} SubstitutedLiteral(text: string, vars: seq<Variable>)
    ensures Substituted(Lit(text), vars) == Lit(text)
  {
    if vars != [] { SubstitutedLiteral(text, vars[1..]); }
  }

  /** After the first variable is filled in, the tokens are quiet for the others. */
  lemma FilledStaysQuiet(ts: seq<Token>, vars: seq<Variable>)
    requires vars != [] && QuietForAll(ts, vars) && LaterKeysSafe(vars)
    ensures QuietForAll(FillOne(ts, vars[0].key, vars[0].value), vars[1..])
  {
    var filled := FillOne(ts, vars[0].key, vars[0].value);
    forall j, i | 0 <= j < |vars| - 1 && 0 <= i < |ts|
      ensures Quiet(filled[i], vars[1..][j].key)
    {
      assert QuietTokens(ts, vars[j + 1].key) && Quiet(ts[i], vars[j + 1].key);
      assert !Leaks(vars[0].value, vars[j + 1].key);
    }
  }

  lemma FilledThenSubstituted(ts: seq<Token>, vars: seq<Variable>)
    requires vars != []
    ensures Simultaneous(FillOne(ts, vars[0].key, vars[0].value), vars[1..]) == Simultaneous(ts, vars)
  {
    var v := vars[0];
    var filled := FillOne(ts, v.key, v.value);
    forall i | 0 <= i < |ts|
      ensures Substituted(filled[i], vars[1..]) == Substituted(ts[i], vars)
    {
      if ts[i] == Hole(v.key) { SubstitutedLiteral(v.value, vars[1..]); }
    }
  }

  lemma {:induction false} QuietIsSimultaneous(ts: seq<Token>, vars: seq<Variable>)
    requires PlainVariables(vars) && QuietForAll(ts, vars) && LaterKeysSafe(vars)
    ensures Sequential(Render(ts), vars) == Render(Simultaneous(ts, vars))
    decreases |vars|
  {
    if vars == [] {
      assert Simultaneous(ts, vars) == ts;
    } else {
      var v := vars[0];
      assert PlainName(v.key) && NoDollarSequence(v.value);
      ReplaceAllOnTokens(ts, v.key, v.value);
      FilledStaysQuiet(ts, vars);
      FilledThenSubstituted(ts, vars);
      TailSafe(vars);
      QuietIsSimultaneous(FillOne(ts, v.key, v.value), vars[1..]);
    }
  }

  lemma TailSafe(vars: seq<Variable>)
    requires vars != [] && PlainVariables(vars) && LaterKeysSafe(vars)
    ensures PlainVariables(vars[1..]) && LaterKeysSafe(vars[1..])
  {
  }

  /** On a clean template the loop of `replaceAll`s is the simultaneous substitution, if no value leaks into a key
      that is replaced after it. */
  lemma SequentialIsSimultaneous(ts: seq<Token>, vars: seq<Variable>)
    requires CleanTokens(ts) && PlainVariables(vars) && LaterKeysSafe(vars)
    ensures Sequential(Render(ts), vars) == Render(Simultaneous(ts, vars))
  {
    forall j | 0 <= j < |vars|
      ensures QuietTokens(ts, vars[j].key)
    {
      CleanTokensAreQuiet(ts, vars[j].key);
    }
    QuietIsSimultaneous(ts, vars);
  }

  lemma {:induction false} SubstitutedIs(t: Token, vars: seq<Variable>)
    requires DistinctKeys(vars)
    ensures forall i :: 0 <= i < |vars| && t == Hole(vars[i].key) ==> Substituted(t, vars) == Lit(vars[i].value)
    ensures (forall i :: 0 <= i < |vars| ==> t != Hole(vars[i].key)) ==> Substituted(t, vars) == t
  {
    if vars != [] {
      SubstitutedIs(t, vars[1..]);
      forall i | 0 <= i < |vars| && t == Hole(vars[i].key)
        ensures Substituted(t, vars) == Lit(vars[i].value)
      {
        if i > 0 { assert vars[1..][i - 1] == vars[i]; }
      }
    }
  }

  /** No value leaks into the key of another variable. */
  predicate OtherKeysSafe(vars: seq<Variable>) {
    forall v, w :: v in vars && w in vars && v.key != w.key ==> !Leaks(v.value, w.key)
  }

  lemma OthersLater(vars: seq<Variable>)
    requires OtherKeysSafe(vars) && DistinctKeys(vars)
    ensures LaterKeysSafe(vars)
  {
    forall i, j | 0 <= i < j < |vars|
      ensures !Leaks(vars[i].value, vars[j].key)
    {
      assert vars[i] in vars && vars[j] in vars;
    }
  }

  /** If no value leaks into another key, the order in which an object lists its entries does not matter. */
  lemma OrderDoesNotMatter(ts: seq<Token>, vars: seq<Variable>, others: seq<Variable>)
    requires CleanTokens(ts) && PlainVariables(vars) && PlainVariables(others) && OtherKeysSafe(vars)
    requires DistinctKeys(vars) && DistinctKeys(others)
    requires forall v :: v in vars <==> v in others
    ensures Sequential(Render(ts), vars) == Sequential(Render(ts), others)
  {
    assert OtherKeysSafe(others);
    OthersLater(vars);
    OthersLater(others);
    SequentialIsSimultaneous(ts, vars);
    SequentialIsSimultaneous(ts, others);
    forall i | 0 <= i < |ts|
      ensures Substituted(ts[i], vars) == Substituted(ts[i], others)
    {
      SameSubstitution(ts[i], vars, others);
    }
    assert Simultaneous(ts, vars) == Simultaneous(ts, others);
  }

  lemma SameSubstitution(t: Token, vars: seq<Variable>, others: seq<Variable>)
    requires DistinctKeys(vars) && DistinctKeys(others) && forall v :: v in vars <==> v in others
    ensures Substituted(t, vars) == Substituted(t, others)
  {
    SubstitutedIs(t, vars);
    SubstitutedIs(t, others);
    if i :| 0 <= i < |vars| && t == Hole(vars[i].key) {
      assert vars[i] in others;
      var j :| 0 <= j < |others| && others[j] == vars[i];
    } else {
      forall j | 0 <= j < |others|
        ensures t != Hole(others[j].key)
      {
        assert others[j] in vars;
        var i :| 0 <= i < |vars| && vars[i] == others[j];
      }
    }
  }

  // ---------- what the condition leaves exact ----------

  lemma LengthAtOccurrence(s: string, pat: string, value: string, k: nat, n: nat)
    requires |pat| > 0 && OccursAt(s, pat, k) && NoDollarSequence(value) && n == k + |pat|
    ensures |ReplaceFrom(s, pat, value, k)| == |value| + |ReplaceFrom(s, pat, value, n)|
  {
    ReplaceAtHole(s, k, pat, n, value);
  }

  lemma LengthAtCharacter(s: string, pat: string, value: string, k: nat)
    requires |pat| > 0 && k < |s| && !OccursAt(s, pat, k)
    ensures |ReplaceFrom(s, pat, value, k)| == 1 + |ReplaceFrom(s, pat, value, k + 1)|
  {
    SkipOne(s, pat, value, k);
  }

  /** How much longer or shorter the text gets from `k` on. */
  function Grown(s: string, pat: string, value: string, k: nat): int
    requires |pat| > 0 && k <= |s|
  {
    |ReplaceFrom(s, pat, value, k)| - (|s| - k)
  }

  /** A longer value never makes the text shorter, nor a shorter one longer. */
  lemma {:induction false} GrowsOneWay(s: string, pat: string, value: string, k: nat)
    requires |pat| > 0 && k <= |s| && NoDollarSequence(value)
    ensures if |value| >= |pat| then Grown(s, pat, value, k) >= 0 else Grown(s, pat, value, k) <= 0
    decreases |s| - k
  {
    if k == |s| {
      EndOfText(s, pat, value);
    } else if OccursAt(s, pat, k) {
      LengthAtOccurrence(s, pat, value, k, k + |pat|);
      GrowsOneWay(s, pat, value, k + |pat|);
    } else {
      LengthAtCharacter(s, pat, value, k);
      GrowsOneWay(s, pat, value, k + 1);
    }
  }

  predicate Occurs(s: string, pat: string) {
    exists k :: 0 <= k <= |s| && OccursAt(s, pat, k)
  }

  lemma EqualPrefixes(a: string, b: string, c: string, d: string)
    requires a + c == b + d && |a| == |b|
    ensures a == b
  {
    assert a == (a + c)[..|a|];
    assert b == (b + d)[..|b|];
  }

  lemma SameLength(s: string, pat: string, value: string, k: nat, n: nat)
    requires |pat| > 0 && OccursAt(s, pat, k) && NoDollarSequence(value) && n == k + |pat|
             && Grown(s, pat, value, k) == 0
    ensures |value| == |pat|
  {
    LengthAtOccurrence(s, pat, value, k, n);
    GrowsOneWay(s, pat, value, n);
  }

  /** Where an occurrence is replaced and the text still is the same, the value is what it replaces. */
  lemma SameAtOccurrence(s: string, pat: string, value: string, k: nat, n: nat)
    requires |pat| > 0 && OccursAt(s, pat, k) && NoDollarSequence(value) && n == k + |pat|
    requires ReplaceFrom(s, pat, value, k) == s[k..]
    ensures value == pat
  {
    SameLength(s, pat, value, k, n);
    ReplaceAtHole(s, k, pat, n, value);
    TextAtOccurrence(s, k, pat, n);
    EqualPrefixes(value, pat, ReplaceFrom(s, pat, value, n), s[n..]);
  }

  lemma SameBehindCharacter(s: string, pat: string, value: string, k: nat)
    requires |pat| > 0 && k < |s| && !OccursAt(s, pat, k) && ReplaceFrom(s, pat, value, k) == s[k..]
    ensures ReplaceFrom(s, pat, value, k + 1) == s[k + 1..]
  {
    SkipOne(s, pat, value, k);
    SplitAt(s, k, k + 1);
    var a, b := ReplaceFrom(s, pat, value, k + 1), s[k + 1..];
    assert a == ([s[k]] + a)[1..] && b == ([s[k]] + b)[1..];
  }

  lemma {:induction false} SameFrom(s: string, pat: string, value: string, k: nat, at: nat)
    requires |pat| > 0 && k <= at && OccursAt(s, pat, at) && NoDollarSequence(value)
    requires ReplaceFrom(s, pat, value, k) == s[k..]
    ensures value == pat
    decreases at - k
  {
    if OccursAt(s, pat, k) {
      SameAtOccurrence(s, pat, value, k, k + |pat|);
    } else {
      SameBehindCharacter(s, pat, value, k);
      SameFrom(s, pat, value, k + 1, at);
    }
  }

  /** A replacement leaves a text as it is only if there is nothing to replace, or the value is what it replaces. */
  lemma ReplacedIsSameOnlyIf(s: string, pat: string, value: string)
    requires |pat| > 0 && NoDollarSequence(value) && Occurs(s, pat) && ReplaceAll(s, pat, value) == s
    ensures value == pat
  {
    var at :| 0 <= at <= |s| && OccursAt(s, pat, at);
    assert s[0..] == s;
    SameFrom(s, pat, value, 0, at);
  }

  lemma {:induction false} ReplacedByItself(s: string, pat: string, k: nat)
    requires |pat| > 0 && k <= |s| && NoDollarSequence(pat)
    ensures ReplaceFrom(s, pat, pat, k) == s[k..]
    decreases |s| - k
  {
    if k == |s| {
      EndOfText(s, pat, pat);
    } else if OccursAt(s, pat, k) {
      ReplacedByItself(s, pat, k + |pat|);
      ItselfAtOccurrence(s, pat, k, k + |pat|);
    } else {
      ReplacedByItself(s, pat, k + 1);
      ItselfAtCharacter(s, pat, k);
    }
  }

  lemma ItselfAtOccurrence(s: string, pat: string, k: nat, n: nat)
    requires |pat| > 0 && OccursAt(s, pat, k) && n == k + |pat| && NoDollarSequence(pat)
    requires ReplaceFrom(s, pat, pat, n) == s[n..]
    ensures ReplaceFrom(s, pat, pat, k) == s[k..]
  {
    ReplaceAtHole(s, k, pat, n, pat);
    TextAtOccurrence(s, k, pat, n);
  }

  lemma ItselfAtCharacter(s: string, pat: string, k: nat)
    requires |pat| > 0 && k < |s| && !OccursAt(s, pat, k) && ReplaceFrom(s, pat, pat, k + 1) == s[k + 1..]
    ensures ReplaceFrom(s, pat, pat, k) == s[k..]
  {
    SkipOne(s, pat, pat, k);
    SplitAt(s, k, k + 1);
  }

  lemma TwoVariables(template: string, v: Variable, w: Variable)
    ensures Sequential(template, [v, w])
         == ReplaceAll(ReplaceAll(template, Placeholder(v.key), v.value), Placeholder(w.key), w.value)
  {
    var once := ReplaceAll(template, Placeholder(v.key), v.value);
    assert [v, w][1..] == [w] && [w][1..] == [];
    assert Sequential(template, [v, w]) == Sequential(once, [w]);
    assert Sequential(once, [w]) == Sequential(ReplaceAll(once, Placeholder(w.key), w.value), []);
  }

  /** Filling a hole with its own placeholder prints the same. */
  lemma {:induction false} FilledByItself(ts: seq<Token>, key: string)
    ensures Render(FillOne(ts, key, Placeholder(key))) == Render(ts)
  {
    if ts != [] {
      var t, rest := ts[0], ts[1..];
      FilledByItself(rest, key);
      assert ts == [t] + rest;
      RenderFilled(t, rest, key, Placeholder(key));
    }
  }

  lemma SimultaneousTwo(ts: seq<Token>, v: Variable, w: Variable)
    ensures Simultaneous(ts, [v, w]) == FillOne(FillOne(ts, v.key, v.value), w.key, w.value)
  {
    assert [v, w][1..] == [w] && [w][1..] == [];
    FilledThenSubstituted(ts, [v, w]);
    FilledThenSubstituted(FillOne(ts, v.key, v.value), [w]);
    var both := FillOne(FillOne(ts, v.key, v.value), w.key, w.value);
    assert Simultaneous(both, []) == both;
  }

  /** The rest of the placeholder, when the text ends with its beginning; nothing, when the text contains it. */
  function Completion(text: string, pat: string, k: nat): string
    requires k <= |text|
  {
    if k + |pat| <= |text| then "" else pat[|text| - k..]
  }

  lemma CompletionIsClean(text: string, key: string, k: nat)
    requires PlainName(key) && k < |text|
    ensures CleanText(Completion(text, Placeholder(key), k))
  {
    HoleChars(key);
    var pat := Placeholder(key);
    forall m | 2 <= m < |pat|
      ensures pat[m] != '{'
    {
      if m - 2 < |key| { assert pat[m - 2 + 2] == key[m - 2] && key[m - 2] in key; }
    }
  }

  lemma CompletionCompletes(text: string, pat: string, k: nat)
    requires k < |text| && ReadsFrom(text, pat, k)
    ensures OccursAt(text + Completion(text, pat, k), pat, k)
  {
    var s := text + Completion(text, pat, k);
    forall j | 0 <= j < |pat|
      ensures k + |pat| <= |s| && s[k + j] == pat[j]
    {
      if k + j < |text| { assert text[k + j] == pat[j]; }
    }
  }

  /** A clean template on which a leak shows: the hole of the leaking value, and what completes the placeholder. */
  lemma LeakShows(v: Variable, w: Variable) returns (ts: seq<Token>)
    requires PlainVariables([v, w]) && v.key != w.key && Leaks(v.value, w.key) && w.value != Placeholder(w.key)
    ensures CleanTokens(ts) && Sequential(Render(ts), [v, w]) != Render(Simultaneous(ts, [v, w]))
  {
    assert PlainName([v, w][0].key) && PlainName([v, w][1].key);
    assert NoDollarSequence([v, w][0].value) && NoDollarSequence([v, w][1].value);
    var pat := Placeholder(w.key);
    var k :| 0 <= k < |v.value| && ReadsFrom(v.value, pat, k);
    var more := Completion(v.value, pat, k);
    CompletionIsClean(v.value, w.key, k);
    CompletionCompletes(v.value, pat, k);
    ts := [Hole(v.key), Lit(more)];
    LeakText(v, w, more);
    CleanTokensAreQuiet(ts, v.key);
    ReplaceAllOnTokens(ts, v.key, v.value);
    TwoVariables(Render(ts), v, w);
    var text := v.value + more;
    assert Occurs(text, pat);
    if ReplaceAll(text, pat, w.value) == text {
      ReplacedIsSameOnlyIf(text, pat, w.value);
    }
  }

  lemma LeakText(v: Variable, w: Variable, more: string)
    requires v.key != w.key
    ensures var ts := [Hole(v.key), Lit(more)];
            && Render(FillOne(ts, v.key, v.value)) == v.value + more
            && Render(Simultaneous(ts, [v, w])) == v.value + more
  {
    var ts, filled := [Hole(v.key), Lit(more)], [Lit(v.value), Lit(more)];
    assert FillOne(ts, v.key, v.value) == filled;
    SimultaneousTwo(ts, v, w);
    assert FillOne(filled, w.key, w.value) == filled;
    assert filled[1..] == [Lit(more)] && [Lit(more)][1..] == [];
    assert Render([Lit(more)]) == more;
  }

  /** Interpolating these two variables, in this order, is the simultaneous substitution of every clean template. */
  ghost predicate PairExact(v: Variable, w: Variable) {
    forall ts :: CleanTokens(ts) ==> Sequential(Render(ts), [v, w]) == Render(Simultaneous(ts, [v, w]))
  }

  /** The condition is exact for every two variables: where it fails, some clean template shows the leak, except that
      a variable whose value is its own placeholder does no harm. */
  lemma PairExactIff(v: Variable, w: Variable)
    requires PlainVariables([v, w]) && v.key != w.key
    ensures PairExact(v, w) <==> !Leaks(v.value, w.key) || w.value == Placeholder(w.key)
  {
    var vars := [v, w];
    assert PlainName(vars[0].key) && NoDollarSequence(vars[0].value) && NoDollarSequence(vars[1].value);
    if !Leaks(v.value, w.key) {
      forall ts | CleanTokens(ts)
        ensures Sequential(Render(ts), vars) == Render(Simultaneous(ts, vars))
      {
        SequentialIsSimultaneous(ts, vars);
      }
    } else if w.value == Placeholder(w.key) {
      forall ts | CleanTokens(ts)
        ensures Sequential(Render(ts), vars) == Render(Simultaneous(ts, vars))
      {
        OwnPlaceholderIsHarmless(ts, v, w);
      }
    } else {
      var ts := LeakShows(v, w);
    }
  }

  lemma OwnPlaceholderIsHarmless(ts: seq<Token>, v: Variable, w: Variable)
    requires CleanTokens(ts) && PlainName(v.key) && NoDollarSequence(v.value)
    requires w.value == Placeholder(w.key) && NoDollarSequence(w.value)
    ensures Sequential(Render(ts), [v, w]) == Render(Simultaneous(ts, [v, w]))
  {
    var filled := FillOne(ts, v.key, v.value);
    CleanTokensAreQuiet(ts, v.key);
    ReplaceAllOnTokens(ts, v.key, v.value);
    TwoVariables(Render(ts), v, w);
    ReplacedByItself(Render(filled), w.value, 0);
    SimultaneousTwo(ts, v, w);
    FilledByItself(filled, w.key);
  }

  /** A leak in one order can be none in the other: then the order in which the entries are listed matters. */
  lemma LeakMakesOrderMatter(v: Variable, w: Variable)
    requires PlainVariables([v, w]) && v.key != w.key
    requires Leaks(v.value, w.key) && !Leaks(w.value, v.key) && w.value != Placeholder(w.key)
    ensures exists ts :: CleanTokens(ts) && Sequential(Render(ts), [v, w]) != Sequential(Render(ts), [w, v])
  {
    var ts := LeakShows(v, w);
    var swapped := [w, v];
    assert PlainName([v, w][0].key) && NoDollarSequence([v, w][0].value);
    assert PlainName([v, w][1].key) && NoDollarSequence([v, w][1].value);
    SequentialIsSimultaneous(ts, swapped);
    SimultaneousTwo(ts, v, w);
    SimultaneousTwo(ts, w, v);
    assert Simultaneous(ts, [v, w]) == Simultaneous(ts, swapped);
  }

  method Interpolate(template: string, variables: seq<Variable>) returns (result: string)
    ensures result == Sequential(template, variables)
    ensures PlainVariables(variables) && LaterKeysSafe(variables) ==>
              forall ts :: CleanTokens(ts) && template == Render(ts) ==> result == Render(Simultaneous(ts, variables))
  {
    result := template;
    for i := 0 to |variables|
      invariant Sequential(template, variables) == Sequential(result, variables[i..])
    {
      assert variables[i..][1..] == variables[i + 1..];
      result := ReplaceAll(result, Placeholder(variables[i].key), variables[i].value);
    }
    assert variables[|variables|..] == [];
    if PlainVariables(variables) && LaterKeysSafe(variables) {
      forall ts | CleanTokens(ts) && template == Render(ts)
        ensures result == Render(Simultaneous(ts, variables))
      {
        SequentialIsSimultaneous(ts, variables);
      }
    }
  }
}
