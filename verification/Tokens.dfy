/** Texts with `{{name}}` placeholders, as literals and holes. */
module Tokens {

  datatype Token = Lit(text: string) | Hole(name: string)

  const OPEN := "{{"
  const CLOSE := "}}"

  function Print(t: Token): string {
    match t
    case Lit(text) => text
    case Hole(name) => OPEN + name + CLOSE
  }

  function Render(ts: seq<Token>): string {
    if ts == [] then "" else Print(ts[0]) + Render(ts[1..])
  }

  /** Every `{` in the text is followed by something else: no `{{` inside, and none can form at its end. */
  predicate CleanText(s: string) {
    forall k :: 0 <= k < |s| && s[k] == '{' ==> k + 1 < |s| && s[k + 1] != '{'
  }

  /** A name without braces. */
  predicate PlainName(s: string) {
    '{' !in s && '}' !in s
  }

  predicate CleanToken(t: Token) {
    match t
    case Lit(text) => CleanText(text)
    case Hole(name) => PlainName(name)
  }

  predicate CleanTokens(ts: seq<Token>) {
    forall i :: 0 <= i < |ts| ==> CleanToken(ts[i])
  }

  predicate OccursAt(s: string, pat: string, k: nat) {
    k + |pat| <= |s| && forall j :: 0 <= j < |pat| ==> s[k + j] == pat[j]
  }

  lemma OpenAt(s: string, k: nat)
    ensures OccursAt(s, OPEN, k) <==> k + 2 <= |s| && s[k] == '{' && s[k + 1] == '{'
  {
    assert OPEN[0] == '{' && OPEN[1] == '{';
    if k + 2 <= |s| {
      assert s[k + 0] == s[k];
    }
  }

  lemma RenderCons(t: Token, rest: seq<Token>)
    ensures Render([t] + rest) == Print(t) + Render(rest)
  {
    assert ([t] + rest)[1..] == rest;
  }

  lemma Peel(s: string, k: nat, whole: string, head: string, rest: string)
    requires k <= |s| && s[k..] == whole && whole == head + rest
    ensures OccursAt(s, head, k) && s[k + |head|..] == rest
  {
    var t := s[k..];
    forall j | 0 <= j < |head|
      ensures s[k + j] == head[j]
    {
      assert t[j] == s[k + j];
    }
    assert rest == t[|head|..] == s[k + |head|..];
  }

  lemma Reassociate(s: string, k: nat, n: nat, rest: string)
    requires k < n <= |s|
    ensures [s[k]] + (s[k + 1..n] + rest) == s[k..n] + rest
  {
    assert s[k..n] == [s[k]] + s[k + 1..n];
  }

  lemma SplitAt(s: string, k: nat, n: nat)
    requires k <= n <= |s|
    ensures s[k..] == s[k..n] + s[n..]
  {
  }

  lemma OccurrenceIs(s: string, k: nat, text: string)
    requires OccursAt(s, text, k)
    ensures s[k..k + |text|] == text
  {
  }

  lemma TextAtOccurrence(s: string, k: nat, text: string, n: nat)
    requires OccursAt(s, text, k) && n == k + |text|
    ensures s[k..] == text + s[n..]
  {
    OccurrenceIs(s, k, text);
    SplitAt(s, k, n);
  }

  lemma RenderSplit(ts: seq<Token>)
    requires ts != []
    ensures Render(ts) == Print(ts[0]) + Render(ts[1..])
  {
  }

  /** What the first token prints, and where the others start. */
  lemma PeelToken(s: string, k: nat, ts: seq<Token>) returns (n: nat)
    requires k <= |s| && s[k..] == Render(ts) && ts != []
    ensures n == k + |Print(ts[0])| && OccursAt(s, Print(ts[0]), k) && s[n..] == Render(ts[1..])
  {
    RenderSplit(ts);
    n := k + |Print(ts[0])|;
    Peel(s, k, Render(ts), Print(ts[0]), Render(ts[1..]));
  }

  lemma AllRendered(s: string, k: nat)
    requires k <= |s| && s[k..] == Render([])
    ensures k == |s|
  {
    assert |s[k..]| == 0;
  }

  lemma HoleChars(name: string)
    ensures var h := Print(Hole(name)); var n := |name|;
            && |h| == n + 4 && h[0] == h[1] == '{' && h[n + 2] == h[n + 3] == '}'
            && forall i :: 0 <= i < n ==> h[i + 2] == name[i]
  {
  }

  lemma HoleInContext(s: string, k: nat, name: string)
    requires OccursAt(s, Print(Hole(name)), k)
    ensures var n := |name|;
            && k + n + 4 <= |s| && s[k] == s[k + 1] == '{' && s[k + n + 2] == s[k + n + 3] == '}'
            && forall i :: 0 <= i < n ==> s[k + 2 + i] == name[i]
  {
    HoleChars(name);
    var h := Print(Hole(name));
    assert s[k + 0] == h[0] && s[k + 1] == h[1];
    forall i | 0 <= i < |name|
      ensures s[k + 2 + i] == name[i]
    {
      assert s[k + (2 + i)] == h[i + 2];
    }
  }

  predicate NoOpenWithin(s: string, k: nat, n: nat) {
    forall j :: k <= j < k + n ==> !OccursAt(s, OPEN, j)
  }

  lemma LiteralHasNoOpen(s: string, k: nat, text: string)
    requires OccursAt(s, text, k) && CleanText(text)
    ensures NoOpenWithin(s, k, |text|)
  {
    forall j | k <= j < k + |text|
      ensures !OccursAt(s, OPEN, j)
    {
      OpenAt(s, j);
      assert s[k + (j - k)] == text[j - k];
      if text[j - k] == '{' {
        assert s[k + (j + 1 - k)] == text[j + 1 - k];
      }
    }
  }

  lemma NoBraceBehindOpen(s: string, k: nat, name: string, m: nat)
    requires OccursAt(s, Print(Hole(name)), k) && PlainName(name) && 2 <= m < |name| + 4
    ensures s[k + m] != '{'
  {
    HoleInContext(s, k, name);
    if m - 2 < |name| {
      assert s[k + 2 + (m - 2)] == name[m - 2] && name[m - 2] in name;
    }
  }

  /** In a printed hole `{{` occurs at its start only. */
  lemma NoOpenInsideHole(s: string, k: nat, name: string, j: nat)
    requires OccursAt(s, Print(Hole(name)), k) && PlainName(name) && k < j < k + |name| + 4
    ensures !OccursAt(s, OPEN, j)
  {
    OpenAt(s, j);
    NoBraceBehindOpen(s, k, name, if j == k + 1 then 2 else j - k);
  }
}
