/** A profile field: the shapes of its draft, and the guard that skips a write when nothing changed. */
module EditableField {
  import opened Options

  datatype InputType =
    | MultiSelectChips
    | MultiTagInput
    | BooleanInput
    | IntegerInput
    | StringInput
    | StringSelect
    | StateSelect

  datatype Number = NaN | Finite(n: int)
  datatype Value = Undefined | Null | Bool(b: bool) | Num(n: Number) | Str(s: string) | Arr(items: seq<string>)

  predicate IsList(t: InputType) {
    t.MultiSelectChips? || t.MultiTagInput?
  }

  function ClearedValueFor(t: InputType): Value {
    if IsList(t) then Arr([]) else Null
  }

  function InitialDraftFor(t: InputType, current: Value): Value {
    if IsList(t) then (if current.Arr? then current else Arr([]))
    else if t.BooleanInput? then (if current.Bool? then current else Null)
    else if t.IntegerInput? then (if current.Num? then current else Null)
    else if current.Str? then current else Str("")
  }

  predicate HasValue(t: InputType, v: Value) {
    if IsList(t) then v.Arr? && |v.items| > 0
    else if t.BooleanInput? then v.Bool?
    else if t.IntegerInput? then v.Num?
    else v.Str? && |v.s| > 0
  }

  function ValueToPersist(t: InputType, draft: Value): Value {
    if HasValue(t, draft) then draft else ClearedValueFor(t)
  }

  /** What is written of a value, input by input: a list of any length, a truth value, a number, a text that is not
      empty, or null where there is no such value. */
  predicate WritesAs(t: InputType, v: Value, written: Value) {
    match t
    case MultiSelectChips => written == if v.Arr? then v else Arr([])
    case MultiTagInput => written == if v.Arr? then v else Arr([])
    case BooleanInput => written == if v.Bool? then v else Null
    case IntegerInput => written == if v.Num? then v else Null
    case StringInput => written == if v.Str? && v.s != "" then v else Null
    case StringSelect => written == if v.Str? && v.s != "" then v else Null
    case StateSelect => written == if v.Str? && v.s != "" then v else Null
  }

  /** Opening the field loses nothing: the draft has the shape its input needs, and would be written as the value. */
  lemma DraftKeepsValue(t: InputType, v: Value)
    ensures WritesAs(t, v, ValueToPersist(t, v))
    ensures ValueToPersist(t, InitialDraftFor(t, v)) == ValueToPersist(t, v)
    ensures var draft := InitialDraftFor(t, v);
            match t
            case MultiSelectChips => draft.Arr?
            case MultiTagInput => draft.Arr?
            case BooleanInput => draft.Bool? || draft.Null?
            case IntegerInput => draft.Num? || draft.Null?
            case _ => draft.Str?
  {
  }

  // ---------- the order of Array.prototype.sort on strings ----------

  predicate Le(a: string, b: string) {
    a == "" || (b != "" && (a[0] < b[0] || (a[0] == b[0] && Le(a[1..], b[1..]))))
  }

  lemma {:induction false} LeTotal(a: string, b: string)
    ensures Le(a, b) || Le(b, a)
  {
    if a != "" && b != "" && a[0] == b[0] { LeTotal(a[1..], b[1..]); }
  }

  lemma {:induction false} LeAntisymmetric(a: string, b: string)
    requires Le(a, b) && Le(b, a)
    ensures a == b
  {
    if a != "" {
      LeAntisymmetric(a[1..], b[1..]);
      assert a == [a[0]] + a[1..] && b == [b[0]] + b[1..];
    }
  }

  lemma {:induction false} LeTransitive(a: string, b: string, c: string)
    requires Le(a, b) && Le(b, c)
    ensures Le(a, c)
  {
    if a != "" && a[0] == b[0] && b[0] == c[0] { LeTransitive(a[1..], b[1..], c[1..]); }
  }

  predicate Sorted(s: seq<string>) {
    forall i, j :: 0 <= i < j < |s| ==> Le(s[i], s[j])
  }

  function Insert(s: seq<string>, x: string): seq<string> {
    if s == [] then [x] else if Le(x, s[0]) then [x] + s else [s[0]] + Insert(s[1..], x)
  }

  function Sort(s: seq<string>): seq<string> {
    if s == [] then [] else Insert(Sort(s[1..]), s[0])
  }

  lemma {:induction false} InsertMultiset(s: seq<string>, x: string)
    ensures multiset(Insert(s, x)) == multiset(s) + multiset{x}
  {
    if s != [] && !Le(x, s[0]) {
      InsertMultiset(s[1..], x);
      assert s == [s[0]] + s[1..];
    }
  }

  lemma ConsSorted(x: string, t: seq<string>)
    requires Sorted(t) && forall k :: 0 <= k < |t| ==> Le(x, t[k])
    ensures Sorted([x] + t)
  {
  }

  lemma InsertMember(s: seq<string>, x: string, u: string)
    requires u in Insert(s, x)
    ensures u in s || u == x
  {
    InsertMultiset(s, x);
    assert u in multiset(Insert(s, x));
  }

  lemma {:induction false} InsertSorted(s: seq<string>, x: string)
    requires Sorted(s)
    ensures Sorted(Insert(s, x))
  {
    if s == [] {
    } else if Le(x, s[0]) {
      forall k | 0 <= k < |s|
        ensures Le(x, s[k])
      {
        if k > 0 { LeTransitive(x, s[0], s[k]); }
      }
      ConsSorted(x, s);
    } else {
      InsertSorted(s[1..], x);
      LeTotal(x, s[0]);
      var t := Insert(s[1..], x);
      forall k | 0 <= k < |t|
        ensures Le(s[0], t[k])
      {
        InsertMember(s[1..], x, t[k]);
      }
      ConsSorted(s[0], t);
    }
  }

  lemma {:induction false} SortOk(s: seq<string>)
    ensures Sorted(Sort(s)) && multiset(Sort(s)) == multiset(s)
  {
    if s != [] {
      SortOk(s[1..]);
      InsertSorted(Sort(s[1..]), s[0]);
      InsertMultiset(Sort(s[1..]), s[0]);
      assert s == [s[0]] + s[1..];
    }
  }

  /** The first element of a sorted sequence is below every element. */
  lemma HeadIsLeast(s: seq<string>, x: string)
    requires Sorted(s) && x in s
    ensures Le(s[0], x)
  {
    LeTotal(x, x);
  }

  lemma SortedHeadsEqual(a: seq<string>, b: seq<string>)
    requires Sorted(a) && Sorted(b) && a != [] && b != [] && multiset(a) == multiset(b)
    ensures a[0] == b[0]
  {
    assert a[0] in multiset(b) && b[0] in multiset(a);
    HeadIsLeast(a, b[0]);
    HeadIsLeast(b, a[0]);
    LeAntisymmetric(a[0], b[0]);
  }

  lemma TailMultiset(a: seq<string>)
    requires a != []
    ensures multiset(a[1..]) == multiset(a) - multiset{a[0]}
  {
    assert a == [a[0]] + a[1..];
  }

  /** Sorted permutations coincide. */
  lemma {:induction false} SortedUnique(a: seq<string>, b: seq<string>)
    requires Sorted(a) && Sorted(b) && multiset(a) == multiset(b)
    ensures a == b
  {
    assert |multiset(a)| == |multiset(b)|;
    if a != [] {
      SortedHeadsEqual(a, b);
      TailMultiset(a);
      TailMultiset(b);
      SortedUnique(a[1..], b[1..]);
      assert a == [a[0]] + a[1..] && b == [b[0]] + b[1..];
    }
  }

  lemma SortedEqualIff(a: seq<string>, b: seq<string>)
    ensures Sort(a) == Sort(b) <==> multiset(a) == multiset(b)
  {
    SortOk(a);
    SortOk(b);
    if multiset(a) == multiset(b) { SortedUnique(Sort(a), Sort(b)); }
  }

  // ---------- the guard ----------

  /** `===` on values that are not both arrays. */
  predicate StrictlyEqual(a: Value, b: Value) {
    a == b && a != Num(NaN)
  }

  predicate DraftMatches(t: InputType, draft: Value, current: Value) {
    var persisted := ValueToPersist(t, InitialDraftFor(t, current));
    var next := ValueToPersist(t, draft);
    if persisted.Arr? && next.Arr? then
      if |persisted.items| != |next.items| then false
      else
        var a, b := Sort(persisted.items), Sort(next.items);
        |a| <= |b| && forall i :: 0 <= i < |a| ==> a[i] == b[i]
    else StrictlyEqual(persisted, next)
  }

  /** The same field content: the order within a list does not count. */
  predicate SameContent(a: Value, b: Value) {
    if a.Arr? && b.Arr? then multiset(a.items) == multiset(b.items) else a == b && a != Num(NaN)
  }

  /** The guard holds exactly when stored and draft value, normalised, are the same content. */
  lemma DraftMatchesIff(t: InputType, draft: Value, current: Value)
    ensures DraftMatches(t, draft, current)
       <==> SameContent(ValueToPersist(t, InitialDraftFor(t, current)), ValueToPersist(t, draft))
  {
    var p, n := ValueToPersist(t, InitialDraftFor(t, current)), ValueToPersist(t, draft);
    if p.Arr? && n.Arr? {
      SortOk(p.items);
      SortOk(n.items);
      assert |multiset(p.items)| == |p.items| && |multiset(n.items)| == |n.items|;
      assert |multiset(Sort(p.items))| == |Sort(p.items)| && |multiset(Sort(n.items))| == |Sort(n.items)|;
      SortedEqualIff(p.items, n.items);
    }
  }

  /** Opening the field and saving it as it is writes nothing, unless the stored number is NaN. */
  lemma OpenThenSaveMatchesIff(t: InputType, current: Value)
    ensures DraftMatches(t, InitialDraftFor(t, current), current) <==> !(t.IntegerInput? && current == Num(NaN))
  {
    DraftMatchesIff(t, InitialDraftFor(t, current), current);
  }

  /** What a save wrote is matched by the draft it came from, and by the draft shown when the field is reopened. */
  lemma WrittenValueMatches(t: InputType, draft: Value)
    requires ValueToPersist(t, draft) != Num(NaN)
    ensures DraftMatches(t, draft, ValueToPersist(t, draft))
    ensures DraftMatches(t, InitialDraftFor(t, ValueToPersist(t, draft)), ValueToPersist(t, draft))
  {
    DraftMatchesIff(t, draft, ValueToPersist(t, draft));
    OpenThenSaveMatchesIff(t, ValueToPersist(t, draft));
  }

  // ---------- the component's state ----------

  datatype Mode = Read | Edit

  class FieldEditor {
    const t: InputType
    var current: Value
    var mode: Mode
    var draft: Value
    var saving: bool
    var error: Option<string>

    constructor (t: InputType, current: Value)
      ensures this.t == t && this.current == current && mode == Read && draft == InitialDraftFor(t, current)
      ensures !saving && error == None
    {
      this.t, this.current := t, current;
      mode, draft, saving, error := Read, InitialDraftFor(t, current), false, None;
    }

    /** Editing starts so that saving at once would write nothing; a stored NaN, which JSON cannot carry, is the
        exception. */
    method EnterEdit()
      modifies this`mode, this`draft, this`error
      ensures mode == Edit && draft == InitialDraftFor(t, current) && error == None
      ensures DraftMatches(t, draft, current) <==> !(t.IntegerInput? && current == Num(NaN))
    {
      error := None;
      draft := InitialDraftFor(t, current);
      mode := Edit;
      OpenThenSaveMatchesIff(t, current);
    }

    /** `failure` is the message `onSave` rejects with, if it does; a value it accepts becomes the current one. */
    method HandleSave(failure: Option<string>) returns (written: Option<Value>)
      modifies this`current, this`mode, this`saving, this`error
      ensures written.Some? <==>
                !SameContent(ValueToPersist(t, InitialDraftFor(t, old(current))), ValueToPersist(t, old(draft)))
      ensures written.Some? ==> written.value == ValueToPersist(t, draft)
      ensures written.Some? ==> WritesAs(t, draft, written.value)
      ensures current == (if written.Some? && failure.None? then written.value else old(current))
      ensures mode == (if written.Some? && failure.Some? then old(mode) else Read)
      ensures error == (if written.Some? then failure else old(error))
      ensures saving == if written.Some? then false else old(saving)
    {
      DraftMatchesIff(t, draft, current);
      DraftKeepsValue(t, draft);
      if DraftMatches(t, draft, current) {
        mode := Read;
        return None;
      }
      saving := true;
      error := None;
      written := Some(ValueToPersist(t, draft));
      if failure.None? {
        current := written.value;
        mode := Read;
      } else {
        error := failure;
      }
      saving := false;
    }

    /** The clear button: the value becomes the empty one of the type, and the field is closed. */
    method HandleClearConfirm(failure: Option<string>)
      modifies this`current, this`mode, this`draft, this`saving, this`error
      ensures failure.None? ==> !HasValue(t, current) && DraftMatches(t, InitialDraftFor(t, current), current)
      ensures failure.None? ==> mode == Read && DraftMatches(t, draft, current)
      ensures failure.None? ==> WritesAs(t, Undefined, current)
      ensures failure.Some? ==> current == old(current) && mode == old(mode) && draft == old(draft)
      ensures error == failure && !saving
    {
      saving := true;
      error := None;
      if failure.None? {
        current := ClearedValueFor(t);
        mode := Read;
        draft := ClearedValueFor(t);
        OpenThenSaveMatchesIff(t, current);
        DraftMatchesIff(t, draft, current);
        DraftKeepsValue(t, Undefined);
      } else {
        error := failure;
      }
      saving := false;
    }
  }
}
