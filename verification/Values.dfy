/** Values as the repository's Python code sees them: JSON-like records, `str()`, `strip()`,
    truthiness, equality, and the identifier grammars. */
module Values {
  datatype Option<+T> = None | Some(value: T) {
    predicate IsFailure() { None? }
    function PropagateFailure<U>(): Option<U> requires None? { None }
    function Extract(): T requires Some? { value }
  }

  /** A dictionary key: one of the names some contract knows, or any other text. */
  datatype Key =
    | KId | KType | KChapterId | KVisibility | KOptional | KTransitions | KSceneRef | KNpcRefs
    | KEncounterRef | KName | KDescription | KOnComplete | KChoiceMode
    | KTo | KConditions | KChoiceId | KChoiceLabel | KKey | KValue
    | KOp | KRef | KRecipientUid | KKind | KNodeIds
    | KChapters | KNodes | KObjectives | KMilestones | KStartNodeIds | KFormat | KSummary
    | KTutorial | KSchemaVersion | KSourceRef | KAutomationLevel | KEstimatedMinutes
    | KRecommendedLevel | KPlayerCount | KWorldPolicy | KRecommendedWorldId | KWorldSeed
    | KEntities | KRelations | KFacts | KProcesses | KEntityId | KRelationId | KFromRef | KToRef
    | KProcessId | KParticipants | KLocation | KDueAt | KLabels
    | KOther(name: string)

  datatype Json =
    | Null
    | Bool(b: bool)
    | Int(n: int)
    | Float(r: real)
    | Str(s: string)
    | Arr(items: seq<Json>)
    | Obj(fields: Fields)

  type Fields = map<Key, Json>

  /** `raw.get(key, default)`. */
  function Get(o: Fields, key: Key, default: Json): Json {
    if key in o then o[key] else default
  }

  /** `bool(v)`. */
  predicate Truthy(v: Json) {
    match v
    case Null => false
    case Bool(b) => b
    case Int(n) => n != 0
    case Float(r) => r != 0.0
    case Str(s) => s != ""
    case Arr(items) => items != []
    case Obj(fields) => fields != map[]
  }

  /** Folds the numeric types together: in Python `True == 1 == 1.0`. */
  function Canon(v: Json): Json {
    match v
    case Bool(b) => Float(if b then 1.0 else 0.0)
    case Int(n) => Float(n as real)
    case Arr(items) => Arr(seq(|items|, i requires 0 <= i < |items| => Canon(items[i])))
    case Obj(fields) => Obj(map k | k in fields :: Canon(fields[k]))
    case _ => v
  }

  /** Python's `==` on these values. */
  predicate PyEq(a: Json, b: Json) { Canon(a) == Canon(b) }

  predicate IsNumber(v: Json) { v.Bool? || v.Int? || v.Float? }

  function NumberOf(v: Json): real
    requires IsNumber(v)
  {
    match v
    case Bool(b) => if b then 1.0 else 0.0
    case Int(n) => n as real
    case Float(r) => r
  }

  /** Texts and null equal only themselves, numbers and truth values their like, lists and records part by part. */
  lemma EqualValues(a: Json, b: Json)
    ensures a.Null? || a.Str? ==> (PyEq(a, b) <==> a == b)
    ensures IsNumber(a) ==> (PyEq(a, b) <==> IsNumber(b) && NumberOf(a) == NumberOf(b))
    ensures a.Arr? ==> (PyEq(a, b) <==>
              b.Arr? && |a.items| == |b.items| && forall i :: 0 <= i < |a.items| ==> PyEq(a.items[i], b.items[i]))
    ensures a.Obj? ==> (PyEq(a, b) <==>
              b.Obj? && a.fields.Keys == b.fields.Keys && forall k :: k in a.fields ==> PyEq(a.fields[k], b.fields[k]))
  {
    if a.Arr? && b.Arr? {
      var x, y := Canon(a).items, Canon(b).items;
      if |a.items| == |b.items| && forall i :: 0 <= i < |a.items| ==> PyEq(a.items[i], b.items[i]) {
        assert x == y;
      }
      if PyEq(a, b) {
        forall i | 0 <= i < |a.items| ensures PyEq(a.items[i], b.items[i]) { assert x[i] == y[i]; }
      }
    }
    if a.Obj? && b.Obj? {
      var x, y := Canon(a).fields, Canon(b).fields;
      assert x.Keys == a.fields.Keys && y.Keys == b.fields.Keys;
      if a.fields.Keys == b.fields.Keys && forall k :: k in a.fields ==> PyEq(a.fields[k], b.fields[k]) {
        assert x == y;
      }
      if PyEq(a, b) {
        assert x == y;
        forall k | k in a.fields ensures PyEq(a.fields[k], b.fields[k]) { assert x[k] == y[k]; }
      }
    }
  }

  /** How `str()` renders a value that is not a string; nothing here depends on the choice. */
  type Show = Json -> string

  /** `str(v or "")`. */
  function Text(v: Json, show: Show): string {
    if !Truthy(v) then "" else if v.Str? then v.s else show(v)
  }

  predicate IsSpace(c: char) {
    '\t' <= c <= '\r' || '\U{1c}' <= c <= ' ' || c == '\U{85}' || c == '\U{a0}' || c == '\U{1680}'
    || '\U{2000}' <= c <= '\U{200a}' || c == '\U{2028}' || c == '\U{2029}' || c == '\U{202f}'
    || c == '\U{205f}' || c == '\U{3000}'
  }

  function StripLeft(s: string): (r: string)
    ensures |r| <= |s|
    ensures r == "" || !IsSpace(r[0])
    ensures s != "" && !IsSpace(s[0]) ==> r == s
    ensures s != "" && !IsSpace(s[|s| - 1]) ==> r != "" && r[|r| - 1] == s[|s| - 1]
  {
    if s == "" || !IsSpace(s[0]) then s else StripLeft(s[1..])
  }

  function StripRight(s: string): (r: string)
    ensures |r| <= |s|
    ensures r == "" || (!IsSpace(r[|r| - 1]) && r[0] == s[0])
    ensures s != "" && !IsSpace(s[|s| - 1]) ==> r == s
  {
    if s == "" || !IsSpace(s[|s| - 1]) then s else StripRight(s[..|s| - 1])
  }

  /** `s.strip()`. */
  function Strip(s: string): (r: string)
    ensures |r| <= |s|
    ensures r == "" || (!IsSpace(r[0]) && !IsSpace(r[|r| - 1]))
    ensures s == "" || (!IsSpace(s[0]) && !IsSpace(s[|s| - 1])) ==> r == s
  {
    StripRight(StripLeft(s))
  }

  predicate Blank(s: string) { forall i :: 0 <= i < |s| ==> IsSpace(s[i]) }

  /** From position i on the text is the core, and all around it is white space. */
  predicate PaddedAt(text: string, core: string, i: nat) {
    && i + |core| <= |text| && text[i..i + |core|] == core && Blank(text[..i]) && Blank(text[i + |core|..])
    && (core != "" ==> !IsSpace(core[0]) && !IsSpace(core[|core| - 1]))
  }

  /** The text is the core with white space around it, and the core has none at its ends. */
  ghost predicate Padded(text: string, core: string) { exists i :: PaddedAt(text, core, i) }

  lemma {:induction false} StripLeftSkips(s: string, i: nat)
    requires i <= |s| && Blank(s[..i])
    ensures StripLeft(s) == StripLeft(s[i..])
  {
    hide IsSpace;
    if i > 0 {
      assert s[0] == s[..i][0];
      var rest := s[1..][..i - 1];
      forall j | 0 <= j < |rest| ensures IsSpace(rest[j]) { assert s[..i][j + 1] == rest[j]; }
      StripLeftSkips(s[1..], i - 1);
      assert s[1..][i - 1..] == s[i..];
    } else {
      assert s[0..] == s;
    }
  }

  lemma {:induction false} StripRightSkips(s: string, n: nat)
    requires n <= |s| && Blank(s[n..])
    ensures StripRight(s) == StripRight(s[..n])
  {
    hide IsSpace;
    var last := |s| - 1;
    if n < |s| {
      assert s[last] == s[n..][last - n];
      var rest := s[..last][n..];
      forall j | 0 <= j < |rest| ensures IsSpace(rest[j]) { assert s[n..][j] == rest[j]; }
      StripRightSkips(s[..last], n);
      assert s[..last][..n] == s[..n];
    } else {
      assert s[..n] == s;
    }
  }

  lemma {:induction false} StrippedLeft(s: string)
    ensures var i := |s| - |StripLeft(s)|; i >= 0 && s[i..] == StripLeft(s) && Blank(s[..i])
  {
    hide IsSpace;
    if s != "" && IsSpace(s[0]) {
      StrippedLeft(s[1..]);
      var i := |s| - |StripLeft(s)|;
      assert s[1..][i - 1..] == s[i..];
      var off := s[..i];
      forall j | 0 <= j < |off| ensures IsSpace(off[j]) { if j > 0 { assert off[j] == s[1..][..i - 1][j - 1]; } }
    }
  }

  lemma {:induction false} StrippedRight(s: string)
    ensures var n := |StripRight(s)|; s[..n] == StripRight(s) && Blank(s[n..])
  {
    hide IsSpace;
    var last := |s| - 1;
    if s != "" && IsSpace(s[last]) {
      StrippedRight(s[..last]);
      var n := |StripRight(s)|;
      assert s[..last][..n] == s[..n];
      var off := s[n..];
      forall j | 0 <= j < |off| ensures IsSpace(off[j]) { if n + j < last { assert off[j] == s[..last][n..][j]; } }
    } else {
      assert s[..|s|] == s;
    }
  }

  lemma EmptyStrips(text: string)
    requires Blank(text)
    ensures Strip(text) == ""
  {
    hide StripLeft, StripRight;
    assert text[..|text|] == text;
    StripLeftSkips(text, |text|);
    StrippedLeft("");
  }

  lemma BlankAround(text: string, i: nat)
    requires i <= |text| && Blank(text[..i]) && Blank(text[i..])
    ensures Blank(text)
  {
    forall j | 0 <= j < |text| ensures IsSpace(text[j]) {
      if j < i { assert text[..i][j] == text[j]; } else { assert text[i..][j - i] == text[j]; }
    }
  }

  lemma FirstStays(s: string)
    requires s != "" && !IsSpace(s[0])
    ensures StripLeft(s) == s
  {}

  lemma LastStays(s: string)
    requires s != "" && !IsSpace(s[|s| - 1])
    ensures StripRight(s) == s
  {}

  lemma PaddedStrips(text: string, core: string, i: nat)
    requires PaddedAt(text, core, i)
    ensures Strip(text) == core
  {
    hide IsSpace, StripLeft, StripRight, Blank;
    if core == "" {
      BlankAround(text, i);
      EmptyStrips(text);
    } else {
      var rest := text[i..];
      StripLeftSkips(text, i);
      assert rest[0] == core[0] && rest[|core|..] == text[i + |core|..] && rest[..|core|] == core;
      FirstStays(rest);
      StripRightSkips(rest, |core|);
      LastStays(core);
    }
  }

  lemma StripPads(text: string)
    ensures PaddedAt(text, Strip(text), |text| - |StripLeft(text)|)
  {
    hide IsSpace, StripLeft, StripRight, Blank;
    var left := StripLeft(text);
    var i, n := |text| - |left|, |StripRight(left)|;
    StrippedLeft(text);
    StrippedRight(left);
    assert text[i..i + n] == left[..n] && text[i + n..] == left[n..];
  }

  /** Stripping takes off the white space at both ends, all of it, and nothing else. */
  lemma StripIff(text: string, core: string)
    ensures Strip(text) == core <==> Padded(text, core)
  {
    hide PaddedAt, Strip;
    StripPads(text);
    forall i: nat | PaddedAt(text, core, i) ensures Strip(text) == core { PaddedStrips(text, core, i); }
  }

  predicate IsIdStart(c: char) { 'a' <= c <= 'z' || '0' <= c <= '9' }

  predicate IsIdChar(c: char) { IsIdStart(c) || c == '_' || c == '.' || c == '-' }

  /** `[a-z0-9][a-z0-9_.-]*` */
  predicate IsId(s: string) {
    s != "" && IsIdStart(s[0]) && forall i :: 0 <= i < |s| ==> IsIdChar(s[i])
  }

  /** Two identifiers joined by one colon. */
  predicate IsRef(s: string) {
    exists i :: 0 <= i < |s| && s[i] == ':' && IsId(s[..i]) && IsId(s[i + 1..])
  }

  type Id = string

  /** `str(value or "").strip()` where the identifier grammar must match (`_required_id`). */
  function ReadId(v: Json, show: Show): (r: Option<Id>)
    ensures r.Some? ==> IsId(r.value)
    ensures v.Str? && IsId(v.s) ==> r == Some(v.s)
  {
    var t := Strip(Text(v, show));
    if IsId(t) then Some(t) else None
  }

  function Digit(d: nat): char
    requires d < 10
  {
    ['0', '1', '2', '3', '4', '5', '6', '7', '8', '9'][d]
  }

  /** Decimal notation. */
  function Decimal(n: nat): (r: string)
    ensures r != "" && forall i :: 0 <= i < |r| ==> '0' <= r[i] <= '9'
    ensures n < 100 ==> |r| <= 2
  {
    if n < 10 then [Digit(n)] else Decimal(n / 10) + [Digit(n % 10)]
  }

  lemma {:induction false} DecimalInjective(m: nat, n: nat)
    ensures Decimal(m) == Decimal(n) ==> m == n
  {
    if Decimal(m) == Decimal(n) {
      var a, b := Decimal(m), Decimal(n);
      assert a[|a| - 1] == Digit(m % 10) && b[|b| - 1] == Digit(n % 10);
      if m >= 10 && n >= 10 {
        assert a[..|a| - 1] == Decimal(m / 10) && b[..|b| - 1] == Decimal(n / 10);
        DecimalInjective(m / 10, n / 10);
      }
    }
  }

  // ---- sequences ----

  predicate Distinct<T(==)>(s: seq<T>) {
    forall i, j :: 0 <= i < j < |s| ==> s[i] != s[j]
  }

  lemma DistinctCons<T>(x: T, rest: seq<T>)
    ensures Distinct([x] + rest) <==> x !in rest && Distinct(rest)
  {
    var s := [x] + rest;
    if Distinct(s) {
      forall i | 0 <= i < |rest| ensures rest[i] != x { assert s[0] != s[i + 1]; }
      forall i, j | 0 <= i < j < |rest| ensures rest[i] != rest[j] { assert s[i + 1] != s[j + 1]; }
    }
  }

  function Elems<T>(s: seq<T>): set<T> { set x | x in s }

  lemma {:induction false} DistinctSize<T>(s: seq<T>)
    ensures |Elems(s)| <= |s|
    ensures Distinct(s) <==> |Elems(s)| == |s|
  {
    if s == [] {
      assert Elems(s) == {};
    } else {
      var rest := s[..|s| - 1];
      var x := s[|s| - 1];
      DistinctSize(rest);
      assert Elems(s) == Elems(rest) + {x};
      if x in rest {
        assert Elems(s) == Elems(rest);
        var k :| 0 <= k < |rest| && rest[k] == x;
        assert s[k] == s[|s| - 1];
      } else if Distinct(rest) {
        assert Distinct(s);
      } else {
        var i, j :| 0 <= i < j < |rest| && rest[i] == rest[j];
        assert s[i] == s[j];
      }
    }
  }

  lemma SubsetSize<T>(a: set<T>, b: set<T>)
    requires a <= b
    ensures |a| <= |b|
    ensures |a| == |b| ==> a == b
  {
    assert b == a + (b - a);
    assert |b| == |a| + |b - a|;
  }

  /** Reads every item, or fails if one fails. */
  function ReadAll<A, B>(read: A -> Option<B>, items: seq<A>): (r: Option<seq<B>>)
    ensures r.Some? <==> forall i :: 0 <= i < |items| ==> read(items[i]).Some?
    ensures r.Some? ==> |r.value| == |items|
    ensures r.Some? ==> forall i :: 0 <= i < |items| ==> read(items[i]) == Some(r.value[i])
  {
    if items == [] then Some([])
    else
      var first, rest := read(items[0]), ReadAll(read, items[1..]);
      if first.Some? && rest.Some? then Some([first.value] + rest.value) else None
  }

  function Filter<T>(keep: T -> bool, s: seq<T>): (r: seq<T>)
    ensures |r| <= |s|
  {
    if s == [] then []
    else if keep(s[0]) then [s[0]] + Filter(keep, s[1..])
    else Filter(keep, s[1..])
  }

  lemma {:induction false} Filtered<T(!new)>(keep: T -> bool, s: seq<T>)
    ensures forall x :: x in Filter(keep, s) <==> x in s && keep(x)
    ensures (forall x :: x in s ==> keep(x)) ==> Filter(keep, s) == s
  {
    if s != [] { Filtered(keep, s[1..]); }
  }

  lemma {:induction false} FilterConcat<T>(keep: T -> bool, a: seq<T>, b: seq<T>)
    ensures Filter(keep, a + b) == Filter(keep, a) + Filter(keep, b)
  {
    if a == [] {
      assert a + b == b;
    } else {
      assert (a + b)[1..] == a[1..] + b && (a + b)[0] == a[0];
      FilterConcat(keep, a[1..], b);
    }
  }

  lemma {:induction false} FilterSkip<T>(keep: T -> bool, a: seq<T>, x: T, b: seq<T>)
    requires !keep(x)
    ensures Filter(keep, a + [x] + b) == Filter(keep, a + b)
  {
    if a == [] {
      assert a + [x] + b == [x] + b && a + b == b;
    } else {
      FilterSkip(keep, a[1..], x, b);
      assert (a + [x] + b)[1..] == a[1..] + [x] + b && (a + b)[1..] == a[1..] + b;
    }
  }

  /** Something is kept, or two things are, exactly if they stand in the list. */
  lemma {:induction false} FilterCounts<T>(keep: T -> bool, s: seq<T>)
    ensures |Filter(keep, s)| >= 1 <==> exists i :: 0 <= i < |s| && keep(s[i])
    ensures |Filter(keep, s)| >= 2 <==> exists i, j :: 0 <= i < j < |s| && keep(s[i]) && keep(s[j])
  {
    if s != [] {
      var rest := s[1..];
      FilterCounts(keep, rest);
      if i :| 0 <= i < |rest| && keep(rest[i]) {
        assert keep(s[i + 1]);
        assert keep(s[0]) ==> keep(s[0]) && keep(s[i + 1]);
      }
      if i, j :| 0 <= i < j < |rest| && keep(rest[i]) && keep(rest[j]) { assert keep(s[i + 1]) && keep(s[j + 1]); }
      if i :| 0 <= i < |s| && keep(s[i]) { assert i > 0 ==> keep(rest[i - 1]); }
      if i, j :| 0 <= i < j < |s| && keep(s[i]) && keep(s[j]) {
        assert keep(rest[j - 1]);
        assert i > 0 ==> keep(rest[i - 1]);
      }
    }
  }

  lemma {:induction false} FilterSame<T>(keep: T -> bool, also: T -> bool, s: seq<T>)
    requires forall i :: 0 <= i < |s| ==> keep(s[i]) == also(s[i])
    ensures Filter(keep, s) == Filter(also, s)
  {
    if s != [] { FilterSame(keep, also, s[1..]); }
  }

  function Map<A, B>(f: A -> B, s: seq<A>): (r: seq<B>)
    ensures |r| == |s| && forall i :: 0 <= i < |s| ==> r[i] == f(s[i])
  {
    seq(|s|, i requires 0 <= i < |s| => f(s[i]))
  }

  /** Filtering and mapping agree on lists whose kept elements agree one by one. */
  lemma {:induction false} MapFilterAgree<T, U>(keep: T -> bool, f: T -> U, s: seq<T>, t: seq<T>)
    requires |s| == |t| && forall i :: 0 <= i < |s| ==> keep(s[i]) == keep(t[i]) && (keep(s[i]) ==> f(s[i]) == f(t[i]))
    ensures Map(f, Filter(keep, s)) == Map(f, Filter(keep, t))
  {
    if s != [] {
      MapFilterAgree(keep, f, s[1..], t[1..]);
      var a, b := Filter(keep, s[1..]), Filter(keep, t[1..]);
      assert Map(f, [s[0]] + a) == [f(s[0])] + Map(f, a);
      assert Map(f, [t[0]] + b) == [f(t[0])] + Map(f, b);
    }
  }
}
