/** Accepting the step graph of a version 1 adventure package.

    `Accepted` says what an accepted graph is; the method makes the loader's checks with its loops, among them the
    search that grows a set until nothing changes.  `encounters` are the preset ids of the package's catalogs, `hasRef`
    its entity references. */
module PackageGraph {
  import opened Values
  import opened Reachability

  const K_STEPS := KOther("steps")
  const K_CHOICES := KOther("choices")
  const K_STEP_IDS := KOther("step_ids")
  const K_CHOICE_IDS := KOther("choice_ids")
  const K_STEP_ID := KOther("step_id")
  const K_NEXT_STEP_ID := KOther("next_step_id")
  const K_START_STEP_ID := KOther("start_step_id")
  const K_ENCOUNTER_PRESET_ID := KOther("encounter_preset_id")

  /** One entry of a table that is keyed by identifiers and listed in order. */
  datatype Row = Row(id: Id, fields: Fields)

  function ReadRow(v: Json, show: Show): Option<Row> {
    if !v.Obj? then None
    else
      var id :- ReadId(Get(v.fields, KId, Null), show);
      Some(Row(id, v.fields))
  }

  function RowIds(rows: seq<Row>): seq<Id> { Map((r: Row) => r.id, rows) }

  /** The list reads as a table: every item is a record with an identifier of its own. */
  function ReadRows(v: Json, show: Show): Option<seq<Row>> {
    if !v.Arr? then None
    else
      var rows :- ReadAll(item => ReadRow(item, show), v.items);
      if Distinct(RowIds(rows)) then Some(rows) else None
  }

  function ListedSteps(chapter: Fields, show: Show): Option<seq<Id>> {
    var v := Get(chapter, K_STEP_IDS, Null);
    if v.Arr? then ReadAll(item => ReadId(item, show), v.items) else None
  }

  /** `str(v)` */
  function Rendered(v: Json, show: Show): string { if v.Str? then v.s else show(v) }

  function ListedChoices(step: Fields, show: Show): Option<seq<string>> {
    var v := Get(step, K_CHOICE_IDS, Null);
    if !Truthy(v) then Some([]) else if v.Arr? then Some(Map(item => Rendered(item, show), v.items)) else None
  }

  function TextAt(f: Fields, key: Key, show: Show): string { Text(Get(f, key, Null), show) }

  function SourceOf(choice: Fields, show: Show): string { TextAt(choice, K_STEP_ID, show) }

  function NextOf(choice: Fields, show: Show): string { TextAt(choice, K_NEXT_STEP_ID, show) }

  // ---- what acceptance means ----

  ghost predicate OwnStep(chapter: Id, id: Id, steps: seq<Row>, show: Show) {
    exists s :: s in steps && s.id == id && TextAt(s.fields, KChapterId, show) == chapter
  }

  /** The chapter lists steps of its own, none twice. */
  ghost predicate ChapterOk(c: Row, steps: seq<Row>, show: Show) {
    && ListedSteps(c.fields, show).Some?
    && Distinct(ListedSteps(c.fields, show).value)
    && forall id :: id in ListedSteps(c.fields, show).value ==> OwnStep(c.id, id, steps, show)
  }

  ghost predicate Lists(c: Row, id: Id, show: Show) {
    ListedSteps(c.fields, show).Some? && id in ListedSteps(c.fields, show).value
  }

  /** Every chapter is in order, and every step is listed by the chapter it names. */
  ghost predicate ChaptersOk(chapters: seq<Row>, steps: seq<Row>, show: Show) {
    && (forall c :: c in chapters ==> ChapterOk(c, steps, show))
    && (forall s :: s in steps ==>
          exists c :: c in chapters && c.id == TextAt(s.fields, KChapterId, show) && Lists(c, s.id, show))
  }

  ghost predicate OwnChoice(step: Id, id: string, choices: seq<Row>) {
    exists c :: c in choices && c.id == id && Get(c.fields, K_STEP_ID, Null) == Str(step)
  }

  /** Every step lists its own choices, none twice. */
  ghost predicate StepOk(
    s: Row, choices: seq<Row>, encounters: set<string>, hasRef: string -> bool, show: Show)
  {
    var scene, encounter := TextAt(s.fields, KSceneRef, show), TextAt(s.fields, K_ENCOUNTER_PRESET_ID, show);
    && (scene == "" || hasRef(scene))
    && (encounter == "" || encounter in encounters)
    && ListedChoices(s.fields, show).Some?
    && Distinct(ListedChoices(s.fields, show).value)
    && forall id :: id in ListedChoices(s.fields, show).value ==> OwnChoice(s.id, id, choices)
  }

  ghost predicate Offers(s: Row, id: string, show: Show) {
    ListedChoices(s.fields, show).Some? && id in ListedChoices(s.fields, show).value
  }

  /** Every choice is listed by its source step and leads to a step or nowhere. */
  ghost predicate ChoiceOk(c: Row, steps: seq<Row>, show: Show) {
    && (exists s :: s in steps && s.id == SourceOf(c.fields, show) && Offers(s, c.id, show))
    && (NextOf(c.fields, show) == "" || NextOf(c.fields, show) in RowIds(steps))
  }

  function ChoiceEdges(choices: seq<Row>, show: Show): Edges<string> {
    set c | c in choices && NextOf(c.fields, show) != "" :: (SourceOf(c.fields, show), NextOf(c.fields, show))
  }

  function StartOf(adventure: Fields, show: Show): string { TextAt(adventure, K_START_STEP_ID, show) }

  ghost predicate Accepted(adventure: Fields, encounters: set<string>, hasRef: string -> bool, show: Show) {
    var chapters := ReadRows(Get(adventure, KChapters, Null), show);
    var steps := ReadRows(Get(adventure, K_STEPS, Null), show);
    var choices := ReadRows(Get(adventure, K_CHOICES, Null), show);
    && chapters.Some? && steps.Some? && choices.Some? && chapters.value != [] && steps.value != []
    && StartOf(adventure, show) in RowIds(steps.value)
    && ChaptersOk(chapters.value, steps.value, show)
    && (forall s :: s in steps.value ==> StepOk(s, choices.value, encounters, hasRef, show))
    && (forall c :: c in choices.value ==> ChoiceOk(c, steps.value, show))
    && forall s :: s in steps.value ==> s.id in Reach({StartOf(adventure, show)}, ChoiceEdges(choices.value, show))
  }

  // ---- the checks ----

  /** A dictionary of the rows, as the loader looks them up. */
  ghost predicate Indexes(m: map<Id, Fields>, rows: seq<Row>) {
    && (forall r :: r in rows ==> r.id in m && m[r.id] == r.fields)
    && (forall id :: id in m ==> Row(id, m[id]) in rows)
  }

  lemma IndexGrows(m: map<Id, Fields>, rows: seq<Row>, r: Row)
    requires Indexes(m, rows) && r.id !in m
    ensures Indexes(m[r.id := r.fields], rows + [r])
  {}

  lemma IndexKeys(m: map<Id, Fields>, rows: seq<Row>)
    requires Indexes(m, rows)
    ensures forall id :: id in m <==> id in RowIds(rows)
  {
    forall id | id in m ensures id in RowIds(rows) {
      var k :| 0 <= k < |rows| && rows[k] == Row(id, m[id]);
      assert RowIds(rows)[k] == id;
    }
    forall id | id in RowIds(rows) ensures id in m {
      var k :| 0 <= k < |rows| && RowIds(rows)[k] == id;
      assert rows[k] in rows;
    }
  }

  lemma RepeatedRow(v: Json, rows: seq<Row>, row: Row, i: nat, show: Show)
    requires v.Arr? && i < |v.items| && |rows| == i && ReadRow(v.items[i], show) == Some(row)
    requires forall k :: 0 <= k < i ==> ReadRow(v.items[k], show) == Some(rows[k])
    requires row.id in RowIds(rows)
    ensures ReadRows(v, show).None?
  {
    hide ReadRow;
    var read := ReadAll(item => ReadRow(item, show), v.items);
    if read.Some? {
      var k :| 0 <= k < i && RowIds(rows)[k] == row.id;
      assert read.value[k] == rows[k] && read.value[i] == row;
      assert RowIds(read.value)[k] == RowIds(read.value)[i];
    }
  }

  /** Reads a list of records into a table, stopping at the first bad or repeated one. */
  method ReadTable(v: Json, show: Show) returns (r: Option<(seq<Row>, map<Id, Fields>)>)
    ensures r.Some? <==> ReadRows(v, show).Some?
    ensures r.Some? ==> r.value.0 == ReadRows(v, show).value && Indexes(r.value.1, r.value.0)
  {
    hide ReadRow;
    if !v.Arr? { return None; }
    var rows, index := [], map[];
    for i := 0 to |v.items|
      invariant |rows| == i && Indexes(index, rows)
      invariant forall k :: 0 <= k < i ==> ReadRow(v.items[k], show) == Some(rows[k])
      invariant Distinct(RowIds(rows))
    {
      var row := ReadRow(v.items[i], show);
      if row.None? { return None; }
      IndexKeys(index, rows);
      if row.value.id in index {
        RepeatedRow(v, rows, row.value, i, show);
        return None;
      }
      IndexGrows(index, rows, row.value);
      index := index[row.value.id := row.value.fields];
      rows := rows + [row.value];
    }
    assert ReadRows(v, show).Some? && ReadRows(v, show).value == rows;
    return Some((rows, index));
  }

  lemma DistinctSnoc<T>(s: seq<T>, x: T)
    ensures Distinct(s + [x]) <==> Distinct(s) && x !in s
  {
    var all := s + [x];
    if Distinct(all) {
      forall i, j | 0 <= i < j < |s| ensures s[i] != s[j] { assert all[i] != all[j]; }
      forall i | 0 <= i < |s| ensures s[i] != x { assert all[i] != all[|s|]; }
    }
  }

  lemma OwnStepIndexed(chapter: Id, id: Id, steps: seq<Row>, index: map<Id, Fields>, show: Show)
    requires Indexes(index, steps)
    ensures OwnStep(chapter, id, steps, show) <==> id in index && TextAt(index[id], KChapterId, show) == chapter
  {
    hide TextAt;
    if id in index && TextAt(index[id], KChapterId, show) == chapter { assert Row(id, index[id]) in steps; }
  }

  lemma NothingRepeats<T>()
    ensures Distinct<T>([])
  {}

  lemma RepeatedStep(all: seq<Id>, ids: seq<Id>, id: Id, seen: set<Id>)
    requires |ids| < |all| && all[|ids|] == id && forall k :: 0 <= k < |ids| ==> all[k] == ids[k]
    requires id in seen + Elems(ids)
    ensures !(Distinct(all) && forall x :: x in all ==> x !in seen)
  {
    if id in ids {
      var k :| 0 <= k < |ids| && ids[k] == id;
      assert all[k] == all[|ids|];
    }
  }

  /** One chapter's list, against the steps seen in earlier lists. */
  method CheckChapter(c: Row, steps: seq<Row>, index: map<Id, Fields>, seen: set<Id>, show: Show)
    returns (ok: bool, now: set<Id>)
    requires Indexes(index, steps)
    ensures ok <==> ChapterOk(c, steps, show) && forall id :: id in ListedSteps(c.fields, show).value ==> id !in seen
    ensures ok ==> now == seen + Elems(ListedSteps(c.fields, show).value)
  {
    hide OwnStep, TextAt, ReadId, Distinct;
    ok, now := false, seen;
    var listed := Get(c.fields, K_STEP_IDS, Null);
    if !listed.Arr? { return; }
    ghost var read := ListedSteps(c.fields, show);
    ghost var ids: seq<Id> := [];
    NothingRepeats<Id>();
    for i := 0 to |listed.items|
      invariant |ids| == i && Distinct(ids) && now == seen + Elems(ids)
      invariant forall k :: 0 <= k < i ==> ReadId(listed.items[k], show) == Some(ids[k])
      invariant forall k :: 0 <= k < i ==> OwnStep(c.id, ids[k], steps, show) && ids[k] !in seen
    {
      var id := ReadId(listed.items[i], show);
      if id.None? { return; }
      if id.value in now {
        if read.Some? { RepeatedStep(read.value, ids, id.value, seen); }
        return;
      }
      OwnStepIndexed(c.id, id.value, steps, index, show);
      if id.value !in index || TextAt(index[id.value], KChapterId, show) != c.id { return; }
      DistinctSnoc(ids, id.value);
      assert Elems(ids + [id.value]) == Elems(ids) + {id.value};
      now, ids := now + {id.value}, ids + [id.value];
    }
    assert read.Some? && read.value == ids;
    ok := true;
  }

  lemma OneOwner(chapters: seq<Row>, j: nat, k: nat, id: Id, steps: seq<Row>, index: map<Id, Fields>, show: Show)
    requires j < k < |chapters| && Distinct(RowIds(chapters)) && Indexes(index, steps)
    requires ChapterOk(chapters[j], steps, show) && ChapterOk(chapters[k], steps, show)
    ensures !(Lists(chapters[j], id, show) && Lists(chapters[k], id, show))
  {
    hide OwnStep, TextAt, ReadId, ListedSteps;
    OwnStepIndexed(chapters[j].id, id, steps, index, show);
    OwnStepIndexed(chapters[k].id, id, steps, index, show);
    assert RowIds(chapters)[j] != RowIds(chapters)[k];
  }

  lemma AllListed(chapters: seq<Row>, steps: seq<Row>, index: map<Id, Fields>, seen: set<Id>, show: Show)
    requires Indexes(index, steps)
    requires forall k :: 0 <= k < |chapters| ==> ChapterOk(chapters[k], steps, show)
    requires forall id :: id in seen <==> exists k :: 0 <= k < |chapters| && Lists(chapters[k], id, show)
    ensures seen == index.Keys <==> ChaptersOk(chapters, steps, show)
  {
    hide OwnStep, TextAt, ReadId, ListedSteps;
    forall id | id in seen
      ensures id in index
      ensures exists c :: c in chapters && c.id == TextAt(index[id], KChapterId, show) && Lists(c, id, show)
    {
      var k :| 0 <= k < |chapters| && Lists(chapters[k], id, show);
      assert ChapterOk(chapters[k], steps, show);
      OwnStepIndexed(chapters[k].id, id, steps, index, show);
    }
    if seen == index.Keys {
      forall s | s in steps
        ensures exists c :: c in chapters && c.id == TextAt(s.fields, KChapterId, show) && Lists(c, s.id, show)
      {
        assert s.id in seen;
      }
    }
    if ChaptersOk(chapters, steps, show) {
      forall id | id in index ensures id in seen {
        assert Row(id, index[id]) in steps;
        var c :| c in chapters && Lists(c, id, show);
        var k :| 0 <= k < |chapters| && chapters[k] == c;
      }
    }
  }

  /** Chapter membership in both directions. */
  method CheckChapters(chapters: seq<Row>, steps: seq<Row>, index: map<Id, Fields>, show: Show) returns (ok: bool)
    requires Indexes(index, steps) && Distinct(RowIds(chapters))
    ensures ok <==> ChaptersOk(chapters, steps, show)
  {
    hide OwnStep, TextAt, ReadId, ListedSteps;
    var seen := {};
    for i := 0 to |chapters|
      invariant forall k :: 0 <= k < i ==> ChapterOk(chapters[k], steps, show)
      invariant forall id :: id in seen <==> exists k :: 0 <= k < i && Lists(chapters[k], id, show)
    {
      var good, now := CheckChapter(chapters[i], steps, index, seen, show);
      if !good {
        if ChapterOk(chapters[i], steps, show) {
          var id :| id in ListedSteps(chapters[i].fields, show).value && id in seen;
          var k :| 0 <= k < i && Lists(chapters[k], id, show);
          OneOwner(chapters, k, i, id, steps, index, show);
        }
        return false;
      }
      forall id ensures id in now <==> exists k :: 0 <= k < i + 1 && Lists(chapters[k], id, show) {
        if id in now && id !in seen { assert Lists(chapters[i], id, show); }
      }
      seen := now;
    }
    ok := seen == index.Keys;
    AllListed(chapters, steps, index, seen, show);
  }

  lemma OwnChoiceIndexed(step: Id, id: string, choices: seq<Row>, index: map<Id, Fields>)
    requires Indexes(index, choices)
    ensures OwnChoice(step, id, choices) <==> id in index && Get(index[id], K_STEP_ID, Null) == Str(step)
  {
    if id in index && Get(index[id], K_STEP_ID, Null) == Str(step) { assert Row(id, index[id]) in choices; }
  }

  method CheckStep(
    s: Row, choices: seq<Row>, index: map<Id, Fields>, encounters: set<string>, hasRef: string -> bool, show: Show)
    returns (ok: bool)
    requires Indexes(index, choices)
    ensures ok <==> StepOk(s, choices, encounters, hasRef, show)
  {
    hide TextAt, Rendered, OwnChoice;
    var scene := TextAt(s.fields, KSceneRef, show);
    if scene != "" && !hasRef(scene) { return false; }
    var encounter := TextAt(s.fields, K_ENCOUNTER_PRESET_ID, show);
    if encounter != "" && encounter !in encounters { return false; }
    var listed := ListedChoices(s.fields, show);
    if listed.None? { return false; }
    var ids := set id | id in listed.value;
    assert ids == Elems(listed.value);
    DistinctSize(listed.value);
    if |ids| != |listed.value| { return false; }
    for i := 0 to |listed.value|
      invariant forall k :: 0 <= k < i ==> OwnChoice(s.id, listed.value[k], choices)
    {
      var id := listed.value[i];
      OwnChoiceIndexed(s.id, id, choices, index);
      if id !in index || Get(index[id], K_STEP_ID, Null) != Str(s.id) { return false; }
    }
    return true;
  }

  lemma OffersAt(s: Row, id: string, show: Show)
    ensures Offers(s, id, show) <==> ListedChoices(s.fields, show).Some? && id in ListedChoices(s.fields, show).value
  {}

  method CheckChoice(c: Row, steps: seq<Row>, index: map<Id, Fields>, show: Show) returns (ok: bool)
    requires Indexes(index, steps)
    ensures ok <==> ChoiceOk(c, steps, show)
  {
    hide TextAt, Offers;
    IndexKeys(index, steps);
    var source := SourceOf(c.fields, show);
    if source !in index { return false; }
    assert Row(source, index[source]) in steps;
    var listed := ListedChoices(index[source], show);
    assert Offers(Row(source, index[source]), c.id, show) <==> listed.Some? && c.id in listed.value by {
      OffersAt(Row(source, index[source]), c.id, show);
    }
    if listed.None? || c.id !in listed.value { return false; }
    var next := NextOf(c.fields, show);
    return next == "" || next in index;
  }

  lemma EdgeOf(choices: seq<Row>, i: nat, show: Show)
    requires i < |choices| && NextOf(choices[i].fields, show) != ""
    ensures (SourceOf(choices[i].fields, show), NextOf(choices[i].fields, show)) in ChoiceEdges(choices, show)
  {
    hide TextAt;
    assert choices[i] in choices;
  }

  /** The choice leads nowhere new from a set that holds its source. */
  predicate Followed(c: Row, found: set<string>, show: Show) {
    SourceOf(c.fields, show) in found && NextOf(c.fields, show) != "" ==> NextOf(c.fields, show) in found
  }

  lemma ClosedWhenFollowed(choices: seq<Row>, found: set<string>, show: Show)
    requires forall k :: 0 <= k < |choices| ==> Followed(choices[k], found, show)
    ensures Closed(ChoiceEdges(choices, show), found)
  {
    hide TextAt;
  }

  lemma SmallerRest(all: set<string>, before: set<string>, found: set<string>)
    requires before <= found <= all && before != found
    ensures |all - found| < |all - before|
  {
    SubsetSize(all - found, all - before);
    var x :| x in found && x !in before;
    assert x in all - before && x !in all - found;
  }

  /** Grows the set of steps found from the start until a whole round over the choices adds nothing. */
  method FindSteps(start: string, choices: seq<Row>, show: Show) returns (found: set<string>)
    ensures found == Reach({start}, ChoiceEdges(choices, show))
  {
    hide TextAt, ChoiceEdges, Reach, Reachable, Closed, Walk;
    ghost var edges := ChoiceEdges(choices, show);
    ReachIsLeast({start}, edges);
    ghost var reach := Reach({start}, edges);
    found := {start};
    var changed := true;
    while changed
      invariant start in found && found <= reach
      invariant !changed ==> forall k :: 0 <= k < |choices| ==> Followed(choices[k], found, show)
      decreases |reach - found| + if changed then 1 else 0
    {
      changed := false;
      ghost var before := found;
      for i := 0 to |choices|
        invariant before <= found <= reach
        invariant changed <==> found != before
        invariant !changed ==> forall k :: 0 <= k < i ==> Followed(choices[k], found, show)
      {
        var c := choices[i].fields;
        if SourceOf(c, show) in found {
          var next := NextOf(c, show);
          if next != "" && next !in found {
            EdgeOf(choices, i, show);
            ReachStep({start}, edges, SourceOf(c, show), next);
            found, changed := found + {next}, true;
          }
        }
      }
      if changed { SmallerRest(reach, before, found); }
    }
    ClosedWhenFollowed(choices, found, show);
  }

  lemma KeysFound(m: map<Id, Fields>, rows: seq<Row>, found: set<string>)
    requires Indexes(m, rows)
    ensures m.Keys <= found <==> forall r :: r in rows ==> r.id in found
  {
    if forall r :: r in rows ==> r.id in found {
      forall id | id in m ensures id in found { assert Row(id, m[id]) in rows; }
    }
  }

  method CheckAll(
    steps: (seq<Row>, map<Id, Fields>), choices: (seq<Row>, map<Id, Fields>),
    encounters: set<string>, hasRef: string -> bool, show: Show)
    returns (ok: bool)
    requires Indexes(steps.1, steps.0) && Indexes(choices.1, choices.0)
    ensures ok <==> (forall s :: s in steps.0 ==> StepOk(s, choices.0, encounters, hasRef, show))
                    && forall c :: c in choices.0 ==> ChoiceOk(c, steps.0, show)
  {
    hide StepOk, ChoiceOk, Indexes;
    for i := 0 to |steps.0|
      invariant forall k :: 0 <= k < i ==> StepOk(steps.0[k], choices.0, encounters, hasRef, show)
    {
      var good := CheckStep(steps.0[i], choices.0, choices.1, encounters, hasRef, show);
      if !good {
        assert steps.0[i] in steps.0;
        return false;
      }
    }
    for i := 0 to |choices.0|
      invariant forall k :: 0 <= k < i ==> ChoiceOk(choices.0[k], steps.0, show)
    {
      var good := CheckChoice(choices.0[i], steps.0, steps.1, show);
      if !good {
        assert choices.0[i] in choices.0;
        return false;
      }
    }
    return true;
  }

  lemma RowsDistinct(v: Json, show: Show)
    ensures ReadRows(v, show).Some? ==> Distinct(RowIds(ReadRows(v, show).value))
  {}

  /** All the checks on the step graph, in the loader's order. */
  method ValidateSteps(adventure: Fields, encounters: set<string>, hasRef: string -> bool, show: Show)
    returns (ok: bool)
    ensures ok <==> Accepted(adventure, encounters, hasRef, show)
  {
    hide TextAt, ChaptersOk, StepOk, ChoiceOk, ReadRows, ChoiceEdges, Reach, Reachable, Indexes;
    var rawChapters, rawSteps := Get(adventure, KChapters, Null), Get(adventure, K_STEPS, Null);
    var chapters := ReadTable(rawChapters, show);
    if chapters.None? || chapters.value.0 == [] { return false; }
    var steps := ReadTable(rawSteps, show);
    if steps.None? || steps.value.0 == [] { return false; }
    var choices := ReadTable(Get(adventure, K_CHOICES, Null), show);
    if choices.None? { return false; }
    var start := StartOf(adventure, show);
    IndexKeys(steps.value.1, steps.value.0);
    if start !in steps.value.1 { return false; }
    RowsDistinct(rawChapters, show);
    var good := CheckChapters(chapters.value.0, steps.value.0, steps.value.1, show);
    if !good { return false; }
    good := CheckAll(steps.value, choices.value, encounters, hasRef, show);
    if !good { return false; }
    var found := FindSteps(start, choices.value.0, show);
    ok := steps.value.1.Keys <= found;
    KeysFound(steps.value.1, steps.value.0, found);
  }

  // ---- what an accepted package is ----

  /** Exactly one chapter lists the step. */
  ghost predicate InOneChapter(id: Id, chapters: seq<Row>, show: Show) {
    exists j | 0 <= j < |chapters| ::
      && Lists(chapters[j], id, show)
      && forall k | 0 <= k < |chapters| && Lists(chapters[k], id, show) :: k == j
  }

  /** Exactly one step offers the choice, and it is the choice's source. */
  ghost predicate FromOneStep(c: Row, steps: seq<Row>, show: Show) {
    exists j | 0 <= j < |steps| ::
      && Offers(steps[j], c.id, show) && steps[j].id == SourceOf(c.fields, show)
      && forall k | 0 <= k < |steps| && Offers(steps[k], c.id, show) :: k == j
  }

  lemma SameRow(rows: seq<Row>, a: Row, b: Row)
    requires Distinct(RowIds(rows)) && a in rows && b in rows && a.id == b.id
    ensures a == b
  {
    var i :| 0 <= i < |rows| && rows[i] == a;
    var j :| 0 <= j < |rows| && rows[j] == b;
    assert RowIds(rows)[i] == RowIds(rows)[j];
  }

  lemma OneChapterPerStep(chapters: seq<Row>, steps: seq<Row>, i: nat, show: Show)
    requires ChaptersOk(chapters, steps, show) && Distinct(RowIds(chapters)) && Distinct(RowIds(steps))
    requires i < |steps|
    ensures InOneChapter(steps[i].id, chapters, show)
  {
    hide TextAt, ListedSteps;
    var s := steps[i];
    var c :| c in chapters && c.id == TextAt(s.fields, KChapterId, show) && Lists(c, s.id, show);
    var j :| 0 <= j < |chapters| && chapters[j] == c;
    forall k | 0 <= k < |chapters| && Lists(chapters[k], s.id, show) ensures k == j {
      assert chapters[k] in chapters && ChapterOk(chapters[k], steps, show);
      assert OwnStep(chapters[k].id, s.id, steps, show);
      var s2 :| s2 in steps && s2.id == s.id && TextAt(s2.fields, KChapterId, show) == chapters[k].id;
      SameRow(steps, s, s2);
      assert RowIds(chapters)[k] == RowIds(chapters)[j];
    }
  }

  lemma OfferedByOwner(
    steps: seq<Row>, choices: seq<Row>, encounters: set<string>, hasRef: string -> bool, k: nat, c: Row, show: Show)
    requires Distinct(RowIds(choices)) && c in choices && k < |steps|
    requires StepOk(steps[k], choices, encounters, hasRef, show) && Offers(steps[k], c.id, show)
    ensures Get(c.fields, K_STEP_ID, Null) == Str(steps[k].id)
  {
    hide TextAt, ListedChoices;
    assert OwnChoice(steps[k].id, c.id, choices);
    var c2 :| c2 in choices && c2.id == c.id && Get(c2.fields, K_STEP_ID, Null) == Str(steps[k].id);
    SameRow(choices, c, c2);
  }

  lemma OneStepPerChoice(
    steps: seq<Row>, choices: seq<Row>, encounters: set<string>, hasRef: string -> bool, i: nat, show: Show)
    requires Distinct(RowIds(steps)) && Distinct(RowIds(choices)) && i < |choices|
    requires forall s :: s in steps ==> StepOk(s, choices, encounters, hasRef, show)
    requires forall c :: c in choices ==> ChoiceOk(c, steps, show)
    ensures FromOneStep(choices[i], steps, show)
  {
    hide TextAt, ListedChoices;
    var c := choices[i];
    assert ChoiceOk(c, steps, show);
    var s :| s in steps && s.id == SourceOf(c.fields, show) && Offers(s, c.id, show);
    var j :| 0 <= j < |steps| && steps[j] == s;
    forall k | 0 <= k < |steps| && Offers(steps[k], c.id, show) ensures k == j {
      OfferedByOwner(steps, choices, encounters, hasRef, j, c, show);
      OfferedByOwner(steps, choices, encounters, hasRef, k, c, show);
      assert RowIds(steps)[k] == RowIds(steps)[j];
    }
  }

  /** An accepted package: every step is in exactly one chapter, every choice is offered by exactly one step, its
      source, and every step lies on a walk along choices from the start. */
  lemma AcceptedPackages(adventure: Fields, encounters: set<string>, hasRef: string -> bool, show: Show)
    ensures Accepted(adventure, encounters, hasRef, show) ==>
      var chapters := ReadRows(Get(adventure, KChapters, Null), show).value;
      var steps := ReadRows(Get(adventure, K_STEPS, Null), show).value;
      var choices := ReadRows(Get(adventure, K_CHOICES, Null), show).value;
      && (forall s :: s in steps ==> InOneChapter(s.id, chapters, show))
      && (forall c :: c in choices ==> FromOneStep(c, steps, show))
      && (forall s :: s in steps ==> Reachable({StartOf(adventure, show)}, ChoiceEdges(choices, show), s.id))
  {
    hide InOneChapter, FromOneStep, ReadRows, ChoiceEdges, ChaptersOk, StepOk, ChoiceOk, Reach, Reachable, TextAt;
    if !Accepted(adventure, encounters, hasRef, show) { return; }
    RowsDistinct(Get(adventure, KChapters, Null), show);
    RowsDistinct(Get(adventure, K_STEPS, Null), show);
    RowsDistinct(Get(adventure, K_CHOICES, Null), show);
    var chapters := ReadRows(Get(adventure, KChapters, Null), show).value;
    var steps := ReadRows(Get(adventure, K_STEPS, Null), show).value;
    var choices := ReadRows(Get(adventure, K_CHOICES, Null), show).value;
    forall s | s in steps ensures InOneChapter(s.id, chapters, show) {
      var i :| 0 <= i < |steps| && steps[i] == s;
      OneChapterPerStep(chapters, steps, i, show);
    }
    forall c | c in choices ensures FromOneStep(c, steps, show) {
      var i :| 0 <= i < |choices| && choices[i] == c;
      OneStepPerChoice(steps, choices, encounters, hasRef, i, show);
    }
  }
}
