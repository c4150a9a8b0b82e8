/** Copying a run-story plan into an adventure graph: the drafted record, and why the validator accepts it. */
module StoryDraft {
  import opened Values
  import opened Gates
  import opened GraphModel
  import opened GraphValidation
  import opened GraphProjection

  datatype Scene = Scene(
    id: string, title: string, objective: string, description: string, exit: string,
    nextIds: seq<string>, hints: seq<string>)

  datatype Plan = Plan(theme: string, partyGoal: string, start: string, scenes: seq<Scene>)

  const MAX_SCENES := 24
  const MAX_NEXT := 8
  const MAX_TITLE := 160

  function SceneIds(scenes: seq<Scene>): seq<string> { Map((s: Scene) => s.id, scenes) }

  /** What an adopted plan satisfies. */
  predicate ValidPlan(p: Plan) {
    && 1 <= |p.scenes| <= MAX_SCENES
    && Distinct(SceneIds(p.scenes))
    && p.start in SceneIds(p.scenes)
    && forall s :: s in p.scenes ==>
         && |s.nextIds| <= MAX_NEXT && Distinct(s.nextIds)
         && (forall x :: x in s.nextIds ==> x in SceneIds(p.scenes))
         && s.title != "" && Strip(s.title) == s.title && |s.title| <= MAX_TITLE
  }

  // ---- identifiers ----

  function SceneId(i: nat): Id { "scene_" + Decimal(i + 1) }

  function ChoiceIdOf(node: Id): Id { "choose_" + node }

  function ObjectiveIdOf(node: Id): Id { "objective_" + node }

  lemma SceneIdInjective(i: nat, j: nat)
    ensures SceneId(i) == SceneId(j) ==> i == j
    ensures ChoiceIdOf(SceneId(i)) == ChoiceIdOf(SceneId(j)) ==> i == j
    ensures ObjectiveIdOf(SceneId(i)) == ObjectiveIdOf(SceneId(j)) ==> i == j
  {
    DecimalInjective(i + 1, j + 1);
    assert SceneId(i)[6..] == Decimal(i + 1) && SceneId(j)[6..] == Decimal(j + 1);
    assert ChoiceIdOf(SceneId(i))[7..] == SceneId(i) && ChoiceIdOf(SceneId(j))[7..] == SceneId(j);
    assert ObjectiveIdOf(SceneId(i))[10..] == SceneId(i) && ObjectiveIdOf(SceneId(j))[10..] == SceneId(j);
  }

  lemma SceneIdOk(i: nat)
    ensures IsId(SceneId(i)) && IsId(ChoiceIdOf(SceneId(i))) && IsId(ObjectiveIdOf(SceneId(i)))
    ensures i < MAX_SCENES ==> |ChoiceIdOf(SceneId(i))| <= MAX_CHOICE_ID
  {
  }

  /** The position of a scene: the last one with the id, as a dictionary built in order would have it. */
  function IndexOf(scenes: seq<Scene>, id: string): (i: nat)
    requires id in SceneIds(scenes)
    ensures i < |scenes| && scenes[i].id == id
  {
    var last := |scenes| - 1;
    if scenes[last].id == id then last
    else
      assert SceneIds(scenes) == SceneIds(scenes[..last]) + [scenes[last].id];
      IndexOf(scenes[..last], id)
  }

  lemma IndexUnique(scenes: seq<Scene>, i: nat)
    requires Distinct(SceneIds(scenes)) && i < |scenes|
    ensures scenes[i].id in SceneIds(scenes) && IndexOf(scenes, scenes[i].id) == i
  {
    hide IndexOf;
    assert SceneIds(scenes)[i] == scenes[i].id;
    var j := IndexOf(scenes, scenes[i].id);
    assert SceneIds(scenes)[j] == scenes[j].id;
  }

  // ---- the drafted record ----

  function Join(parts: seq<string>): string {
    if parts == [] then ""
    else if |parts| == 1 then parts[0]
    else parts[0] + "\n\n" + Join(parts[1..])
  }

  /** The description: prose, the exit condition for the game master, then the hints; empty parts are dropped. */
  function Describe(s: Scene, exitLabel: string, hintLabel: string): string {
    Join(Filter((n: string) => n != "",
                [s.description, exitLabel + s.exit] + Map((h: string) => hintLabel + h, s.hints)))
  }

  function DraftTransition(p: Plan, s: Scene, target: string): Json
    requires target in SceneIds(p.scenes)
  {
    var i := IndexOf(p.scenes, target);
    Obj(if |s.nextIds| > 1
        then map[KTo := Str(SceneId(i)), KChoiceId := Str(ChoiceIdOf(SceneId(i))),
                 KChoiceLabel := Str(p.scenes[i].title)]
        else map[KTo := Str(SceneId(i))])
  }

  function DraftNode(p: Plan, i: nat, exitLabel: string, hintLabel: string): Json
    requires ValidPlan(p) && i < |p.scenes|
  {
    var s := p.scenes[i];
    var base: Fields := map[
      KId := Str(SceneId(i)), KType := Str("scene"), KVisibility := Str("gm"), KName := Str(s.title),
      KDescription := Str(Describe(s, exitLabel, hintLabel)),
      KTransitions := Arr(seq(|s.nextIds|, j requires 0 <= j < |s.nextIds| => DraftTransition(p, s, s.nextIds[j]))),
      KOnComplete := Arr([])];
    Obj(if |s.nextIds| > 1 then base[KChoiceMode := Str("exclusive")] else base)
  }

  function DraftObjective(p: Plan, i: nat): Json
    requires i < |p.scenes|
  {
    Obj(map[KId := Str(ObjectiveIdOf(SceneId(i))), KName := Str(p.scenes[i].objective),
            KNodeIds := Arr([Str(SceneId(i))]), KVisibility := Str("gm")])
  }

  function DraftRecord(p: Plan, directory: Id, nodes: seq<Json>, objectives: seq<Json>): Fields
    requires p.start in SceneIds(p.scenes)
  {
    map[KSchemaVersion := Int(2), KKind := Str("adventure"), KId := Str(directory),
        KSourceRef := Str("diceframe-user:user:" + directory), KAutomationLevel := Str("guided"),
        KFormat := Str("diceframe:adventure-graph-v2"), KName := Str(p.theme), KSummary := Str(p.partyGoal),
        KChapters := Arr([]), KNodes := Arr(nodes), KObjectives := Arr(objectives), KMilestones := Arr([]),
        KStartNodeIds := Arr([Str(SceneId(IndexOf(p.scenes, p.start)))])]
  }

  // ---- the graph the record stands for ----

  function PlanTransition(p: Plan, s: Scene, target: string): Transition
    requires target in SceneIds(p.scenes)
  {
    var i := IndexOf(p.scenes, target);
    Transition(SceneId(i), [],
               if |s.nextIds| > 1 then Some(Choice(ChoiceIdOf(SceneId(i)), p.scenes[i].title)) else None)
  }

  function PlanTransitions(p: Plan, s: Scene): (ts: seq<Transition>)
    requires forall x :: x in s.nextIds ==> x in SceneIds(p.scenes)
    ensures |ts| == |s.nextIds|
    ensures forall j :: 0 <= j < |ts| ==> ts[j] == PlanTransition(p, s, s.nextIds[j])
  {
    seq(|s.nextIds|, j requires 0 <= j < |s.nextIds| => PlanTransition(p, s, s.nextIds[j]))
  }

  function PlanNode(p: Plan, i: nat, exitLabel: string, hintLabel: string): Node
    requires ValidPlan(p) && i < |p.scenes|
  {
    var s := p.scenes[i];
    Node(SceneId(i), "scene", None, Gm, false, s.title, Describe(s, exitLabel, hintLabel), PlanTransitions(p, s),
         |s.nextIds| > 1, [], None, None, [])
  }

  function PlanGoal(p: Plan, i: nat): Goal
    requires i < |p.scenes|
  {
    Goal(ObjectiveIdOf(SceneId(i)), p.scenes[i].objective, Gm, [SceneId(i)])
  }

  /** The adventure graph that means the plan: one game master scene per plan scene, an ungated transition per
      declared successor, exclusive choices where there are several. */
  function PlanGraph(p: Plan, directory: Id, exitLabel: string, hintLabel: string): (g: Graph)
    requires ValidPlan(p)
    ensures |g.nodes| == |p.scenes|
    ensures forall i :: 0 <= i < |p.scenes| ==> g.nodes[i] == PlanNode(p, i, exitLabel, hintLabel)
    ensures |g.objectives| == |p.scenes| && forall i :: 0 <= i < |p.scenes| ==> g.objectives[i] == PlanGoal(p, i)
    ensures g.starts == [SceneId(IndexOf(p.scenes, p.start))] && g.chapters == [] && g.milestones == []
  {
    Graph(directory, 2, NO_SEED, Public, [],
          seq(|p.scenes|, i requires 0 <= i < |p.scenes| => PlanNode(p, i, exitLabel, hintLabel)),
          seq(|p.scenes|, i requires 0 <= i < |p.scenes| => PlanGoal(p, i)),
          [], [SceneId(IndexOf(p.scenes, p.start))])
  }

  // ---- the compiler ----

  /** `{scene['id']: f'scene_{index + 1}' ...}`: later scenes overwrite earlier ones with the same id. */
  method Identities(scenes: seq<Scene>) returns (ids: map<string, Id>)
    ensures ids.Keys == Elems(SceneIds(scenes))
    ensures forall x :: x in ids ==> ids[x] == SceneId(IndexOf(scenes, x))
  {
    ids := map[];
    for i := 0 to |scenes|
      invariant ids.Keys == Elems(SceneIds(scenes[..i]))
      invariant forall x :: x in ids ==> ids[x] == SceneId(IndexOf(scenes[..i], x))
    {
      hide SceneId;
      var upTo := scenes[..i + 1];
      assert upTo[..i] == scenes[..i] && upTo[i] == scenes[i];
      assert SceneIds(upTo) == SceneIds(scenes[..i]) + [scenes[i].id];
      ids := ids[scenes[i].id := SceneId(i)];
    }
    assert scenes[..|scenes|] == scenes;
  }

  /** The transitions of one scene: first the bare targets, then, where there are several, the choices. */
  method DraftTransitions(p: Plan, s: Scene, ids: map<string, Id>) returns (out: seq<Json>)
    requires forall x :: x in s.nextIds ==> x in SceneIds(p.scenes)
    requires ids.Keys == Elems(SceneIds(p.scenes))
    requires forall x :: x in ids ==> ids[x] == SceneId(IndexOf(p.scenes, x))
    ensures out == seq(|s.nextIds|, j requires 0 <= j < |s.nextIds| => DraftTransition(p, s, s.nextIds[j]))
  {
    hide SceneId;
    var ts: seq<Fields> := [];
    for j := 0 to |s.nextIds|
      invariant |ts| == j
      invariant forall k :: 0 <= k < j ==> s.nextIds[k] in ids && ts[k] == map[KTo := Str(ids[s.nextIds[k]])]
    {
      assert s.nextIds[j] in ids;
      ts := ts + [map[KTo := Str(ids[s.nextIds[j]])]];
    }
    if |ts| > 1 {
      for j := 0 to |ts|
        invariant |ts| == |s.nextIds|
        invariant forall k :: 0 <= k < j ==> Obj(ts[k]) == DraftTransition(p, s, s.nextIds[k])
        invariant forall k :: j <= k < |ts| ==> ts[k] == map[KTo := Str(ids[s.nextIds[k]])]
      {
        var target := s.nextIds[j];
        var title := p.scenes[IndexOf(p.scenes, target)].title;
        ts := ts[j := ts[j][KChoiceId := Str(ChoiceIdOf(ids[target]))][KChoiceLabel := Str(title)]];
      }
    }
    out := Map((t: Fields) => Obj(t), ts);
  }

  method DraftScene(p: Plan, i: nat, ids: map<string, Id>, exitLabel: string, hintLabel: string)
    returns (node: Json, objective: Json)
    requires ValidPlan(p) && i < |p.scenes|
    requires ids.Keys == Elems(SceneIds(p.scenes))
    requires forall x :: x in ids ==> ids[x] == SceneId(IndexOf(p.scenes, x))
    ensures node == DraftNode(p, i, exitLabel, hintLabel) && objective == DraftObjective(p, i)
  {
    hide Distinct, Describe, SceneId, DraftTransition, Strip;
    var s := p.scenes[i];
    assert s in p.scenes;
    IndexUnique(p.scenes, i);
    assert s.id in ids;
    var id := ids[s.id];
    var transitions := DraftTransitions(p, s, ids);
    var fields: Fields := map[
      KId := Str(id), KType := Str("scene"), KVisibility := Str("gm"), KName := Str(s.title),
      KDescription := Str(Describe(s, exitLabel, hintLabel)), KTransitions := Arr(transitions),
      KOnComplete := Arr([])];
    if |transitions| > 1 { fields := fields[KChoiceMode := Str("exclusive")]; }
    node := Obj(fields);
    objective := Obj(map[KId := Str(ObjectiveIdOf(id)), KName := Str(s.objective), KNodeIds := Arr([Str(id)]),
                         KVisibility := Str("gm")]);
  }

  function DraftNodes(p: Plan, exitLabel: string, hintLabel: string): seq<Json>
    requires ValidPlan(p)
  {
    seq(|p.scenes|, i requires 0 <= i < |p.scenes| => DraftNode(p, i, exitLabel, hintLabel))
  }

  function DraftObjectives(p: Plan): seq<Json> {
    seq(|p.scenes|, i requires 0 <= i < |p.scenes| => DraftObjective(p, i))
  }

  function PlanRecord(p: Plan, directory: Id, exitLabel: string, hintLabel: string): (r: Json)
    requires ValidPlan(p)
    ensures r.Obj?
  {
    Obj(DraftRecord(p, directory, DraftNodes(p, exitLabel, hintLabel), DraftObjectives(p)))
  }

  method FromPlan(p: Plan, directory: Id, exitLabel: string, hintLabel: string) returns (record: Json)
    requires ValidPlan(p)
    ensures record == PlanRecord(p, directory, exitLabel, hintLabel)
  {
    hide DraftNode, DraftObjective, SceneId;
    var ids := Identities(p.scenes);
    var nodes, objectives: seq<Json> := [], [];
    for i := 0 to |p.scenes|
      invariant |nodes| == |objectives| == i
      invariant forall k :: 0 <= k < i ==> nodes[k] == DraftNode(p, k, exitLabel, hintLabel)
      invariant forall k :: 0 <= k < i ==> objectives[k] == DraftObjective(p, k)
    {
      var node, objective := DraftScene(p, i, ids, exitLabel, hintLabel);
      nodes, objectives := nodes + [node], objectives + [objective];
    }
    record := Obj(DraftRecord(p, directory, nodes, objectives));
    assert nodes == DraftNodes(p, exitLabel, hintLabel) && objectives == DraftObjectives(p);
  }

  // ---- the draft validates, and means the plan ----

  lemma TransitionFieldsHold(p: Plan, s: Scene, target: string)
    requires target in SceneIds(p.scenes)
    ensures var i := IndexOf(p.scenes, target);
      var raw := DraftTransition(p, s, target);
      && raw.Obj? && Get(raw.fields, KTo, Null) == Str(SceneId(i)) && Get(raw.fields, KConditions, Arr([])) == Arr([])
      && raw.fields.Keys == {KTo} + (if |s.nextIds| > 1 then {KChoiceId, KChoiceLabel} else {})
      && (|s.nextIds| > 1 ==>
            && Get(raw.fields, KChoiceId, Null) == Str(ChoiceIdOf(SceneId(i)))
            && Get(raw.fields, KChoiceLabel, Null) == Str(p.scenes[i].title))
  {
    hide SceneId, ChoiceIdOf, SceneIds;
  }

  lemma TransitionIdsRead(p: Plan, s: Scene, target: string, show: Show)
    requires ValidPlan(p) && s in p.scenes && target in s.nextIds
    ensures target in SceneIds(p.scenes)
    ensures var i := IndexOf(p.scenes, target);
      && ReadId(Str(SceneId(i)), show) == Some(SceneId(i))
      && ReadId(Str(ChoiceIdOf(SceneId(i))), show) == Some(ChoiceIdOf(SceneId(i)))
      && |ChoiceIdOf(SceneId(i))| <= MAX_CHOICE_ID
      && ReadGates(Arr([]), show) == Some([])
      && p.scenes[i].title != "" && Strip(p.scenes[i].title) == p.scenes[i].title
      && |p.scenes[i].title| <= MAX_CHOICE_LABEL
      && PlanTransition(p, s, target)
        == Transition(SceneId(i), [],
                      if |s.nextIds| > 1 then Some(Choice(ChoiceIdOf(SceneId(i)), p.scenes[i].title)) else None)
  {
    hide Distinct, SceneId, ChoiceIdOf, IsId, Strip;
    var i := IndexOf(p.scenes, target);
    SceneIdOk(i);
    assert p.scenes[i] in p.scenes;
    assert EncodeGates([]) == Arr([]);
    GatesRoundTrip([], show);
  }

  lemma PlanTransitionOk(p: Plan, s: Scene, target: string)
    requires ValidPlan(p) && s in p.scenes && target in s.nextIds
    ensures TransitionOk(PlanTransition(p, s, target), |s.nextIds| > 1)
  {
    hide Distinct, SceneId, ChoiceIdOf, IsId, Strip;
    var i := IndexOf(p.scenes, target);
    SceneIdOk(i);
    assert p.scenes[i] in p.scenes;
  }

  lemma TransitionReads(p: Plan, s: Scene, target: string, show: Show)
    requires ValidPlan(p) && s in p.scenes && target in s.nextIds
    ensures ReadTransition(DraftTransition(p, s, target), |s.nextIds| > 1, show) == Some(PlanTransition(p, s, target))
    ensures TransitionOk(PlanTransition(p, s, target), |s.nextIds| > 1)
  {
    hide ValidPlan, SceneId, ChoiceIdOf, IsId, DraftTransition, PlanTransition, ReadGates, ReadId, Strip, TransitionOk;
    TransitionIdsRead(p, s, target, show);
    TransitionFieldsHold(p, s, target);
    PlanTransitionOk(p, s, target);
  }

  lemma TransitionsRead(p: Plan, i: nat, show: Show)
    requires ValidPlan(p) && i < |p.scenes|
    ensures var s := p.scenes[i];
      ReadTransitions(Arr(seq(|s.nextIds|, j requires 0 <= j < |s.nextIds| => DraftTransition(p, s, s.nextIds[j]))),
                      |s.nextIds| > 1, show) == Some(PlanTransitions(p, s))
  {
    hide Distinct, ReadTransition, DraftTransition, PlanTransition;
    var s := p.scenes[i];
    var raw := Arr(seq(|s.nextIds|, j requires 0 <= j < |s.nextIds| => DraftTransition(p, s, s.nextIds[j])));
    forall j | 0 <= j < |s.nextIds|
      ensures ReadTransition(raw.items[j], |s.nextIds| > 1, show) == Some(PlanTransition(p, s, s.nextIds[j]))
    {
      assert s in p.scenes && s.nextIds[j] in s.nextIds;
      TransitionReads(p, s, s.nextIds[j], show);
    }
    var r := ReadTransitions(raw, |s.nextIds| > 1, show);
    assert r.Some? && r.value == PlanTransitions(p, s);
  }

  lemma PlanChoicesDistinct(p: Plan, s: Scene)
    requires ValidPlan(p) && s in p.scenes && |s.nextIds| > 1
    ensures forall t :: t in PlanTransitions(p, s) ==> t.choice.Some?
    ensures DistinctChoices(PlanTransitions(p, s))
  {
    hide SceneId, ChoiceIdOf;
    var ts := PlanTransitions(p, s);
    forall i, j | 0 <= i < j < |ts| ensures ts[i].choice.value.id != ts[j].choice.value.id {
      assert s.nextIds[i] in s.nextIds && s.nextIds[j] in s.nextIds && s.nextIds[i] != s.nextIds[j];
      var a, b := IndexOf(p.scenes, s.nextIds[i]), IndexOf(p.scenes, s.nextIds[j]);
      SceneIdInjective(a, b);
    }
  }

  lemma PlanNodeOk(p: Plan, i: nat, exitLabel: string, hintLabel: string, show: Show)
    requires ValidPlan(p) && i < |p.scenes|
    ensures NodeOk(PlanNode(p, i, exitLabel, hintLabel), 2, [])
  {
    hide Describe, SceneId, IsId, IsRef, TransitionOk, PlanTransition;
    var s := p.scenes[i];
    var n := PlanNode(p, i, exitLabel, hintLabel);
    SceneIdOk(i);
    forall t | t in n.transitions ensures TransitionOk(t, n.exclusive) {
      var j :| 0 <= j < |n.transitions| && n.transitions[j] == t;
      assert s in p.scenes && s.nextIds[j] in s.nextIds;
      TransitionReads(p, s, s.nextIds[j], show);
    }
    assert s in p.scenes;
    if n.exclusive { PlanChoicesDistinct(p, s); }
    assert |"scene"| == 5 && |ENDING| == 6;
  }

  lemma DraftNodeNames(p: Plan, i: nat, exitLabel: string, hintLabel: string)
    requires ValidPlan(p) && i < |p.scenes|
    ensures var s := p.scenes[i];
      var f := DraftNode(p, i, exitLabel, hintLabel).fields;
      && Get(f, KId, Null) == Str(SceneId(i)) && Get(f, KType, Null) == Str("scene")
      && Get(f, KChapterId, Null) == Null && Get(f, KVisibility, Str("public")) == Str("gm")
      && Get(f, KOptional, Bool(false)) == Bool(false) && Get(f, KName, Null) == Str(s.title)
      && Get(f, KDescription, Null) == Str(Describe(s, exitLabel, hintLabel))
  {
    hide Describe, SceneId, DraftTransition, ValidPlan, Strip;
  }

  lemma DraftNodeLinks(p: Plan, i: nat, exitLabel: string, hintLabel: string)
    requires ValidPlan(p) && i < |p.scenes|
    ensures var s := p.scenes[i];
      var f := DraftNode(p, i, exitLabel, hintLabel).fields;
      && Get(f, KChoiceMode, Str("parallel")) == Str(if |s.nextIds| > 1 then "exclusive" else "parallel")
      && Get(f, KTransitions, Arr([]))
         == Arr(seq(|s.nextIds|, j requires 0 <= j < |s.nextIds| => DraftTransition(p, s, s.nextIds[j])))
      && Get(f, KOnComplete, Null) == Arr([]) && Get(f, KSceneRef, Null) == Null
      && Get(f, KEncounterRef, Null) == Null && Get(f, KNpcRefs, Arr([])) == Arr([])
  {
    hide Describe, SceneId, DraftTransition, Distinct, Strip;
  }

  lemma DraftNodeKeys(p: Plan, i: nat, exitLabel: string, hintLabel: string)
    requires ValidPlan(p) && i < |p.scenes|
    ensures DraftNode(p, i, exitLabel, hintLabel).fields.Keys <= NodeFields(2)
  {
    hide Describe, SceneId, DraftTransition, Distinct, Strip;
  }

  lemma ScalarReads(id: Id, name: string, description: string, exclusive: bool, show: Show)
    requires IsId(id)
    ensures ReadId(Str(id), show) == Some(id) && ReadStr(Str("scene")) == Some("scene")
    ensures ReadOptionalId(Null, show) == Some(None) && ReadVisibility(Str("gm")) == Some(Gm)
    ensures Text(Str(name), show) == name && Text(Str(description), show) == description
    ensures ReadMode(Str(if exclusive then "exclusive" else "parallel")) == Some(exclusive)
    ensures ReadOutcomes(Arr([]), show) == Some([]) && ReadStrs(Arr([])) == Some([])
    ensures ReadOptionalRef(Null, show) == None
  {
    assert |"public"| == 6 && |"gm"| == 2 && |"parallel"| == 8 && |"exclusive"| == 9;
  }

  lemma NodeReads(p: Plan, i: nat, exitLabel: string, hintLabel: string, show: Show)
    requires ValidPlan(p) && i < |p.scenes|
    ensures ReadNode(DraftNode(p, i, exitLabel, hintLabel), 2, [], show) == Some(PlanNode(p, i, exitLabel, hintLabel))
  {
    hide ValidPlan, Describe, SceneId, IsId, NodeOk, ReadTransitions, PlanTransitions, NodeFromFields, ReadId, Get,
         NodeFields, ReadMode, ReadVisibility, Text, ReadOptionalId, ReadOutcomes, ReadStrs, ReadOptionalRef;
    SceneIdOk(i);
    TransitionsRead(p, i, show);
    PlanNodeOk(p, i, exitLabel, hintLabel, show);
    DraftNodeNames(p, i, exitLabel, hintLabel);
    DraftNodeLinks(p, i, exitLabel, hintLabel);
    DraftNodeKeys(p, i, exitLabel, hintLabel);
    var s := p.scenes[i];
    ScalarReads(SceneId(i), s.title, Describe(s, exitLabel, hintLabel), |s.nextIds| > 1, show);
    NodeFieldsRead(DraftNode(p, i, exitLabel, hintLabel).fields, PlanNode(p, i, exitLabel, hintLabel), show);
  }

  lemma NodesRead(p: Plan, exitLabel: string, hintLabel: string, directory: Id, show: Show)
    requires ValidPlan(p)
    ensures ReadNodes(Arr(DraftNodes(p, exitLabel, hintLabel)), 2, [], show)
            == Some(PlanGraph(p, directory, exitLabel, hintLabel).nodes)
  {
    hide DraftNode, PlanNode, ReadNode;
    var g := PlanGraph(p, directory, exitLabel, hintLabel);
    forall i | 0 <= i < |p.scenes|
      ensures ReadNode(DraftNodes(p, exitLabel, hintLabel)[i], 2, [], show) == Some(g.nodes[i])
    {
      NodeReads(p, i, exitLabel, hintLabel, show);
    }
    var r := ReadNodes(Arr(DraftNodes(p, exitLabel, hintLabel)), 2, [], show);
    assert r.Some? && r.value == g.nodes;
  }

  lemma PlanIds(p: Plan, directory: Id, exitLabel: string, hintLabel: string)
    requires ValidPlan(p)
    ensures var g := PlanGraph(p, directory, exitLabel, hintLabel);
      && |NodeIds(g.nodes)| == |p.scenes| && |GoalIds(g.objectives)| == |p.scenes|
      && (forall i :: 0 <= i < |p.scenes| ==> NodeIds(g.nodes)[i] == SceneId(i) && SceneId(i) in NodeIds(g.nodes))
      && (forall i :: 0 <= i < |p.scenes| ==> GoalIds(g.objectives)[i] == ObjectiveIdOf(SceneId(i)))
      && Distinct(NodeIds(g.nodes)) && Distinct(GoalIds(g.objectives))
  {
    hide ValidPlan, SceneId, ObjectiveIdOf;
    var g := PlanGraph(p, directory, exitLabel, hintLabel);
    forall i, j | 0 <= i < j < |p.scenes|
      ensures NodeIds(g.nodes)[i] != NodeIds(g.nodes)[j] && GoalIds(g.objectives)[i] != GoalIds(g.objectives)[j]
    {
      SceneIdInjective(i, j);
    }
  }

  lemma PlanGoalOk(p: Plan, directory: Id, exitLabel: string, hintLabel: string, i: nat)
    requires ValidPlan(p) && i < |p.scenes|
    ensures GoalOk(PlanGoal(p, i), PlanGraph(p, directory, exitLabel, hintLabel).nodes)
  {
    hide SceneId, ObjectiveIdOf, IsId, Distinct, ValidPlan, PlanNode, PlanGraph, NodeIds;
    var g := PlanGraph(p, directory, exitLabel, hintLabel);
    PlanIds(p, directory, exitLabel, hintLabel);
    SceneIdOk(i);
    NodeIdsMember(g.nodes, SceneId(i));
  }

  lemma PlanGoalsOk(p: Plan, directory: Id, exitLabel: string, hintLabel: string)
    requires ValidPlan(p)
    ensures var g := PlanGraph(p, directory, exitLabel, hintLabel); GoalsOk(g.objectives, g.nodes, MAX_OBJECTIVES)
  {
    hide GoalOk, Distinct, PlanGraph, PlanGoal, GoalIds;
    var g := PlanGraph(p, directory, exitLabel, hintLabel);
    PlanIds(p, directory, exitLabel, hintLabel);
    assert |p.scenes| <= MAX_SCENES;
    forall o | o in g.objectives ensures GoalOk(o, g.nodes) {
      var i :| 0 <= i < |g.objectives| && g.objectives[i] == o;
      PlanGoalOk(p, directory, exitLabel, hintLabel, i);
    }
  }

  /** The plan sends one scene to another. */
  predicate PlanEdge(p: Plan, i: nat, k: nat) {
    i < |p.scenes| && k < |p.scenes| && p.scenes[k].id in p.scenes[i].nextIds
  }

  /** The scene a drafted transition leads to. */
  lemma PlanTarget(p: Plan, i: nat, t: Transition) returns (m: nat)
    requires ValidPlan(p) && i < |p.scenes| && p.scenes[i] in p.scenes && t in PlanTransitions(p, p.scenes[i])
    ensures PlanEdge(p, i, m) && t.to == SceneId(m) && t.conditions == []
  {
    hide SceneId, Distinct;
    var s := p.scenes[i];
    var j :| 0 <= j < |s.nextIds| && PlanTransitions(p, s)[j] == t;
    assert s.nextIds[j] in s.nextIds;
    m := IndexOf(p.scenes, s.nextIds[j]);
  }

  lemma PlanTargetsExist(p: Plan, directory: Id, exitLabel: string, hintLabel: string)
    requires ValidPlan(p)
    ensures TargetsExist(PlanGraph(p, directory, exitLabel, hintLabel).nodes)
  {
    hide SceneId, Distinct, Describe, PlanGraph, PlanTransitions, ValidPlan, NodeIds;
    var g := PlanGraph(p, directory, exitLabel, hintLabel);
    PlanIds(p, directory, exitLabel, hintLabel);
    forall n, t | n in g.nodes && t in n.transitions ensures t.to in NodeIds(g.nodes) {
      var i :| 0 <= i < |g.nodes| && g.nodes[i] == n;
      assert n == PlanNode(p, i, exitLabel, hintLabel) && p.scenes[i] in p.scenes;
      var m := PlanTarget(p, i, t);
    }
  }

  lemma PlanGraphWellFormed(p: Plan, directory: Id, exitLabel: string, hintLabel: string)
    requires ValidPlan(p) && IsId(directory)
    ensures WellFormed(PlanGraph(p, directory, exitLabel, hintLabel))
  {
    hide NodeOk, GoalOk, SceneId, PlanNode, PlanGoal, IsId, TargetsExist;
    var g := PlanGraph(p, directory, exitLabel, hintLabel);
    PlanIds(p, directory, exitLabel, hintLabel);
    PlanGoalsOk(p, directory, exitLabel, hintLabel);
    PlanTargetsExist(p, directory, exitLabel, hintLabel);
    forall n | n in g.nodes ensures NodeOk(n, 2, []) {
      var i :| 0 <= i < |g.nodes| && g.nodes[i] == n;
      PlanNodeOk(p, i, exitLabel, hintLabel, _ => "");
    }
    SceneIdOk(IndexOf(p.scenes, p.start));
  }

  lemma ObjectiveReads(p: Plan, i: nat, nodes: seq<Node>, show: Show)
    requires i < |p.scenes| && GoalOk(PlanGoal(p, i), nodes)
    ensures ReadGoal(DraftObjective(p, i), nodes, show) == Some(PlanGoal(p, i))
  {
    hide SceneId, ObjectiveIdOf, IsId, GoalOk, ReadId, ReadIds;
    SceneIdOk(i);
    assert |"public"| == 6 && |"gm"| == 2;
    IdsRoundTrip([SceneId(i)], show);
    assert EncodeStrs([SceneId(i)]) == Arr([Str(SceneId(i))]);
  }

  lemma ObjectivesRead(p: Plan, directory: Id, exitLabel: string, hintLabel: string, show: Show)
    requires ValidPlan(p)
    ensures var g := PlanGraph(p, directory, exitLabel, hintLabel);
            ReadGoals(Arr(DraftObjectives(p)), g.nodes, show) == Some(g.objectives)
  {
    hide ValidPlan, GoalOk, PlanGraph, ReadGoal, PlanGoal, DraftObjective;
    var g := PlanGraph(p, directory, exitLabel, hintLabel);
    forall i | 0 <= i < |p.scenes| ensures ReadGoal(DraftObjectives(p)[i], g.nodes, show) == Some(g.objectives[i]) {
      PlanGoalOk(p, directory, exitLabel, hintLabel, i);
      ObjectiveReads(p, i, g.nodes, show);
    }
    var r := ReadGoals(Arr(DraftObjectives(p)), g.nodes, show);
    assert r.Some? && r.value == g.objectives;
  }

  lemma PlanRecordFields(p: Plan, directory: Id, exitLabel: string, hintLabel: string)
    requires ValidPlan(p)
    ensures var f := PlanRecord(p, directory, exitLabel, hintLabel).fields;
      && Get(f, KId, Null) == Str(directory) && Get(f, KSchemaVersion, Int(1)) == Int(2)
      && Get(f, KVisibility, Str("public")) == Str("public") && Get(f, KChapters, Arr([])) == Arr([])
      && Get(f, KNodes, Arr([])) == Arr(DraftNodes(p, exitLabel, hintLabel))
  {
    hide DraftNodes, DraftObjectives, SceneId, Distinct, Strip, IndexOf;
  }

  lemma PlanRecordLists(p: Plan, directory: Id, exitLabel: string, hintLabel: string)
    requires ValidPlan(p)
    ensures var f := PlanRecord(p, directory, exitLabel, hintLabel).fields;
      && Get(f, KStartNodeIds, Arr([])) == Arr([Str(SceneId(IndexOf(p.scenes, p.start)))])
      && Get(f, KObjectives, Arr([])) == Arr(DraftObjectives(p)) && Get(f, KMilestones, Arr([])) == Arr([])
      && Get(f, KWorldSeed, Null) == Null
  {
    hide DraftNodes, DraftObjectives, SceneId, Distinct, Strip, IndexOf;
  }

  lemma PlanRecordKeys(p: Plan, directory: Id, exitLabel: string, hintLabel: string)
    requires ValidPlan(p)
    ensures PlanRecord(p, directory, exitLabel, hintLabel).fields.Keys <= GRAPH_FIELDS
  {
    hide DraftNodes, DraftObjectives, SceneId, Distinct, Strip, IndexOf;
  }

  lemma PlanFieldsRead(p: Plan, directory: Id, exitLabel: string, hintLabel: string, show: Show)
    requires ValidPlan(p) && IsId(directory)
    ensures GraphFromFields(PlanRecord(p, directory, exitLabel, hintLabel).fields, show)
            == Some(PlanGraph(p, directory, exitLabel, hintLabel))
  {
    hide ValidPlan, SceneId, IsId, DraftNodes, DraftObjectives, GraphFromFields, ReadGoals, ReadChapters,
         ReadNodes, ReadId, ReadIds, IndexOf, Get, PlanRecord, ReadSeed, ReadVisibility;
    var g := PlanGraph(p, directory, exitLabel, hintLabel);
    var start := SceneId(IndexOf(p.scenes, p.start));
    PlanRecordFields(p, directory, exitLabel, hintLabel);
    PlanRecordLists(p, directory, exitLabel, hintLabel);
    NodesRead(p, exitLabel, hintLabel, directory, show);
    ObjectivesRead(p, directory, exitLabel, hintLabel, show);
    SceneIdOk(IndexOf(p.scenes, p.start));
    IdsRoundTrip([start], show);
    assert EncodeStrs([start]) == Arr([Str(start)]);
    assert ReadId(Str(directory), show) == Some(directory);
    EmptyListsRead(g.nodes, show);
    GraphFieldsRead(PlanRecord(p, directory, exitLabel, hintLabel).fields, g, show);
  }

  /** The drafted record is a valid adventure, and the graph it validates to is the plan's. */
  lemma DraftValidates(p: Plan, directory: Id, exitLabel: string, hintLabel: string, show: Show)
    requires ValidPlan(p) && IsId(directory)
    ensures Validated(PlanRecord(p, directory, exitLabel, hintLabel), show)
            == Some(PlanGraph(p, directory, exitLabel, hintLabel))
  {
    hide ValidPlan, IsId, WellFormed, GraphFromFields, DraftRecord;
    PlanGraphWellFormed(p, directory, exitLabel, hintLabel);
    PlanFieldsRead(p, directory, exitLabel, hintLabel, show);
    PlanRecordKeys(p, directory, exitLabel, hintLabel);
  }

  // ---- the plan's edges ----

  lemma PlanEdgeIsDrafted(p: Plan, i: nat, k: nat) returns (t: Transition)
    requires ValidPlan(p) && PlanEdge(p, i, k) && p.scenes[i] in p.scenes
    ensures t in PlanTransitions(p, p.scenes[i]) && t.to == SceneId(k)
  {
    hide SceneId, Distinct;
    var s := p.scenes[i];
    var j :| 0 <= j < |s.nextIds| && s.nextIds[j] == p.scenes[k].id;
    IndexUnique(p.scenes, k);
    t := PlanTransitions(p, s)[j];
  }

  /** The drafted graph has exactly the plan's edges under the renaming of scenes to nodes, all of them ungated. */
  lemma DraftHasPlanEdges(p: Plan, directory: Id, exitLabel: string, hintLabel: string, i: nat, k: nat)
    requires ValidPlan(p) && i < |p.scenes| && k < |p.scenes|
    ensures var n := PlanGraph(p, directory, exitLabel, hintLabel).nodes[i];
      && n.id == SceneId(i)
      && (PlanEdge(p, i, k) <==> exists t :: t in n.transitions && t.to == SceneId(k))
      && (forall t :: t in n.transitions ==>
            t.conditions == [] && exists m: nat :: PlanEdge(p, i, m) && t.to == SceneId(m))
  {
    hide SceneId, PlanGraph, ValidPlan, PlanEdge;
    assert p.scenes[i] in p.scenes;
    var n := PlanGraph(p, directory, exitLabel, hintLabel).nodes[i];
    assert n.transitions == PlanTransitions(p, p.scenes[i]);
    forall t | t in n.transitions
      ensures t.conditions == [] && exists m: nat :: PlanEdge(p, i, m) && t.to == SceneId(m)
      ensures t.to == SceneId(k) ==> PlanEdge(p, i, k)
    {
      var m := PlanTarget(p, i, t);
      SceneIdInjective(m, k);
    }
    if PlanEdge(p, i, k) {
      var t := PlanEdgeIsDrafted(p, i, k);
    }
  }
}
