/** What a drafted adventure tells: the texts of a run-story plan, where they stand and that nothing else does. */
module StoryText {
  import opened Values
  import opened GraphModel
  import opened GraphValidation
  import opened StoryDraft

  // ---- how a description is laid out ----

  /** The parts of a scene's description: its prose, its exit for the game master, its hints. */
  function Part(s: Scene, exitLabel: string, hintLabel: string, j: nat): string
    requires j < 2 + |s.hints|
  {
    if j == 0 then s.description else if j == 1 then exitLabel + s.exit else hintLabel + s.hints[j - 2]
  }

  /** The text is the parts one after the other, the i-th from position at[i] on, with a blank line between two. */
  predicate LaidOut(text: string, parts: seq<string>, at: seq<nat>) {
    && |at| == |parts|
    && (forall i :: 0 <= i < |parts| ==>
          at[i] + |parts[i]| <= |text| && text[at[i]..at[i] + |parts[i]|] == parts[i])
    && (forall i :: 0 <= i < |parts| - 1 ==>
          at[i + 1] == at[i] + |parts[i]| + 2 && text[at[i] + |parts[i]|..at[i + 1]] == "\n\n")
    && (if parts == [] then text == ""
        else at[0] == 0 && at[|parts| - 1] + |parts[|parts| - 1]| == |text|)
  }

  /** The places of the parts that are not empty, in order. */
  ghost predicate Picked(kept: seq<nat>, parts: seq<string>) {
    && (forall i, j :: 0 <= i < j < |kept| ==> kept[i] < kept[j])
    && (forall i :: 0 <= i < |kept| ==> kept[i] < |parts|)
    && (forall j :: 0 <= j < |parts| ==> (j in kept <==> parts[j] != ""))
  }

  function PartsAt(parts: seq<string>, kept: seq<nat>): seq<string>
    requires forall i :: 0 <= i < |kept| ==> kept[i] < |parts|
  {
    seq(|kept|, i requires 0 <= i < |kept| => parts[kept[i]])
  }

  /** The text holds the scene's parts in order, without the empty ones, and nothing else. */
  ghost predicate Tells(text: string, s: Scene, exitLabel: string, hintLabel: string) {
    exists parts: seq<string>, kept: seq<nat>, at: seq<nat> ::
      && |parts| == 2 + |s.hints| && (forall j :: 0 <= j < |parts| ==> parts[j] == Part(s, exitLabel, hintLabel, j))
      && Picked(kept, parts) && LaidOut(text, PartsAt(parts, kept), at)
  }

  lemma PickedOneMore(parts: seq<string>, earlier: seq<nat>, kept: seq<nat>)
    requires parts != [] && Picked(earlier, parts[..|parts| - 1])
    requires kept == if parts[|parts| - 1] != "" then earlier + [|parts| - 1] else earlier
    ensures Picked(kept, parts)
  {
    var n := |parts| - 1;
    forall j | 0 <= j < |parts| ensures j in kept <==> parts[j] != "" {
      if j < n { assert parts[..n][j] == parts[j]; }
    }
  }

  lemma {:induction false} PickParts(parts: seq<string>) returns (kept: seq<nat>)
    ensures Picked(kept, parts) && PartsAt(parts, kept) == Filter((n: string) => n != "", parts)
  {
    if parts == [] {
      kept := [];
    } else {
      var n := |parts| - 1;
      var earlier := PickParts(parts[..n]);
      assert parts == parts[..n] + [parts[n]];
      FilterConcat((n: string) => n != "", parts[..n], [parts[n]]);
      kept := if parts[n] != "" then earlier + [n] else earlier;
      assert PartsAt(parts, earlier) == PartsAt(parts[..n], earlier);
      PickedOneMore(parts, earlier, kept);
    }
  }

  lemma LaidOutAfter(parts: seq<string>, rest: seq<nat>, at: seq<nat>, tail: string)
    requires |parts| > 1 && LaidOut(tail, parts[1..], rest)
    requires |at| == |parts| && at[0] == 0 && forall i :: 1 <= i < |at| ==> at[i] == rest[i - 1] + |parts[0]| + 2
    ensures LaidOut(parts[0] + "\n\n" + tail, parts, at)
  {
    var text, step, after := parts[0] + "\n\n" + tail, |parts[0]| + 2, parts[1..];
    assert text[step..] == tail && text[|parts[0]|..step] == "\n\n" && text[..|parts[0]|] == parts[0];
    forall i | 1 <= i < |parts|
      ensures at[i] + |parts[i]| <= |text| && text[at[i]..at[i] + |parts[i]|] == parts[i]
    {
      assert after[i - 1] == parts[i];
      assert text[at[i]..at[i] + |parts[i]|] == tail[rest[i - 1]..rest[i - 1] + |parts[i]|];
    }
    forall i | 0 <= i < |parts| - 1
      ensures at[i + 1] == at[i] + |parts[i]| + 2 && text[at[i] + |parts[i]|..at[i + 1]] == "\n\n"
    {
      if i > 0 {
        assert after[i - 1] == parts[i];
        assert text[at[i] + |parts[i]|..at[i + 1]] == tail[rest[i - 1] + |parts[i]|..rest[i]];
      }
    }
  }

  lemma {:induction false} JoinLaysOut(parts: seq<string>) returns (at: seq<nat>)
    ensures LaidOut(Join(parts), parts, at)
  {
    if |parts| == 0 {
      at := [];
    } else if |parts| == 1 {
      at := [0];
    } else {
      var rest := JoinLaysOut(parts[1..]);
      var step := |parts[0]| + 2;
      at := [0] + seq(|rest|, i requires 0 <= i < |rest| => rest[i] + step);
      LaidOutAfter(parts, rest, at, Join(parts[1..]));
    }
  }

  lemma DescriptionTells(s: Scene, exitLabel: string, hintLabel: string)
    ensures Tells(Describe(s, exitLabel, hintLabel), s, exitLabel, hintLabel)
  {
    hide Picked, LaidOut, Filter, Join;
    var parts := [s.description, exitLabel + s.exit] + Map((h: string) => hintLabel + h, s.hints);
    var kept := PickParts(parts);
    var at := JoinLaysOut(PartsAt(parts, kept));
    assert forall j :: 0 <= j < |parts| ==> parts[j] == Part(s, exitLabel, hintLabel, j);
  }

  // ---- the record ----

  predicate Has(f: Fields, k: Key, v: Json) { k in f && f[k] == v }

  /** The field is a list of n records. */
  predicate Records(f: Fields, k: Key, n: nat) {
    k in f && f[k].Arr? && |f[k].items| == n && forall i :: 0 <= i < n ==> f[k].items[i].Obj?
  }

  function RecordAt(f: Fields, k: Key, i: nat): Fields
    requires k in f && f[k].Arr? && i < |f[k].items| && f[k].items[i].Obj?
  {
    f[k].items[i].fields
  }

  /** The j-th transition leads to the scene that the plan names, under its title where there are several. */
  ghost predicate TransitionTells(p: Plan, f: Fields, i: nat, j: nat)
    requires i < |p.scenes| && Records(f, KNodes, |p.scenes|) && j < |p.scenes[i].nextIds|
    requires Records(RecordAt(f, KNodes, i), KTransitions, |p.scenes[i].nextIds|)
  {
    var t := RecordAt(RecordAt(f, KNodes, i), KTransitions, j);
    exists m :: 0 <= m < |p.scenes| && p.scenes[m].id == p.scenes[i].nextIds[j]
      && KTo in t && Has(RecordAt(f, KNodes, m), KId, t[KTo])
      && (if |p.scenes[i].nextIds| > 1 then Has(t, KChoiceLabel, Str(p.scenes[m].title)) else KChoiceLabel !in t)
  }

  /** The i-th node and the i-th objective are the i-th scene's. */
  ghost predicate SceneTells(p: Plan, f: Fields, i: nat, exitLabel: string, hintLabel: string)
    requires i < |p.scenes| && Records(f, KNodes, |p.scenes|) && Records(f, KObjectives, |p.scenes|)
  {
    var s, node, goal := p.scenes[i], RecordAt(f, KNodes, i), RecordAt(f, KObjectives, i);
    && Has(node, KName, Str(s.title)) && Has(node, KVisibility, Str("gm"))
    && KDescription in node && node[KDescription].Str? && Tells(node[KDescription].s, s, exitLabel, hintLabel)
    && Records(node, KTransitions, |s.nextIds|)
    && (forall j :: 0 <= j < |s.nextIds| ==> TransitionTells(p, f, i, j))
    && Has(goal, KName, Str(s.objective)) && Has(goal, KVisibility, Str("gm"))
    && KId in node && Has(goal, KNodeIds, Arr([node[KId]]))
  }

  /** The record holds the plan: theme and party goal, a node and an objective for each scene, and the start. */
  ghost predicate RecordTells(p: Plan, f: Fields, exitLabel: string, hintLabel: string) {
    && Has(f, KName, Str(p.theme)) && Has(f, KSummary, Str(p.partyGoal))
    && Records(f, KNodes, |p.scenes|) && Records(f, KObjectives, |p.scenes|)
    && (forall i :: 0 <= i < |p.scenes| ==> SceneTells(p, f, i, exitLabel, hintLabel))
    && exists m :: 0 <= m < |p.scenes| && p.scenes[m].id == p.start && KId in RecordAt(f, KNodes, m)
                   && Has(f, KStartNodeIds, Arr([RecordAt(f, KNodes, m)[KId]]))
  }

  lemma TransitionIsRecord(p: Plan, s: Scene, target: string)
    requires target in SceneIds(p.scenes)
    ensures DraftTransition(p, s, target).Obj?
  {}

  lemma NodeFieldsAre(p: Plan, i: nat, exitLabel: string, hintLabel: string)
    requires ValidPlan(p) && i < |p.scenes|
    ensures var s, f := p.scenes[i], DraftNode(p, i, exitLabel, hintLabel).fields;
      && Has(f, KId, Str(SceneId(i))) && Has(f, KName, Str(s.title)) && Has(f, KVisibility, Str("gm"))
      && Has(f, KDescription, Str(Describe(s, exitLabel, hintLabel)))
      && s in p.scenes && Records(f, KTransitions, |s.nextIds|)
      && (forall j :: 0 <= j < |s.nextIds| ==>
            && s.nextIds[j] in SceneIds(p.scenes)
            && Obj(RecordAt(f, KTransitions, j)) == DraftTransition(p, s, s.nextIds[j]))
  {
    hide Describe, SceneId, Distinct, Strip, SceneIds, DraftTransition;
    assert p.scenes[i] in p.scenes;
    var f := DraftNode(p, i, exitLabel, hintLabel).fields;
    forall j | 0 <= j < |p.scenes[i].nextIds| ensures f[KTransitions].items[j].Obj? {
      TransitionIsRecord(p, p.scenes[i], p.scenes[i].nextIds[j]);
    }
  }

  lemma ObjectiveFieldsAre(p: Plan, i: nat)
    requires i < |p.scenes|
    ensures DraftObjective(p, i).Obj?
    ensures var f := DraftObjective(p, i).fields;
      && Has(f, KName, Str(p.scenes[i].objective)) && Has(f, KVisibility, Str("gm"))
      && Has(f, KNodeIds, Arr([Str(SceneId(i))]))
  {
    hide SceneId;
  }

  lemma RecordIsDrafted(p: Plan, directory: Id, exitLabel: string, hintLabel: string)
    requires ValidPlan(p)
    ensures var f := PlanRecord(p, directory, exitLabel, hintLabel).fields;
      && Has(f, KName, Str(p.theme)) && Has(f, KSummary, Str(p.partyGoal))
      && p.start in SceneIds(p.scenes) && Has(f, KStartNodeIds, Arr([Str(SceneId(IndexOf(p.scenes, p.start)))]))
      && Has(f, KNodes, Arr(DraftNodes(p, exitLabel, hintLabel))) && Has(f, KObjectives, Arr(DraftObjectives(p)))
  {
    hide SceneId, IndexOf, Distinct, DraftNodes, DraftObjectives, Strip;
  }

  lemma DraftsAreRecords(p: Plan, i: nat, exitLabel: string, hintLabel: string)
    requires ValidPlan(p) && i < |p.scenes|
    ensures DraftNode(p, i, exitLabel, hintLabel).Obj? && DraftObjective(p, i).Obj?
  {
    hide SceneId, Describe, Distinct, Strip, SceneIds, DraftTransition;
  }

  lemma RecordLists(p: Plan, f: Fields, exitLabel: string, hintLabel: string)
    requires ValidPlan(p)
    requires Has(f, KNodes, Arr(DraftNodes(p, exitLabel, hintLabel))) && Has(f, KObjectives, Arr(DraftObjectives(p)))
    ensures Records(f, KNodes, |p.scenes|) && Records(f, KObjectives, |p.scenes|)
    ensures forall i :: 0 <= i < |p.scenes| ==>
              && Obj(RecordAt(f, KNodes, i)) == DraftNode(p, i, exitLabel, hintLabel)
              && Obj(RecordAt(f, KObjectives, i)) == DraftObjective(p, i)
  {
    hide ValidPlan, DraftObjective, DraftNode;
    forall i | 0 <= i < |p.scenes|
      ensures DraftNode(p, i, exitLabel, hintLabel).Obj? && DraftObjective(p, i).Obj?
    {
      DraftsAreRecords(p, i, exitLabel, hintLabel);
    }
  }

  lemma TransitionIsTold(p: Plan, f: Fields, exitLabel: string, hintLabel: string, i: nat, j: nat)
    requires ValidPlan(p) && i < |p.scenes| && j < |p.scenes[i].nextIds|
    requires Has(f, KNodes, Arr(DraftNodes(p, exitLabel, hintLabel))) && Has(f, KObjectives, Arr(DraftObjectives(p)))
    ensures Records(f, KNodes, |p.scenes|) && Records(RecordAt(f, KNodes, i), KTransitions, |p.scenes[i].nextIds|)
    ensures TransitionTells(p, f, i, j)
  {
    hide ValidPlan, SceneId, DraftNode, DraftTransition, SceneIds, IndexOf, Records, DraftNodes, DraftObjectives,
         ChoiceIdOf;
    var s := p.scenes[i];
    RecordLists(p, f, exitLabel, hintLabel);
    NodeFieldsAre(p, i, exitLabel, hintLabel);
    var m := IndexOf(p.scenes, s.nextIds[j]);
    TransitionFieldsHold(p, s, s.nextIds[j]);
    NodeFieldsAre(p, m, exitLabel, hintLabel);
  }

  lemma SceneIsTold(p: Plan, f: Fields, exitLabel: string, hintLabel: string, i: nat)
    requires ValidPlan(p) && i < |p.scenes|
    requires Has(f, KNodes, Arr(DraftNodes(p, exitLabel, hintLabel))) && Has(f, KObjectives, Arr(DraftObjectives(p)))
    ensures Records(f, KNodes, |p.scenes|) && Records(f, KObjectives, |p.scenes|)
    ensures SceneTells(p, f, i, exitLabel, hintLabel)
  {
    hide ValidPlan, Describe, SceneId, Tells, DraftNode, DraftObjective, SceneIds, IndexOf, Records, DraftNodes,
         DraftObjectives, TransitionTells;
    RecordLists(p, f, exitLabel, hintLabel);
    NodeFieldsAre(p, i, exitLabel, hintLabel);
    ObjectiveFieldsAre(p, i);
    DescriptionTells(p.scenes[i], exitLabel, hintLabel);
    forall j | 0 <= j < |p.scenes[i].nextIds| ensures TransitionTells(p, f, i, j) {
      TransitionIsTold(p, f, exitLabel, hintLabel, i, j);
    }
  }

  /** The draft of every valid plan tells the plan. */
  lemma DraftTellsThePlan(p: Plan, directory: Id, exitLabel: string, hintLabel: string)
    requires ValidPlan(p)
    ensures RecordTells(p, PlanRecord(p, directory, exitLabel, hintLabel).fields, exitLabel, hintLabel)
  {
    hide ValidPlan, SceneTells, SceneId, DraftNode, SceneIds, IndexOf, PlanRecord, DraftNodes, DraftObjectives, Records;
    var f := PlanRecord(p, directory, exitLabel, hintLabel).fields;
    RecordIsDrafted(p, directory, exitLabel, hintLabel);
    RecordLists(p, f, exitLabel, hintLabel);
    forall i | 0 <= i < |p.scenes| ensures SceneTells(p, f, i, exitLabel, hintLabel) {
      SceneIsTold(p, f, exitLabel, hintLabel, i);
    }
    NodeFieldsAre(p, IndexOf(p.scenes, p.start), exitLabel, hintLabel);
  }

  /** So does the graph it validates to. */
  lemma GraphTellsThePlan(p: Plan, directory: Id, exitLabel: string, hintLabel: string, show: Show)
    requires ValidPlan(p) && IsId(directory)
    ensures var r := Validated(PlanRecord(p, directory, exitLabel, hintLabel), show);
      && r.Some? && |r.value.nodes| == |r.value.objectives| == |p.scenes|
      && forall i :: 0 <= i < |p.scenes| ==>
           var s, n, o := p.scenes[i], r.value.nodes[i], r.value.objectives[i];
           && n.name == s.title && Tells(n.description, s, exitLabel, hintLabel)
           && o.name == s.objective && o.nodeIds == [n.id]
  {
    hide ValidPlan, IsId, Validated, Describe, Tells, SceneId;
    DraftValidates(p, directory, exitLabel, hintLabel, show);
    forall i | 0 <= i < |p.scenes|
      ensures Tells(Describe(p.scenes[i], exitLabel, hintLabel), p.scenes[i], exitLabel, hintLabel)
    {
      DescriptionTells(p.scenes[i], exitLabel, hintLabel);
    }
  }
}
