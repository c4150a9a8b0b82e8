/** What the validator accepts, said of the raw record: which fields it may have, what each of them must hold, and what
    each becomes in the graph. */
module GraphRecords {
  import opened Values
  import opened Gates
  import opened GraphModel
  import opened GraphValidation

  // ---- values ----

  /** The values that count as nothing. */
  predicate Nothing(v: Json) {
    || v == Null || v == Bool(false) || v == Int(0) || v == Float(0.0) || v == Str("") || v == Arr([])
    || v == Obj(map[])
  }

  predicate Says(v: Json, text: string, show: Show) {
    if Nothing(v) then text == "" else if v.Str? then text == v.s else text == show(v)
  }

  /** The field's text; an absent field says nothing. */
  predicate FieldSays(f: Fields, k: Key, text: string, show: Show) {
    if k in f then Says(f[k], text, show) else text == ""
  }

  /** An identifier, possibly with white space around it. */
  ghost predicate Names(v: Json, id: Id, show: Show) {
    IsId(id) && exists text :: Says(v, text, show) && Padded(text, id)
  }

  ghost predicate FieldNames(f: Fields, k: Key, id: Id, show: Show) { k in f && Names(f[k], id, show) }

  predicate VisibilityIs(f: Fields, v: Visibility) {
    if KVisibility in f then f[KVisibility] == Str(if v == Gm then "gm" else "public") else v == Public
  }

  // ---- gates, transitions, outcomes ----

  predicate GateIs(raw: Json, g: Gate, show: Show) {
    && raw.Obj?
    && var f := raw.fields;
       && (forall k :: k in f ==> k in {KType, KKey, KValue, KId})
       && FieldSays(f, KType, g.kind, show)
       && g.kind in ["world.fact_equals", "world.entity_status", "world.relation_status", "world.process_status",
                     "adventure.milestone", "adventure.objective_status", "affection.score", "rules.outcome",
                     "rules.party_level", "rules.item_possession"]
       && FieldSays(f, if g.kind == "world.fact_equals" then KKey else KId, g.subject, show) && g.subject != ""
       && (if KValue in f then g.value == f[KValue] else g.value == Null)
       && (g.kind == "affection.score" ==> g.value.Int? && -100 <= g.value.n <= 100)
  }

  predicate GatesAre(f: Fields, gates: seq<Gate>, show: Show) {
    if KConditions !in f || f[KConditions] == Null then gates == []
    else
      && f[KConditions].Arr? && |f[KConditions].items| == |gates| <= 8
      && forall i :: 0 <= i < |gates| ==> GateIs(f[KConditions].items[i], gates[i], show)
  }

  ghost predicate ChoiceIs(f: Fields, c: Choice, show: Show) {
    && FieldNames(f, KChoiceId, c.id, show) && |c.id| <= 128
    && KChoiceLabel in f && f[KChoiceLabel].Str? && |f[KChoiceLabel].s| <= 256
    && Padded(f[KChoiceLabel].s, c.text) && c.text != ""
  }

  ghost predicate TransitionIs(raw: Json, exclusive: bool, t: Transition, show: Show) {
    && raw.Obj?
    && var f := raw.fields;
       && (forall k :: k in f ==> k in {KTo, KConditions} || (exclusive && k in {KChoiceId, KChoiceLabel}))
       && FieldNames(f, KTo, t.to, show)
       && GatesAre(f, t.conditions, show)
       && (if exclusive then t.choice.Some? && ChoiceIs(f, t.choice.value, show) else t.choice == None)
  }

  predicate OutcomeIs(raw: Json, o: Outcome, show: Show) {
    && raw.Obj?
    && var f := raw.fields;
       match o
       case WorldOp(op) =>
         && FieldSays(f, KType, "world_op", show)
         && KOp in f && f[KOp] == Obj(op) && KOp in op && !Nothing(op[KOp])
       case ItemReward(ref, recipient) =>
         && (forall k :: k in f ==> k in {KType, KRef, KRecipientUid})
         && FieldSays(f, KType, "item_reward", show)
         && KRef in f && f[KRef] == ref && !Nothing(ref) && FieldSays(f, KRecipientUid, recipient, show)
       case ProgressEvent(kind, id) =>
         && (forall k :: k in f ==> k in {KType, KKind, KId})
         && FieldSays(f, KType, "progress_event", show)
         && FieldSays(f, KKind, kind, show) && kind in ["node_completed", "objective_completed", "milestone_reached"]
         && FieldSays(f, KId, id, show)
  }

  // ---- the records of a graph ----

  ghost predicate ChapterIs(raw: Json, c: Chapter, show: Show) {
    && raw.Obj? && FieldNames(raw.fields, KId, c.id, show) && FieldSays(raw.fields, KName, c.name, show)
    && VisibilityIs(raw.fields, c.visibility)
  }

  /** A reference is kept as it is, without stripping. */
  predicate RefIs(f: Fields, k: Key, ref: Option<string>, show: Show) {
    if k !in f || f[k] == Null then ref == None
    else ref == Some(if f[k].Str? then f[k].s else show(f[k]))
  }

  predicate ModeIs(f: Fields, exclusive: bool) {
    if KChoiceMode in f then f[KChoiceMode] == Str(if exclusive then "exclusive" else "parallel") else !exclusive
  }

  ghost predicate TransitionsAre(f: Fields, exclusive: bool, ts: seq<Transition>, show: Show) {
    if KTransitions !in f then ts == []
    else
      && f[KTransitions].Arr? && |f[KTransitions].items| == |ts|
      && forall i :: 0 <= i < |ts| ==> TransitionIs(f[KTransitions].items[i], exclusive, ts[i], show)
  }

  predicate OutcomesAre(f: Fields, os: seq<Outcome>, show: Show) {
    if KOnComplete !in f || f[KOnComplete] == Null then os == []
    else
      && f[KOnComplete].Arr? && |f[KOnComplete].items| == |os|
      && forall i :: 0 <= i < |os| ==> OutcomeIs(f[KOnComplete].items[i], os[i], show)
  }

  predicate RefsAre(f: Fields, refs: seq<string>) {
    if KNpcRefs !in f then refs == []
    else
      && f[KNpcRefs].Arr? && |f[KNpcRefs].items| == |refs|
      && forall i :: 0 <= i < |refs| ==> f[KNpcRefs].items[i] == Str(refs[i])
  }

  ghost predicate NodeIs(raw: Json, schema: int, n: Node, show: Show) {
    && raw.Obj?
    && var f := raw.fields;
       && (forall k :: k in f ==>
             || k in {KId, KType, KChapterId, KVisibility, KOptional, KTransitions, KSceneRef, KNpcRefs, KEncounterRef,
                      KName, KDescription, KOnComplete}
             || (schema == 2 && k == KChoiceMode))
       && FieldNames(f, KId, n.id, show)
       && KType in f && f[KType] == Str(n.kind)
       && (if KChapterId !in f || f[KChapterId] == Null then n.chapter == None
           else n.chapter.Some? && Names(f[KChapterId], n.chapter.value, show))
       && VisibilityIs(f, n.visibility)
       && (n.optional <==> KOptional in f && !Nothing(f[KOptional]))
       && FieldSays(f, KName, n.name, show) && FieldSays(f, KDescription, n.description, show)
       && ModeIs(f, n.exclusive)
       && TransitionsAre(f, n.exclusive, n.transitions, show)
       && OutcomesAre(f, n.onComplete, show)
       && RefIs(f, KSceneRef, n.sceneRef, show) && RefIs(f, KEncounterRef, n.encounterRef, show)
       && RefsAre(f, n.npcRefs)
  }

  ghost predicate IdsAre(f: Fields, k: Key, ids: seq<Id>, show: Show) {
    if k !in f then ids == []
    else
      && f[k].Arr? && |f[k].items| == |ids|
      && forall i :: 0 <= i < |ids| ==> Names(f[k].items[i], ids[i], show)
  }

  ghost predicate GoalIs(raw: Json, g: Goal, show: Show) {
    && raw.Obj? && FieldNames(raw.fields, KId, g.id, show) && FieldSays(raw.fields, KName, g.name, show)
    && VisibilityIs(raw.fields, g.visibility) && IdsAre(raw.fields, KNodeIds, g.nodeIds, show)
  }

  predicate HasAll(f: Fields, ks: set<Key>) { forall k :: k in ks ==> k in f && !Nothing(f[k]) }

  predicate OnlyHas(f: Fields, ks: set<Key>) { forall k :: k in f ==> k in ks }

  predicate EntitySeedIs(f: Fields) {
    HasAll(f, {KEntityId, KKind}) && OnlyHas(f, {KEntityId, KKind, KVisibility, KSourceRef})
  }

  predicate RelationSeedIs(f: Fields) {
    && HasAll(f, {KRelationId, KKind, KFromRef, KToRef})
    && OnlyHas(f, {KRelationId, KKind, KFromRef, KToRef, KVisibility, KSourceRef})
    && f[KKind] in [Str("located_at"), Str("connects"), Str("member_of"), Str("controls"), Str("hostile_to"),
                    Str("allied_with"), Str("owns")]
  }

  predicate FactSeedIs(f: Fields) { HasAll(f, {KKey}) && KValue in f && OnlyHas(f, {KKey, KValue, KVisibility}) }

  predicate ProcessSeedIs(f: Fields) {
    && HasAll(f, {KProcessId, KKind})
    && OnlyHas(f, {KProcessId, KKind, KParticipants, KLocation, KDueAt, KVisibility, KSourceRef})
  }

  /** The list of seeds in a field, kept as it is. */
  predicate SeedsAre(f: Fields, k: Key, seeds: seq<Fields>, bound: nat) {
    |seeds| <= bound
    && if k !in f then seeds == []
       else f[k].Arr? && |f[k].items| == |seeds| && forall i :: 0 <= i < |seeds| ==> f[k].items[i] == Obj(seeds[i])
  }

  predicate SeedIs(f: Fields, s: Seed) {
    if KWorldSeed !in f || f[KWorldSeed] == Null then s == Seed([], [], [], [])
    else
      && f[KWorldSeed].Obj?
      && var w := f[KWorldSeed].fields;
         && OnlyHas(w, {KEntities, KRelations, KFacts, KProcesses})
         && SeedsAre(w, KEntities, s.entities, 128)
         && (forall i :: 0 <= i < |s.entities| ==> EntitySeedIs(s.entities[i]))
         && SeedsAre(w, KRelations, s.relations, 128)
         && (forall i :: 0 <= i < |s.relations| ==> RelationSeedIs(s.relations[i]))
         && SeedsAre(w, KFacts, s.facts, 128) && (forall i :: 0 <= i < |s.facts| ==> FactSeedIs(s.facts[i]))
         && SeedsAre(w, KProcesses, s.processes, 32)
         && (forall i :: 0 <= i < |s.processes| ==> ProcessSeedIs(s.processes[i]))
  }

  ghost predicate ChaptersAre(f: Fields, cs: seq<Chapter>, show: Show) {
    if KChapters !in f then cs == []
    else
      && f[KChapters].Arr? && |f[KChapters].items| == |cs|
      && forall i :: 0 <= i < |cs| ==> ChapterIs(f[KChapters].items[i], cs[i], show)
  }

  ghost predicate NodesAre(f: Fields, schema: int, ns: seq<Node>, show: Show) {
    if KNodes !in f then ns == []
    else
      && f[KNodes].Arr? && |f[KNodes].items| == |ns|
      && forall i :: 0 <= i < |ns| ==> NodeIs(f[KNodes].items[i], schema, ns[i], show)
  }

  ghost predicate GoalsAre(f: Fields, k: Key, gs: seq<Goal>, show: Show) {
    if k !in f then gs == []
    else
      && f[k].Arr? && |f[k].items| == |gs| && forall i :: 0 <= i < |gs| ==> GoalIs(f[k].items[i], gs[i], show)
  }

  /** The record has known fields only, each of the right kind, and the graph is what they hold. */
  ghost predicate RecordIs(f: Fields, g: Graph, show: Show) {
    && OnlyHas(f, {KChapters, KNodes, KObjectives, KMilestones, KStartNodeIds, KVisibility, KId, KFormat, KName,
                   KSummary, KTutorial, KSchemaVersion, KKind, KSourceRef, KAutomationLevel, KEstimatedMinutes,
                   KRecommendedLevel, KPlayerCount, KWorldPolicy, KRecommendedWorldId, KWorldSeed})
    && FieldNames(f, KId, g.id, show)
    && (if KSchemaVersion in f then f[KSchemaVersion] == Int(g.schema) else g.schema == 1)
    && VisibilityIs(f, g.visibility)
    && ChaptersAre(f, g.chapters, show)
    && NodesAre(f, g.schema, g.nodes, show)
    && IdsAre(f, KStartNodeIds, g.starts, show)
    && GoalsAre(f, KObjectives, g.objectives, show) && GoalsAre(f, KMilestones, g.milestones, show)
    && SeedIs(f, g.seed)
  }

  // ---- reading is just that ----

  lemma SaysIff(v: Json, text: string, show: Show)
    ensures Text(v, show) == text <==> Says(v, text, show)
  {}

  lemma NothingIff(v: Json)
    ensures Nothing(v) <==> !Truthy(v)
  {}

  lemma NullSays(show: Show)
    ensures Text(Null, show) == ""
  {}

  lemma FieldSaysIff(f: Fields, k: Key, text: string, show: Show)
    ensures Text(Get(f, k, Null), show) == text <==> FieldSays(f, k, text, show)
  {
    hide Text, Says;
    SaysIff(Get(f, k, Null), text, show);
    SaysIff(Null, "", show);
    NullSays(show);
  }

  lemma NamesIff(v: Json, id: Id, show: Show)
    ensures ReadId(v, show) == Some(id) <==> Names(v, id, show)
  {
    hide IsId, Strip, Padded, Says, Text;
    var text := Text(v, show);
    SaysIff(v, text, show);
    StripIff(text, id);
    forall t | Says(v, t, show) ensures t == text { SaysIff(v, t, show); }
  }

  lemma NullNames(id: Id, show: Show)
    ensures ReadId(Null, show).None?
  {}

  lemma FieldNamesIff(f: Fields, k: Key, id: Id, show: Show)
    ensures ReadId(Get(f, k, Null), show) == Some(id) <==> FieldNames(f, k, id, show)
  {
    hide ReadId, Names;
    NamesIff(Get(f, k, Null), id, show);
    NullNames(id, show);
  }

  lemma VisibilityIff(f: Fields, v: Visibility)
    ensures ReadVisibility(Get(f, KVisibility, Str("public"))) == Some(v) <==> VisibilityIs(f, v)
  {
    assert "gm" != "public" by { assert |"gm"| == 2 && |"public"| == 6; }
  }

  /** A list reads exactly if each item does. */
  lemma ReadAllIff<A, B>(read: A -> Option<B>, items: seq<A>, xs: seq<B>)
    ensures ReadAll(read, items) == Some(xs)
      <==> |items| == |xs| && forall i :: 0 <= i < |xs| ==> read(items[i]) == Some(xs[i])
  {
    var r := ReadAll(read, items);
    if |items| == |xs| && forall i :: 0 <= i < |xs| ==> read(items[i]) == Some(xs[i]) {
      assert r.value == xs;
    }
  }

  lemma KindsAreGates(kind: string)
    ensures kind in GATE_TYPES
      <==> kind in ["world.fact_equals", "world.entity_status", "world.relation_status", "world.process_status",
                    "adventure.milestone", "adventure.objective_status", "affection.score", "rules.outcome",
                    "rules.party_level", "rules.item_possession"]
  {}

  lemma GateIff(raw: Json, g: Gate, show: Show)
    ensures ReadGate(raw, show) == Some(g) <==> GateIs(raw, g, show)
  {
    hide Text, FieldSays;
    if raw.Obj? {
      var f := raw.fields;
      FieldSaysIff(f, KType, g.kind, show);
      FieldSaysIff(f, SubjectKey(g.kind), g.subject, show);
      KindsAreGates(g.kind);
    }
  }

  lemma GatesIff(f: Fields, gates: seq<Gate>, show: Show)
    ensures ReadGates(Get(f, KConditions, Arr([])), show) == Some(gates) <==> GatesAre(f, gates, show)
  {
    hide ReadGate, GateIs;
    var v := Get(f, KConditions, Arr([]));
    if v.Arr? {
      ReadAllIff(item => ReadGate(item, show), v.items, gates);
      forall i | 0 <= i < |gates| && i < |v.items|
        ensures ReadGate(v.items[i], show) == Some(gates[i]) <==> GateIs(v.items[i], gates[i], show)
      {
        GateIff(v.items[i], gates[i], show);
      }
    }
  }

  lemma ChoiceIff(f: Fields, c: Choice, show: Show)
    ensures ReadChoice(f, show) == Some(c) <==> ChoiceIs(f, c, show)
  {
    hide ReadId, FieldNames, Strip, Padded;
    FieldNamesIff(f, KChoiceId, c.id, show);
    var text := Get(f, KChoiceLabel, Null);
    if text.Str? { StripIff(text.s, c.text); }
  }

  lemma TransitionKeys(f: Fields, exclusive: bool)
    ensures f.Keys <= {KTo, KConditions} + (if exclusive then {KChoiceId, KChoiceLabel} else {})
      <==> forall k :: k in f ==> k in {KTo, KConditions} || (exclusive && k in {KChoiceId, KChoiceLabel})
  {}

  lemma TransitionIff(raw: Json, exclusive: bool, t: Transition, show: Show)
    ensures ReadTransition(raw, exclusive, show) == Some(t) <==> TransitionIs(raw, exclusive, t, show)
  {
    hide ReadId, FieldNames, ReadGates, GatesAre, ReadChoice, ChoiceIs, Get;
    if raw.Obj? {
      var f := raw.fields;
      FieldNamesIff(f, KTo, t.to, show);
      GatesIff(f, t.conditions, show);
      if t.choice.Some? { ChoiceIff(f, t.choice.value, show); }
      TransitionKeys(f, exclusive);
    }
  }

  lemma KindsDiffer()
    ensures "world_op" != "item_reward" && "world_op" != "progress_event" && "item_reward" != "progress_event"
  {
    assert |"world_op"| == 8 && |"item_reward"| == 11 && |"progress_event"| == 14;
  }

  lemma NullIsNothing()
    ensures !Truthy(Null)
  {}

  lemma OutcomeIff(raw: Json, o: Outcome, show: Show)
    ensures ReadOutcome(raw, show) == Some(o) <==> OutcomeIs(raw, o, show)
  {
    hide Text, FieldSays, Truthy, Nothing;
    if raw.Obj? {
      var f := raw.fields;
      KindsDiffer();
      FieldSaysIff(f, KType, "world_op", show);
      FieldSaysIff(f, KType, "item_reward", show);
      FieldSaysIff(f, KType, "progress_event", show);
      match o
      case WorldOp(op) =>
        NothingIff(Get(op, KOp, Null));
        NullIsNothing();
      case ItemReward(ref, recipient) =>
        NothingIff(ref);
        NullIsNothing();
        FieldSaysIff(f, KRecipientUid, recipient, show);
      case ProgressEvent(kind, id) =>
        FieldSaysIff(f, KKind, kind, show);
        FieldSaysIff(f, KId, id, show);
    }
  }

  lemma ChapterIff(raw: Json, c: Chapter, show: Show)
    ensures ReadChapter(raw, show) == Some(c) <==> ChapterIs(raw, c, show)
  {
    hide ReadId, FieldNames, Text, FieldSays, ReadVisibility, VisibilityIs, Get;
    if raw.Obj? {
      FieldNamesIff(raw.fields, KId, c.id, show);
      FieldSaysIff(raw.fields, KName, c.name, show);
      VisibilityIff(raw.fields, c.visibility);
    }
  }

  lemma TransitionsIff(f: Fields, exclusive: bool, ts: seq<Transition>, show: Show)
    ensures ReadTransitions(Get(f, KTransitions, Arr([])), exclusive, show) == Some(ts)
      <==> TransitionsAre(f, exclusive, ts, show)
  {
    hide ReadTransition, TransitionIs;
    var v := Get(f, KTransitions, Arr([]));
    if v.Arr? {
      ReadAllIff(item => ReadTransition(item, exclusive, show), v.items, ts);
      forall i | 0 <= i < |ts| && i < |v.items|
        ensures ReadTransition(v.items[i], exclusive, show) == Some(ts[i])
          <==> TransitionIs(v.items[i], exclusive, ts[i], show)
      {
        TransitionIff(v.items[i], exclusive, ts[i], show);
      }
    }
  }

  lemma OutcomesIff(f: Fields, os: seq<Outcome>, show: Show)
    ensures ReadOutcomes(Get(f, KOnComplete, Null), show) == Some(os) <==> OutcomesAre(f, os, show)
  {
    hide ReadOutcome, OutcomeIs;
    var v := Get(f, KOnComplete, Null);
    if v.Arr? {
      ReadAllIff(item => ReadOutcome(item, show), v.items, os);
      forall i | 0 <= i < |os| && i < |v.items|
        ensures ReadOutcome(v.items[i], show) == Some(os[i]) <==> OutcomeIs(v.items[i], os[i], show)
      {
        OutcomeIff(v.items[i], os[i], show);
      }
    }
  }

  lemma RefsIff(f: Fields, refs: seq<string>)
    ensures ReadStrs(Get(f, KNpcRefs, Arr([]))) == Some(refs) <==> RefsAre(f, refs)
  {
    var v := Get(f, KNpcRefs, Arr([]));
    if v.Arr? { ReadAllIff(ReadStr, v.items, refs); }
  }

  lemma RefIff(f: Fields, k: Key, ref: Option<string>, show: Show)
    ensures ReadOptionalRef(Get(f, k, Null), show) == ref <==> RefIs(f, k, ref, show)
  {}

  lemma ModeIff(f: Fields, exclusive: bool)
    ensures ReadMode(Get(f, KChoiceMode, Str("parallel"))) == Some(exclusive) <==> ModeIs(f, exclusive)
  {
    assert |"exclusive"| == 9 && |"parallel"| == 8;
  }

  lemma ChapterIdIff(f: Fields, chapter: Option<Id>, show: Show)
    ensures ReadOptionalId(Get(f, KChapterId, Null), show) == Some(chapter)
      <==> if KChapterId !in f || f[KChapterId] == Null then chapter == None
           else chapter.Some? && Names(f[KChapterId], chapter.value, show)
  {
    hide ReadId, Names;
    if chapter.Some? { NamesIff(Get(f, KChapterId, Null), chapter.value, show); }
  }

  lemma OptionalIff(f: Fields)
    ensures Truthy(Get(f, KOptional, Bool(false))) <==> KOptional in f && !Nothing(f[KOptional])
  {
    NothingIff(Get(f, KOptional, Bool(false)));
  }

  lemma NodeFieldsIff(f: Fields, n: Node, show: Show)
    ensures NodeFromFields(f, show) == Some(n)
      <==> && ReadId(Get(f, KId, Null), show) == Some(n.id) && ReadStr(Get(f, KType, Null)) == Some(n.kind)
           && ReadOptionalId(Get(f, KChapterId, Null), show) == Some(n.chapter)
           && ReadVisibility(Get(f, KVisibility, Str("public"))) == Some(n.visibility)
           && ReadMode(Get(f, KChoiceMode, Str("parallel"))) == Some(n.exclusive)
           && ReadTransitions(Get(f, KTransitions, Arr([])), n.exclusive, show) == Some(n.transitions)
           && ReadOutcomes(Get(f, KOnComplete, Null), show) == Some(n.onComplete)
           && ReadStrs(Get(f, KNpcRefs, Arr([]))) == Some(n.npcRefs)
           && n.optional == Truthy(Get(f, KOptional, Bool(false)))
           && Text(Get(f, KName, Null), show) == n.name && Text(Get(f, KDescription, Null), show) == n.description
           && ReadOptionalRef(Get(f, KSceneRef, Null), show) == n.sceneRef
           && ReadOptionalRef(Get(f, KEncounterRef, Null), show) == n.encounterRef
  {
    hide ReadId, ReadStr, ReadOptionalId, ReadVisibility, ReadMode, ReadTransitions, ReadOutcomes, ReadStrs, Truthy,
         Text, ReadOptionalRef, Get;
  }

  lemma NodeKeys(f: Fields, schema: int)
    ensures f.Keys <= NodeFields(schema)
      <==> forall k :: k in f ==>
             || k in {KId, KType, KChapterId, KVisibility, KOptional, KTransitions, KSceneRef, KNpcRefs, KEncounterRef,
                      KName, KDescription, KOnComplete}
             || (schema == 2 && k == KChoiceMode)
  {}

  lemma KindIff(f: Fields, kind: string)
    ensures ReadStr(Get(f, KType, Null)) == Some(kind) <==> KType in f && f[KType] == Str(kind)
  {}

  lemma NodeIff(raw: Json, schema: int, chapters: seq<Chapter>, n: Node, show: Show)
    ensures ReadNode(raw, schema, chapters, show) == Some(n)
      <==> NodeIs(raw, schema, n, show) && NodeOk(n, schema, chapters)
  {
    hide NodeFromFields, NodeFields, NodeOk, ReadId, FieldNames, Names, ReadStr, ReadOptionalId, ReadVisibility,
         VisibilityIs, ReadMode, ModeIs, ReadTransitions, TransitionsAre, ReadOutcomes, OutcomesAre, ReadStrs, RefsAre,
         Truthy, Nothing, Text, FieldSays, ReadOptionalRef, RefIs, Get;
    if raw.Obj? {
      var f := raw.fields;
      NodeFieldsIff(f, n, show);
      NodeKeys(f, schema);
      FieldNamesIff(f, KId, n.id, show);
      KindIff(f, n.kind);
      ChapterIdIff(f, n.chapter, show);
      VisibilityIff(f, n.visibility);
      ModeIff(f, n.exclusive);
      TransitionsIff(f, n.exclusive, n.transitions, show);
      OutcomesIff(f, n.onComplete, show);
      RefsIff(f, n.npcRefs);
      OptionalIff(f);
      FieldSaysIff(f, KName, n.name, show);
      FieldSaysIff(f, KDescription, n.description, show);
      RefIff(f, KSceneRef, n.sceneRef, show);
      RefIff(f, KEncounterRef, n.encounterRef, show);
    }
  }

  lemma IdsIff(f: Fields, k: Key, ids: seq<Id>, show: Show)
    ensures ReadIds(Get(f, k, Arr([])), show) == Some(ids) <==> IdsAre(f, k, ids, show)
  {
    hide ReadId, Names;
    var v := Get(f, k, Arr([]));
    if v.Arr? {
      ReadAllIff(item => ReadId(item, show), v.items, ids);
      forall i | 0 <= i < |ids| && i < |v.items|
        ensures ReadId(v.items[i], show) == Some(ids[i]) <==> Names(v.items[i], ids[i], show)
      {
        NamesIff(v.items[i], ids[i], show);
      }
    }
  }

  lemma GoalIff(raw: Json, nodes: seq<Node>, g: Goal, show: Show)
    ensures ReadGoal(raw, nodes, show) == Some(g) <==> GoalIs(raw, g, show) && GoalOk(g, nodes)
  {
    hide ReadId, FieldNames, Text, FieldSays, ReadVisibility, VisibilityIs, ReadIds, IdsAre, GoalOk, Get;
    if raw.Obj? {
      FieldNamesIff(raw.fields, KId, g.id, show);
      FieldSaysIff(raw.fields, KName, g.name, show);
      VisibilityIff(raw.fields, g.visibility);
      IdsIff(raw.fields, KNodeIds, g.nodeIds, show);
    }
  }

  lemma HasAllIff(f: Fields, k: Key)
    ensures Truthy(Get(f, k, Null)) <==> k in f && !Nothing(f[k])
  {
    NothingIff(Get(f, k, Null));
    NullIsNothing();
  }

  lemma KeysIff(f: Fields, ks: set<Key>)
    ensures f.Keys <= ks <==> OnlyHas(f, ks)
  {}

  lemma RelationKinds(v: Json)
    ensures (v.Str? && v.s in RELATION_KINDS)
      <==> v in [Str("located_at"), Str("connects"), Str("member_of"), Str("controls"), Str("hostile_to"),
                 Str("allied_with"), Str("owns")]
  {}

  lemma SeedsOkIff(f: Fields)
    ensures SeedEntityOk(f) <==> EntitySeedIs(f)
    ensures SeedRelationOk(f) <==> RelationSeedIs(f)
    ensures SeedFactOk(f) <==> FactSeedIs(f)
    ensures SeedProcessOk(f) <==> ProcessSeedIs(f)
  {
    hide Truthy, Nothing, OnlyHas;
    forall k ensures Truthy(Get(f, k, Null)) <==> k in f && !Nothing(f[k]) { HasAllIff(f, k); }
    forall ks: set<Key> ensures f.Keys <= ks <==> OnlyHas(f, ks) { KeysIff(f, ks); }
    RelationKinds(Get(f, KKind, Null));
  }

  lemma SeedsIff(f: Fields, k: Key, seeds: seq<Fields>, bound: nat)
    ensures ReadRecords(Get(f, k, Arr([]))) == Some(seeds) && |seeds| <= bound <==> SeedsAre(f, k, seeds, bound)
  {
    var v := Get(f, k, Arr([]));
    if v.Arr? { ReadAllIff(ReadFields, v.items, seeds); }
  }

  lemma SeedOkIff(s: Seed)
    ensures SeedOk(s)
      <==> && |s.entities| <= 128 && (forall i :: 0 <= i < |s.entities| ==> EntitySeedIs(s.entities[i]))
           && |s.relations| <= 128 && (forall i :: 0 <= i < |s.relations| ==> RelationSeedIs(s.relations[i]))
           && |s.facts| <= 128 && (forall i :: 0 <= i < |s.facts| ==> FactSeedIs(s.facts[i]))
           && |s.processes| <= 32 && (forall i :: 0 <= i < |s.processes| ==> ProcessSeedIs(s.processes[i]))
  {
    hide SeedEntityOk, EntitySeedIs, SeedRelationOk, RelationSeedIs, SeedFactOk, FactSeedIs, SeedProcessOk,
         ProcessSeedIs;
    forall f: Fields
      ensures SeedEntityOk(f) <==> EntitySeedIs(f)
      ensures SeedRelationOk(f) <==> RelationSeedIs(f)
      ensures SeedFactOk(f) <==> FactSeedIs(f)
      ensures SeedProcessOk(f) <==> ProcessSeedIs(f)
    {
      SeedsOkIff(f);
    }
  }

  lemma ReadSeedIff(w: Fields, s: Seed)
    ensures ReadSeed(Obj(w)) == Some(s)
      <==> && w.Keys <= {KEntities, KRelations, KFacts, KProcesses}
           && ReadRecords(Get(w, KEntities, Arr([]))) == Some(s.entities)
           && ReadRecords(Get(w, KRelations, Arr([]))) == Some(s.relations)
           && ReadRecords(Get(w, KFacts, Arr([]))) == Some(s.facts)
           && ReadRecords(Get(w, KProcesses, Arr([]))) == Some(s.processes) && SeedOk(s)
  {
    hide ReadRecords, SeedOk, Get;
  }

  lemma SeedIff(f: Fields, s: Seed)
    ensures ReadSeed(Get(f, KWorldSeed, Null)) == Some(s) <==> SeedIs(f, s)
  {
    hide ReadRecords, SeedOk, SeedsAre, OnlyHas, EntitySeedIs, RelationSeedIs, FactSeedIs, ProcessSeedIs;
    var raw := Get(f, KWorldSeed, Null);
    if raw.Obj? {
      var w := raw.fields;
      KeysIff(w, {KEntities, KRelations, KFacts, KProcesses});
      SeedsIff(w, KEntities, s.entities, 128);
      SeedsIff(w, KRelations, s.relations, 128);
      SeedsIff(w, KFacts, s.facts, 128);
      SeedsIff(w, KProcesses, s.processes, 32);
      SeedOkIff(s);
      ReadSeedIff(w, s);
    }
  }

  lemma ChaptersIff(f: Fields, cs: seq<Chapter>, show: Show)
    ensures ReadChapters(Get(f, KChapters, Arr([])), show) == Some(cs) <==> ChaptersAre(f, cs, show)
  {
    hide ReadChapter, ChapterIs;
    var v := Get(f, KChapters, Arr([]));
    if v.Arr? {
      ReadAllIff(item => ReadChapter(item, show), v.items, cs);
      forall i | 0 <= i < |cs| && i < |v.items|
        ensures ReadChapter(v.items[i], show) == Some(cs[i]) <==> ChapterIs(v.items[i], cs[i], show)
      {
        ChapterIff(v.items[i], cs[i], show);
      }
    }
  }

  lemma NodesIff(f: Fields, schema: int, chapters: seq<Chapter>, ns: seq<Node>, show: Show)
    requires forall n :: n in ns ==> NodeOk(n, schema, chapters)
    ensures ReadNodes(Get(f, KNodes, Arr([])), schema, chapters, show) == Some(ns) <==> NodesAre(f, schema, ns, show)
  {
    hide ReadNode, NodeIs, NodeOk;
    var v := Get(f, KNodes, Arr([]));
    if v.Arr? {
      ReadAllIff(item => ReadNode(item, schema, chapters, show), v.items, ns);
      forall i | 0 <= i < |ns| && i < |v.items|
        ensures ReadNode(v.items[i], schema, chapters, show) == Some(ns[i]) <==> NodeIs(v.items[i], schema, ns[i], show)
      {
        assert ns[i] in ns;
        NodeIff(v.items[i], schema, chapters, ns[i], show);
      }
    }
  }

  lemma GoalsIff(f: Fields, k: Key, nodes: seq<Node>, gs: seq<Goal>, show: Show)
    requires forall g :: g in gs ==> GoalOk(g, nodes)
    ensures ReadGoals(Get(f, k, Arr([])), nodes, show) == Some(gs) <==> GoalsAre(f, k, gs, show)
  {
    hide ReadGoal, GoalIs, GoalOk;
    var v := Get(f, k, Arr([]));
    if v.Arr? {
      ReadAllIff(item => ReadGoal(item, nodes, show), v.items, gs);
      forall i | 0 <= i < |gs| && i < |v.items|
        ensures ReadGoal(v.items[i], nodes, show) == Some(gs[i]) <==> GoalIs(v.items[i], gs[i], show)
      {
        assert gs[i] in gs;
        GoalIff(v.items[i], nodes, gs[i], show);
      }
    }
  }

  lemma SchemaIff(f: Fields, schema: int)
    ensures ReadInt(Get(f, KSchemaVersion, Int(1))) == Some(schema)
      <==> if KSchemaVersion in f then f[KSchemaVersion] == Int(schema) else schema == 1
  {}

  lemma GraphFieldsIff(f: Fields, g: Graph, show: Show)
    ensures GraphFromFields(f, show) == Some(g)
      <==> && ReadId(Get(f, KId, Null), show) == Some(g.id)
           && ReadInt(Get(f, KSchemaVersion, Int(1))) == Some(g.schema)
           && ReadVisibility(Get(f, KVisibility, Str("public"))) == Some(g.visibility)
           && ReadChapters(Get(f, KChapters, Arr([])), show) == Some(g.chapters)
           && ReadNodes(Get(f, KNodes, Arr([])), g.schema, g.chapters, show) == Some(g.nodes)
           && ReadIds(Get(f, KStartNodeIds, Arr([])), show) == Some(g.starts)
           && ReadGoals(Get(f, KObjectives, Arr([])), g.nodes, show) == Some(g.objectives)
           && ReadGoals(Get(f, KMilestones, Arr([])), g.nodes, show) == Some(g.milestones)
           && ReadSeed(Get(f, KWorldSeed, Null)) == Some(g.seed)
  {
    hide ReadId, ReadInt, ReadVisibility, ReadChapters, ReadNodes, ReadIds, ReadGoals, ReadSeed, Get;
  }

  lemma PartsOk(g: Graph)
    requires WellFormed(g)
    ensures forall n :: n in g.nodes ==> NodeOk(n, g.schema, g.chapters)
    ensures forall o :: o in g.objectives || o in g.milestones ==> GoalOk(o, g.nodes)
  {
    hide NodeOk, GoalOk, SeedOk, StartsOk, TargetsExist, Distinct;
  }

  lemma GraphKeys(f: Fields)
    ensures f.Keys <= GRAPH_FIELDS
      <==> OnlyHas(f, {KChapters, KNodes, KObjectives, KMilestones, KStartNodeIds, KVisibility, KId, KFormat, KName,
                       KSummary, KTutorial, KSchemaVersion, KKind, KSourceRef, KAutomationLevel, KEstimatedMinutes,
                       KRecommendedLevel, KPlayerCount, KWorldPolicy, KRecommendedWorldId, KWorldSeed})
  {}

  /** The validator accepts a record, with this graph, exactly if the graph is well formed and is what the record holds:
      known fields only, each of the right kind, absent ones standing for their defaults. */
  lemma AcceptedIff(raw: Json, g: Graph, show: Show)
    ensures Validated(raw, show) == Some(g) <==> raw.Obj? && RecordIs(raw.fields, g, show) && WellFormed(g)
  {
    hide GraphFromFields, WellFormed, OnlyHas, GRAPH_FIELDS, FieldNames, VisibilityIs, ChaptersAre, NodesAre, IdsAre,
         GoalsAre, SeedIs, ReadId, ReadInt, ReadVisibility, ReadChapters, ReadNodes, ReadIds, ReadGoals, ReadSeed, Get;
    if raw.Obj? && WellFormed(g) {
      var f := raw.fields;
      GraphKeys(f);
      GraphFieldsIff(f, g, show);
      FieldNamesIff(f, KId, g.id, show);
      SchemaIff(f, g.schema);
      VisibilityIff(f, g.visibility);
      ChaptersIff(f, g.chapters, show);
      PartsOk(g);
      NodesIff(f, g.schema, g.chapters, g.nodes, show);
      IdsIff(f, KStartNodeIds, g.starts, show);
      GoalsIff(f, KObjectives, g.nodes, g.objectives, show);
      GoalsIff(f, KMilestones, g.nodes, g.milestones, show);
      SeedIff(f, g.seed);
    }
  }
}
