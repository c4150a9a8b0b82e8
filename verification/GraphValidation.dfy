/** Validating an arbitrary record into an adventure graph.

    `Validated` says what acceptance means: the record has only known fields, each field reads,
    and the graph so read is well formed.  The methods below make the checks one at a time, with
    the loops and early exits of the validator, and are proved to compute exactly that. */
module GraphValidation {
  import opened Values
  import opened Gates
  import opened GraphModel

  // ---- reading single records ----

  function ReadVisibility(v: Json): Option<Visibility> {
    if v == Str("public") then Some(Public) else if v == Str("gm") then Some(Gm) else None
  }

  /** `choice_mode`: whether a node's transitions are exclusive choices. */
  function ReadMode(v: Json): Option<bool> {
    if v == Str("parallel") then Some(false) else if v == Str("exclusive") then Some(true) else None
  }

  function ReadOutcome(raw: Json, show: Show): Option<Outcome> {
    if !raw.Obj? then None
    else
      var f := raw.fields;
      var kind := Text(Get(f, KType, Null), show);
      if kind == "world_op" then
        var op := Get(f, KOp, Null);
        if op.Obj? && Truthy(Get(op.fields, KOp, Null)) then Some(WorldOp(op.fields)) else None
      else if kind == "item_reward" then
        var ref := Get(f, KRef, Null);
        if f.Keys <= {KType, KRef, KRecipientUid} && Truthy(ref)
        then Some(ItemReward(ref, Text(Get(f, KRecipientUid, Null), show))) else None
      else if kind == "progress_event" then
        var event := Text(Get(f, KKind, Null), show);
        if f.Keys <= {KType, KKind, KId} && event in PROGRESS_EVENT_KINDS
        then Some(ProgressEvent(event, Text(Get(f, KId, Null), show))) else None
      else None
  }

  function ReadChoice(f: Fields, show: Show): Option<Choice> {
    var id :- ReadId(Get(f, KChoiceId, Null), show);
    var text := Get(f, KChoiceLabel, Null);
    if |id| > MAX_CHOICE_ID || !text.Str? || Strip(text.s) == "" || |text.s| > MAX_CHOICE_LABEL then None
    else Some(Choice(id, Strip(text.s)))
  }

  function ReadTransition(raw: Json, exclusive: bool, show: Show): Option<Transition> {
    if !raw.Obj? then None
    else
      var f := raw.fields;
      if !(f.Keys <= {KTo, KConditions} + if exclusive then {KChoiceId, KChoiceLabel} else {}) then None
      else
        var to :- ReadId(Get(f, KTo, Null), show);
        var conditions :- ReadGates(Get(f, KConditions, Arr([])), show);
        if !exclusive then Some(Transition(to, conditions, None))
        else
          var choice :- ReadChoice(f, show);
          Some(Transition(to, conditions, Some(choice)))
  }

  function ReadChapter(raw: Json, show: Show): Option<Chapter> {
    if !raw.Obj? then None
    else
      var id :- ReadId(Get(raw.fields, KId, Null), show);
      var visibility :- ReadVisibility(Get(raw.fields, KVisibility, Str("public")));
      Some(Chapter(id, Text(Get(raw.fields, KName, Null), show), visibility))
  }

  /** An optional identifier field: absent or null reads as none. */
  function ReadOptionalId(v: Json, show: Show): Option<Option<Id>> {
    if v.Null? then Some(None)
    else
      var id :- ReadId(v, show);
      Some(Some(id))
  }

  function ReadOptionalRef(v: Json, show: Show): Option<string> {
    if v.Null? then None else if v.Str? then Some(v.s) else Some(show(v))
  }

  function ReadStr(v: Json): Option<string> { if v.Str? then Some(v.s) else None }

  function ReadInt(v: Json): Option<int> { if v.Int? then Some(v.n) else None }

  function ReadStrs(v: Json): Option<seq<string>> { if v.Arr? then ReadAll(ReadStr, v.items) else None }

  function ReadIds(v: Json, show: Show): Option<seq<Id>> {
    if v.Arr? then ReadAll(item => ReadId(item, show), v.items) else None
  }

  function ReadTransitions(v: Json, exclusive: bool, show: Show): Option<seq<Transition>> {
    if v.Arr? then ReadAll(item => ReadTransition(item, exclusive, show), v.items) else None
  }

  function ReadOutcomes(v: Json, show: Show): Option<seq<Outcome>> {
    if v.Null? then Some([]) else if v.Arr? then ReadAll(item => ReadOutcome(item, show), v.items) else None
  }

  function NodeFields(schema: int): set<Key> {
    {KId, KType, KChapterId, KVisibility, KOptional, KTransitions, KSceneRef, KNpcRefs, KEncounterRef,
     KName, KDescription, KOnComplete} + if schema == 2 then {KChoiceMode} else {}
  }

  function NodeFromFields(f: Fields, show: Show): Option<Node> {
    var id :- ReadId(Get(f, KId, Null), show);
    var kind :- ReadStr(Get(f, KType, Null));
    var chapter :- ReadOptionalId(Get(f, KChapterId, Null), show);
    var visibility :- ReadVisibility(Get(f, KVisibility, Str("public")));
    var exclusive :- ReadMode(Get(f, KChoiceMode, Str("parallel")));
    var transitions :- ReadTransitions(Get(f, KTransitions, Arr([])), exclusive, show);
    var outcomes :- ReadOutcomes(Get(f, KOnComplete, Null), show);
    var npcRefs :- ReadStrs(Get(f, KNpcRefs, Arr([])));
    Some(Node(id, kind, chapter, visibility, Truthy(Get(f, KOptional, Bool(false))),
              Text(Get(f, KName, Null), show), Text(Get(f, KDescription, Null), show),
              transitions, exclusive, outcomes,
              ReadOptionalRef(Get(f, KSceneRef, Null), show),
              ReadOptionalRef(Get(f, KEncounterRef, Null), show), npcRefs))
  }

  function ReadNode(raw: Json, schema: int, chapters: seq<Chapter>, show: Show): Option<Node> {
    if !raw.Obj? || !(raw.fields.Keys <= NodeFields(schema)) then None
    else
      var n :- NodeFromFields(raw.fields, show);
      if NodeOk(n, schema, chapters) then Some(n) else None
  }

  function ReadGoal(raw: Json, nodes: seq<Node>, show: Show): Option<Goal> {
    if !raw.Obj? then None
    else
      var f := raw.fields;
      var id :- ReadId(Get(f, KId, Null), show);
      var visibility :- ReadVisibility(Get(f, KVisibility, Str("public")));
      var nodeIds :- ReadIds(Get(f, KNodeIds, Arr([])), show);
      var g := Goal(id, Text(Get(f, KName, Null), show), visibility, nodeIds);
      if GoalOk(g, nodes) then Some(g) else None
  }

  function ReadFields(v: Json): Option<Fields> { if v.Obj? then Some(v.fields) else None }

  function ReadRecords(v: Json): Option<seq<Fields>> { if v.Arr? then ReadAll(ReadFields, v.items) else None }

  function ReadSeed(raw: Json): Option<Seed> {
    if raw.Null? then Some(Seed([], [], [], []))
    else if !raw.Obj? || !(raw.fields.Keys <= {KEntities, KRelations, KFacts, KProcesses}) then None
    else
      var entities :- ReadRecords(Get(raw.fields, KEntities, Arr([])));
      var relations :- ReadRecords(Get(raw.fields, KRelations, Arr([])));
      var facts :- ReadRecords(Get(raw.fields, KFacts, Arr([])));
      var processes :- ReadRecords(Get(raw.fields, KProcesses, Arr([])));
      var seed := Seed(entities, relations, facts, processes);
      if SeedOk(seed) then Some(seed) else None
  }

  // ---- what acceptance means ----

  const GRAPH_FIELDS: set<Key> :=
    {KChapters, KNodes, KObjectives, KMilestones, KStartNodeIds, KVisibility, KId, KFormat, KName, KSummary,
     KTutorial, KSchemaVersion, KKind, KSourceRef, KAutomationLevel, KEstimatedMinutes, KRecommendedLevel,
     KPlayerCount, KWorldPolicy, KRecommendedWorldId, KWorldSeed}

  function ReadChapters(v: Json, show: Show): Option<seq<Chapter>> {
    if v.Arr? then ReadAll(item => ReadChapter(item, show), v.items) else None
  }

  function ReadNodes(v: Json, schema: int, chapters: seq<Chapter>, show: Show): Option<seq<Node>> {
    if v.Arr? then ReadAll(item => ReadNode(item, schema, chapters, show), v.items) else None
  }

  function ReadGoals(v: Json, nodes: seq<Node>, show: Show): Option<seq<Goal>> {
    if v.Arr? then ReadAll(item => ReadGoal(item, nodes, show), v.items) else None
  }

  function GraphFromFields(f: Fields, show: Show): Option<Graph> {
    var id :- ReadId(Get(f, KId, Null), show);
    var schema :- ReadInt(Get(f, KSchemaVersion, Int(1)));
    var visibility :- ReadVisibility(Get(f, KVisibility, Str("public")));
    var chapters :- ReadChapters(Get(f, KChapters, Arr([])), show);
    var nodes :- ReadNodes(Get(f, KNodes, Arr([])), schema, chapters, show);
    var starts :- ReadIds(Get(f, KStartNodeIds, Arr([])), show);
    var objectives :- ReadGoals(Get(f, KObjectives, Arr([])), nodes, show);
    var milestones :- ReadGoals(Get(f, KMilestones, Arr([])), nodes, show);
    var seed :- ReadSeed(Get(f, KWorldSeed, Null));
    Some(Graph(id, schema, seed, visibility, chapters, nodes, objectives, milestones, starts))
  }

  function Validated(raw: Json, show: Show): Option<Graph> {
    if !raw.Obj? || !(raw.fields.Keys <= GRAPH_FIELDS) then None
    else
      var g :- GraphFromFields(raw.fields, show);
      if WellFormed(g) then Some(g) else None
  }

  // ---- the record the validator returns ----

  function EncodeVisibility(v: Visibility): Json { Str(if v.Public? then "public" else "gm") }

  function EncodeOption(s: Option<string>): Json { if s.Some? then Str(s.value) else Null }

  function EncodeStrs(ss: seq<string>): Json { Arr(Map((s: string) => Str(s), ss)) }

  function EncodeTransition(t: Transition): Json {
    var base: Fields := map[KTo := Str(t.to), KConditions := EncodeGates(t.conditions)];
    Obj(if t.choice.None? then base
        else base[KChoiceId := Str(t.choice.value.id)][KChoiceLabel := Str(t.choice.value.text)])
  }

  function EncodeOutcome(o: Outcome): Json {
    match o
    case WorldOp(op) => Obj(map[KType := Str("world_op"), KOp := Obj(op)])
    case ItemReward(ref, recipient) =>
      Obj(map[KType := Str("item_reward"), KRef := ref, KRecipientUid := Str(recipient)])
    case ProgressEvent(kind, id) => Obj(map[KType := Str("progress_event"), KKind := Str(kind), KId := Str(id)])
  }

  function EncodeChapter(c: Chapter): Json {
    Obj(map[KId := Str(c.id), KName := Str(c.name), KVisibility := EncodeVisibility(c.visibility)])
  }

  function NodeRecord(n: Node): Fields {
    map[KId := Str(n.id), KType := Str(n.kind), KChapterId := EncodeOption(n.chapter),
        KVisibility := EncodeVisibility(n.visibility), KOptional := Bool(n.optional), KName := Str(n.name),
        KDescription := Str(n.description), KTransitions := Arr(Map(EncodeTransition, n.transitions)),
        KOnComplete := Arr(Map(EncodeOutcome, n.onComplete)), KSceneRef := EncodeOption(n.sceneRef),
        KEncounterRef := EncodeOption(n.encounterRef), KNpcRefs := EncodeStrs(n.npcRefs)]
  }

  function EncodeNode(n: Node): (r: Json)
    ensures r.Obj?
  {
    Obj(if n.exclusive then NodeRecord(n)[KChoiceMode := Str("exclusive")] else NodeRecord(n))
  }

  function EncodeGoal(g: Goal): Json {
    Obj(map[KId := Str(g.id), KName := Str(g.name), KVisibility := EncodeVisibility(g.visibility),
            KNodeIds := EncodeStrs(g.nodeIds)])
  }

  function EncodeRecords(fs: seq<Fields>): Json { Arr(Map((f: Fields) => Obj(f), fs)) }

  function EncodeSeed(s: Seed): Json {
    Obj(map[KEntities := EncodeRecords(s.entities), KRelations := EncodeRecords(s.relations),
            KFacts := EncodeRecords(s.facts), KProcesses := EncodeRecords(s.processes)])
  }

  function Encode(g: Graph): Json {
    Obj(map[KId := Str(g.id), KSchemaVersion := Int(g.schema), KFormat := Str("diceframe:adventure-graph-v2"),
            KWorldSeed := EncodeSeed(g.seed), KVisibility := EncodeVisibility(g.visibility),
            KChapters := Arr(Map(EncodeChapter, g.chapters)), KNodes := Arr(Map(EncodeNode, g.nodes)),
            KObjectives := Arr(Map(EncodeGoal, g.objectives)), KMilestones := Arr(Map(EncodeGoal, g.milestones)),
            KStartNodeIds := EncodeStrs(g.starts)])
  }

  // ---- round trips, record by record ----

  lemma StrsRoundTrip(ss: seq<string>)
    ensures ReadStrs(EncodeStrs(ss)) == Some(ss)
  {
    var r := ReadStrs(EncodeStrs(ss));
    assert r.Some? && r.value == ss;
  }

  lemma IdsRoundTrip(ids: seq<Id>, show: Show)
    requires forall id :: id in ids ==> IsId(id)
    ensures ReadIds(EncodeStrs(ids), show) == Some(ids)
  {
    var raw := EncodeStrs(ids);
    forall i | 0 <= i < |ids| ensures ReadId(raw.items[i], show) == Some(ids[i]) {
      assert ids[i] in ids;
    }
    var r := ReadIds(raw, show);
    assert r.Some? && r.value == ids;
  }

  lemma TransitionRoundTrip(t: Transition, exclusive: bool, show: Show)
    requires TransitionOk(t, exclusive)
    ensures ReadTransition(EncodeTransition(t), exclusive, show) == Some(t)
  {
    GatesRoundTrip(t.conditions, show);
    var f := EncodeTransition(t).fields;
    assert f.Keys == {KTo, KConditions} + if exclusive then {KChoiceId, KChoiceLabel} else {};
  }

  lemma TransitionsRoundTrip(ts: seq<Transition>, exclusive: bool, show: Show)
    requires forall t :: t in ts ==> TransitionOk(t, exclusive)
    ensures ReadTransitions(Arr(Map(EncodeTransition, ts)), exclusive, show) == Some(ts)
  {
    var raw := Arr(Map(EncodeTransition, ts));
    forall i | 0 <= i < |ts| ensures ReadTransition(raw.items[i], exclusive, show) == Some(ts[i]) {
      assert ts[i] in ts;
      TransitionRoundTrip(ts[i], exclusive, show);
    }
    var r := ReadTransitions(raw, exclusive, show);
    assert r.Some? && r.value == ts;
  }

  lemma OutcomeRoundTrip(o: Outcome, show: Show)
    requires OutcomeOk(o)
    ensures ReadOutcome(EncodeOutcome(o), show) == Some(o)
  {
    var f := EncodeOutcome(o).fields;
    match o
    case WorldOp(_) => assert Get(f, KType, Null) == Str("world_op");
    case ItemReward(_, _) =>
      assert Get(f, KType, Null) == Str("item_reward");
      assert f.Keys == {KType, KRef, KRecipientUid};
    case ProgressEvent(kind, _) =>
      assert Get(f, KType, Null) == Str("progress_event");
      assert f.Keys == {KType, KKind, KId};
  }

  lemma OutcomesRoundTrip(os: seq<Outcome>, show: Show)
    requires forall o :: o in os ==> OutcomeOk(o)
    ensures ReadOutcomes(Arr(Map(EncodeOutcome, os)), show) == Some(os)
  {
    var raw := Arr(Map(EncodeOutcome, os));
    forall i | 0 <= i < |os| ensures ReadOutcome(raw.items[i], show) == Some(os[i]) {
      assert os[i] in os;
      OutcomeRoundTrip(os[i], show);
    }
    var r := ReadOutcomes(raw, show);
    assert r.Some? && r.value == os;
  }

  lemma ChapterRoundTrip(c: Chapter, show: Show)
    requires IsId(c.id)
    ensures ReadChapter(EncodeChapter(c), show) == Some(c)
  {
  }

  lemma ChaptersRoundTrip(cs: seq<Chapter>, show: Show)
    requires forall c :: c in cs ==> IsId(c.id)
    ensures ReadChapters(Arr(Map(EncodeChapter, cs)), show) == Some(cs)
  {
    var raw := Arr(Map(EncodeChapter, cs));
    forall i | 0 <= i < |cs| ensures ReadChapter(raw.items[i], show) == Some(cs[i]) {
      assert cs[i] in cs;
      ChapterRoundTrip(cs[i], show);
    }
    var r := ReadChapters(raw, show);
    assert r.Some? && r.value == cs;
  }

  lemma NodeFieldsRead(f: Fields, n: Node, show: Show)
    requires ReadId(Get(f, KId, Null), show) == Some(n.id)
    requires ReadStr(Get(f, KType, Null)) == Some(n.kind)
    requires ReadOptionalId(Get(f, KChapterId, Null), show) == Some(n.chapter)
    requires ReadVisibility(Get(f, KVisibility, Str("public"))) == Some(n.visibility)
    requires Truthy(Get(f, KOptional, Bool(false))) == n.optional
    requires Text(Get(f, KName, Null), show) == n.name && Text(Get(f, KDescription, Null), show) == n.description
    requires ReadMode(Get(f, KChoiceMode, Str("parallel"))) == Some(n.exclusive)
    requires ReadTransitions(Get(f, KTransitions, Arr([])), n.exclusive, show) == Some(n.transitions)
    requires ReadOutcomes(Get(f, KOnComplete, Null), show) == Some(n.onComplete)
    requires ReadOptionalRef(Get(f, KSceneRef, Null), show) == n.sceneRef
    requires ReadOptionalRef(Get(f, KEncounterRef, Null), show) == n.encounterRef
    requires ReadStrs(Get(f, KNpcRefs, Arr([]))) == Some(n.npcRefs)
    ensures NodeFromFields(f, show) == Some(n)
  {
    hide ReadId, ReadTransitions, ReadOutcomes, ReadStrs, ReadOptionalId, Text, Get;
  }

  lemma EncodedNodeFields(n: Node)
    ensures EncodeNode(n).Obj? && EncodeNode(n).fields.Keys == NodeFields(if n.exclusive then 2 else 1)
  {
    assert NodeRecord(n).Keys == NodeFields(1);
  }

  lemma EncodedNode(n: Node)
    ensures var f := EncodeNode(n).fields;
      && Get(f, KId, Null) == Str(n.id) && Get(f, KType, Null) == Str(n.kind)
      && Get(f, KChapterId, Null) == EncodeOption(n.chapter)
      && Get(f, KVisibility, Str("public")) == EncodeVisibility(n.visibility)
      && Get(f, KOptional, Bool(false)) == Bool(n.optional)
      && Get(f, KName, Null) == Str(n.name) && Get(f, KDescription, Null) == Str(n.description)
      && Get(f, KTransitions, Arr([])) == Arr(Map(EncodeTransition, n.transitions))
      && Get(f, KOnComplete, Null) == Arr(Map(EncodeOutcome, n.onComplete))
      && Get(f, KSceneRef, Null) == EncodeOption(n.sceneRef)
      && Get(f, KEncounterRef, Null) == EncodeOption(n.encounterRef)
      && Get(f, KNpcRefs, Arr([])) == EncodeStrs(n.npcRefs)
      && Get(f, KChoiceMode, Str("parallel")) == Str(if n.exclusive then "exclusive" else "parallel")
  {
    hide EncodeOption, EncodeVisibility, EncodeStrs;
  }

  lemma EncodedNodeReads(n: Node, show: Show)
    requires IsId(n.id) && (n.chapter.Some? ==> IsId(n.chapter.value))
    requires forall t :: t in n.transitions ==> TransitionOk(t, n.exclusive)
    requires forall o :: o in n.onComplete ==> OutcomeOk(o)
    ensures NodeFromFields(EncodeNode(n).fields, show) == Some(n)
  {
    hide IsId, TransitionOk, OutcomeOk, ReadTransitions, ReadOutcomes, ReadStrs, EncodeNode, Get, Strip, ReadId,
         NodeFromFields;
    EncodedNode(n);
    TransitionsRoundTrip(n.transitions, n.exclusive, show);
    OutcomesRoundTrip(n.onComplete, show);
    StrsRoundTrip(n.npcRefs);
    NodeFieldsRead(EncodeNode(n).fields, n, show);
  }

  lemma NodeRoundTrip(n: Node, schema: int, chapters: seq<Chapter>, show: Show)
    requires NodeOk(n, schema, chapters) && (forall c :: c in chapters ==> IsId(c.id))
    ensures ReadNode(EncodeNode(n), schema, chapters, show) == Some(n)
  {
    hide NodeFromFields, EncodeNode, IsId, IsRef;
    EncodedNodeFields(n);
    EncodedNodeReads(n, show);
  }

  lemma NodesRoundTrip(ns: seq<Node>, schema: int, chapters: seq<Chapter>, show: Show)
    requires forall n :: n in ns ==> NodeOk(n, schema, chapters)
    requires forall c :: c in chapters ==> IsId(c.id)
    ensures ReadNodes(Arr(Map(EncodeNode, ns)), schema, chapters, show) == Some(ns)
  {
    var raw := Arr(Map(EncodeNode, ns));
    forall i | 0 <= i < |ns| ensures ReadNode(raw.items[i], schema, chapters, show) == Some(ns[i]) {
      assert ns[i] in ns;
      NodeRoundTrip(ns[i], schema, chapters, show);
    }
    var r := ReadNodes(raw, schema, chapters, show);
    assert r.Some? && r.value == ns;
  }

  lemma GoalRoundTrip(g: Goal, nodes: seq<Node>, show: Show)
    requires GoalOk(g, nodes) && forall n :: n in nodes ==> IsId(n.id)
    ensures ReadGoal(EncodeGoal(g), nodes, show) == Some(g)
  {
    hide IsId, ReadIds;
    IdsRoundTrip(g.nodeIds, show);
  }

  lemma GoalsRoundTrip(gs: seq<Goal>, nodes: seq<Node>, show: Show)
    requires forall g :: g in gs ==> GoalOk(g, nodes)
    requires forall n :: n in nodes ==> IsId(n.id)
    ensures ReadGoals(Arr(Map(EncodeGoal, gs)), nodes, show) == Some(gs)
  {
    hide GoalOk, ReadGoal, EncodeGoal, IsId;
    var raw := Arr(Map(EncodeGoal, gs));
    forall i | 0 <= i < |gs| ensures ReadGoal(raw.items[i], nodes, show) == Some(gs[i]) {
      assert gs[i] in gs;
      GoalRoundTrip(gs[i], nodes, show);
    }
    var r := ReadGoals(raw, nodes, show);
    assert r.Some? && r.value == gs;
  }

  lemma RecordsRoundTrip(fs: seq<Fields>)
    ensures ReadRecords(EncodeRecords(fs)) == Some(fs)
  {
    var r := ReadRecords(EncodeRecords(fs));
    assert r.Some? && r.value == fs;
  }

  lemma SeedRoundTrip(s: Seed)
    requires SeedOk(s)
    ensures ReadSeed(EncodeSeed(s)) == Some(s)
  {
    RecordsRoundTrip(s.entities);
    RecordsRoundTrip(s.relations);
    RecordsRoundTrip(s.facts);
    RecordsRoundTrip(s.processes);
    assert EncodeSeed(s).fields.Keys == {KEntities, KRelations, KFacts, KProcesses};
  }

  // ---- normal form ----

  lemma GraphFieldsRead(f: Fields, g: Graph, show: Show)
    requires ReadId(Get(f, KId, Null), show) == Some(g.id)
    requires ReadInt(Get(f, KSchemaVersion, Int(1))) == Some(g.schema)
    requires ReadVisibility(Get(f, KVisibility, Str("public"))) == Some(g.visibility)
    requires ReadChapters(Get(f, KChapters, Arr([])), show) == Some(g.chapters)
    requires ReadNodes(Get(f, KNodes, Arr([])), g.schema, g.chapters, show) == Some(g.nodes)
    requires ReadIds(Get(f, KStartNodeIds, Arr([])), show) == Some(g.starts)
    requires ReadGoals(Get(f, KObjectives, Arr([])), g.nodes, show) == Some(g.objectives)
    requires ReadGoals(Get(f, KMilestones, Arr([])), g.nodes, show) == Some(g.milestones)
    requires ReadSeed(Get(f, KWorldSeed, Null)) == Some(g.seed)
    ensures GraphFromFields(f, show) == Some(g)
  {
    hide ReadId, ReadChapters, ReadNodes, ReadGoals, ReadIds, ReadSeed, Get;
  }

  lemma NodesHaveIds(g: Graph)
    requires WellFormed(g)
    ensures forall n :: n in g.nodes ==> IsId(n.id)
  {
    forall n | n in g.nodes ensures IsId(n.id) { assert NodeOk(n, g.schema, g.chapters); }
  }

  lemma EncodedGraphReads(g: Graph, show: Show)
    requires WellFormed(g)
    ensures GraphFromFields(Encode(g).fields, show) == Some(g)
  {
    hide NodeOk, GoalOk, SeedOk, ReadChapters, ReadNodes, ReadGoals, ReadIds, ReadSeed, GraphFromFields, TargetsExist,
         EncodeSeed, IsId;
    ChaptersRoundTrip(g.chapters, show);
    NodesRoundTrip(g.nodes, g.schema, g.chapters, show);
    IdsRoundTrip(g.starts, show);
    NodesHaveIds(g);
    GoalsRoundTrip(g.objectives, g.nodes, show);
    GoalsRoundTrip(g.milestones, g.nodes, show);
    SeedRoundTrip(g.seed);
    GraphFieldsRead(Encode(g).fields, g, show);
  }

  /** Every well-formed graph is accepted as it stands and comes back unchanged. */
  lemma WellFormedIsFixed(g: Graph, show: Show)
    requires WellFormed(g)
    ensures Validated(Encode(g), show) == Some(g)
  {
    hide WellFormed, GraphFromFields;
    EncodedGraphReads(g, show);
  }

  /** The graphs the validator can return are exactly the well-formed ones, and validating what it
      returned succeeds again and changes nothing. */
  lemma ValidatorNormalForm(g: Graph, show: Show)
    ensures WellFormed(g) <==> exists raw :: Validated(raw, show) == Some(g)
    ensures (exists raw :: Validated(raw, show) == Some(g)) ==> Validated(Encode(g), show) == Some(g)
  {
    if WellFormed(g) { WellFormedIsFixed(g, show); }
  }

  // ---- the checks, one at a time ----

  method ValidateTransitions(v: Json, exclusive: bool, show: Show) returns (r: Option<seq<Transition>>)
    ensures var spec := ReadTransitions(v, exclusive, show);
            r == if spec.Some? && |spec.value| <= MAX_TRANSITIONS_PER_NODE then spec else None
  {
    hide ReadTransition;
    if !v.Arr? || |v.items| > MAX_TRANSITIONS_PER_NODE { return None; }
    var out: seq<Transition> := [];
    for i := 0 to |v.items|
      invariant |out| == i
      invariant forall k :: 0 <= k < i ==> ReadTransition(v.items[k], exclusive, show) == Some(out[k])
    {
      var t := ReadTransition(v.items[i], exclusive, show);
      if t.None? { return None; }
      out := out + [t.value];
    }
    var spec := ReadTransitions(v, exclusive, show);
    assert spec.Some? && spec.value == out;
    return Some(out);
  }

  method ValidateOutcomes(raw: Json, show: Show) returns (r: Option<seq<Outcome>>)
    ensures var spec := ReadOutcomes(raw, show);
            r == if spec.Some? && |spec.value| <= MAX_OUTCOMES_PER_NODE then spec else None
  {
    hide ReadOutcome;
    if raw.Null? { return Some([]); }
    if !raw.Arr? || |raw.items| > MAX_OUTCOMES_PER_NODE { return None; }
    var out: seq<Outcome> := [];
    for i := 0 to |raw.items|
      invariant |out| == i
      invariant forall k :: 0 <= k < i ==> ReadOutcome(raw.items[k], show) == Some(out[k])
    {
      var o := ReadOutcome(raw.items[i], show);
      if o.None? { return None; }
      out := out + [o.value];
    }
    var spec := ReadOutcomes(raw, show);
    assert spec.Some? && spec.value == out;
    return Some(out);
  }

  method ValidateNpcRefs(v: Json) returns (r: Option<seq<string>>)
    ensures var spec := ReadStrs(v);
            r == if spec.Some? && |spec.value| <= MAX_REFS_PER_NODE && (forall s :: s in spec.value ==> IsRef(s))
                 then spec else None
  {
    hide IsRef;
    if !v.Arr? || |v.items| > MAX_REFS_PER_NODE { return None; }
    ghost var spec := ReadStrs(v);
    var out: seq<string> := [];
    for i := 0 to |v.items|
      invariant |out| == i
      invariant forall k :: 0 <= k < i ==> ReadStr(v.items[k]) == Some(out[k]) && IsRef(out[k])
    {
      if !v.items[i].Str? || !IsRef(v.items[i].s) {
        assert spec.Some? ==> ReadStr(v.items[i]) == Some(spec.value[i]);
        return None;
      }
      out := out + [v.items[i].s];
    }
    assert spec.Some? && spec.value == out;
    return Some(out);
  }

  /** `chapters.get(id)`. */
  function FindChapter(chapters: seq<Chapter>, id: Id): (r: Option<Chapter>)
    ensures r.Some? ==> r.value in chapters && r.value.id == id
    ensures r.None? ==> forall c :: c in chapters ==> c.id != id
  {
    if chapters == [] then None
    else if chapters[|chapters| - 1].id == id then Some(chapters[|chapters| - 1])
    else FindChapter(chapters[..|chapters| - 1], id)
  }

  lemma ChapterUnique(chapters: seq<Chapter>, c: Chapter, d: Chapter)
    requires Distinct(ChapterIds(chapters)) && c in chapters && d in chapters && c.id == d.id
    ensures c == d
  {
    var i :| 0 <= i < |chapters| && chapters[i] == c;
    var j :| 0 <= j < |chapters| && chapters[j] == d;
    assert ChapterIds(chapters)[i] == ChapterIds(chapters)[j];
  }

  /** What the fields say about the node read from them, and when they read at all. */
  lemma NodeFieldsSay(f: Fields, show: Show)
    ensures var r := NodeFromFields(f, show);
      && (r.Some? <==>
            && ReadId(Get(f, KId, Null), show).Some? && ReadStr(Get(f, KType, Null)).Some?
            && ReadOptionalId(Get(f, KChapterId, Null), show).Some?
            && ReadVisibility(Get(f, KVisibility, Str("public"))).Some?
            && ReadMode(Get(f, KChoiceMode, Str("parallel"))).Some?
            && ReadTransitions(Get(f, KTransitions, Arr([])),
                               ReadMode(Get(f, KChoiceMode, Str("parallel"))).value, show).Some?
            && ReadOutcomes(Get(f, KOnComplete, Null), show).Some?
            && ReadStrs(Get(f, KNpcRefs, Arr([]))).Some?)
      && (r.Some? ==>
            && ReadId(Get(f, KId, Null), show) == Some(r.value.id)
            && ReadStr(Get(f, KType, Null)) == Some(r.value.kind)
            && ReadOptionalId(Get(f, KChapterId, Null), show) == Some(r.value.chapter)
            && ReadVisibility(Get(f, KVisibility, Str("public"))) == Some(r.value.visibility)
            && Truthy(Get(f, KOptional, Bool(false))) == r.value.optional
            && Text(Get(f, KName, Null), show) == r.value.name
            && Text(Get(f, KDescription, Null), show) == r.value.description
            && ReadMode(Get(f, KChoiceMode, Str("parallel"))) == Some(r.value.exclusive)
            && ReadTransitions(Get(f, KTransitions, Arr([])), r.value.exclusive, show) == Some(r.value.transitions)
            && ReadOutcomes(Get(f, KOnComplete, Null), show) == Some(r.value.onComplete)
            && ReadOptionalRef(Get(f, KSceneRef, Null), show) == r.value.sceneRef
            && ReadOptionalRef(Get(f, KEncounterRef, Null), show) == r.value.encounterRef
            && ReadStrs(Get(f, KNpcRefs, Arr([]))) == Some(r.value.npcRefs))
  {
    hide ReadId, ReadStr, ReadTransitions, ReadOutcomes, ReadStrs, ReadOptionalId, ReadOptionalRef, ReadMode,
         ReadVisibility, Text, Get;
  }

  lemma TransitionsReadOk(v: Json, exclusive: bool, show: Show)
    ensures var r := ReadTransitions(v, exclusive, show);
            r.Some? ==> forall t :: t in r.value ==> TransitionOk(t, exclusive)
  {
    hide IsId, GatesOk;
    var r := ReadTransitions(v, exclusive, show);
    if r.Some? {
      forall t | t in r.value ensures TransitionOk(t, exclusive) {
        var i :| 0 <= i < |r.value| && r.value[i] == t;
        assert ReadTransition(v.items[i], exclusive, show) == Some(t);
        ReadGatesOk(Get(v.items[i].fields, KConditions, Arr([])), show);
      }
    }
  }

  lemma OutcomesReadOk(v: Json, show: Show)
    ensures var r := ReadOutcomes(v, show); r.Some? ==> forall o :: o in r.value ==> OutcomeOk(o)
  {
    var r := ReadOutcomes(v, show);
    if r.Some? && v.Arr? {
      forall o | o in r.value ensures OutcomeOk(o) {
        var i :| 0 <= i < |r.value| && r.value[i] == o;
        assert ReadOutcome(v.items[i], show) == Some(o);
      }
    }
  }

  /** The chapter clause of a node: the chapter exists and, for a public node, is public. */
  method CheckChapter(chapter: Option<Id>, visibility: Visibility, chapters: seq<Chapter>) returns (ok: bool)
    requires Distinct(ChapterIds(chapters))
    ensures ok <==> (chapter.Some? ==>
      exists c :: c in chapters && c.id == chapter.value && (visibility.Public? ==> c.visibility.Public?))
  {
    if chapter.None? { return true; }
    var known := FindChapter(chapters, chapter.value);
    if known.None? { return false; }
    forall c | c in chapters && c.id == chapter.value ensures c == known.value {
      ChapterUnique(chapters, c, known.value);
    }
    return !(visibility.Public? && known.value.visibility.Gm?);
  }

  method CheckChoices(transitions: seq<Transition>) returns (ok: bool)
    requires forall t :: t in transitions ==> t.choice.Some?
    ensures ok <==> transitions != [] && DistinctChoices(transitions)
  {
    var identities: seq<Id> := [];
    for i := 0 to |transitions|
      invariant |identities| == i
      invariant forall k :: 0 <= k < i ==> identities[k] == transitions[k].choice.value.id
    {
      identities := identities + [transitions[i].choice.value.id];
    }
    DistinctSize(identities);
    ok := identities != [] && |Elems(identities)| == |identities|;
    assert Distinct(identities) <==> DistinctChoices(transitions);
  }

  /** `choice_mode` is a schema 2 field, so only schema 2 graphs have exclusive nodes. */
  lemma ExclusiveNeedsSchema2(f: Fields, schema: int)
    requires f.Keys <= NodeFields(schema) && ReadMode(Get(f, KChoiceMode, Str("parallel"))) == Some(true)
    ensures schema == 2
  {
    assert |"parallel"| == 8;
    assert KChoiceMode in f;
  }

  lemma TransitionsHaveChoices(ts: seq<Transition>)
    requires forall t :: t in ts ==> TransitionOk(t, true)
    ensures forall t :: t in ts ==> t.choice.Some?
  {
    forall t | t in ts ensures t.choice.Some? { assert TransitionOk(t, true); }
  }

  method ValidateNode(raw: Json, schema: int, chapters: seq<Chapter>, show: Show) returns (r: Option<Node>)
    requires Distinct(ChapterIds(chapters))
    ensures r == ReadNode(raw, schema, chapters, show)
  {
    hide IsId, IsRef, TransitionOk, OutcomeOk, ReadTransitions, ReadOutcomes, ReadStrs, NodeFromFields, ReadId,
         ReadOptionalId, ReadOptionalRef, ReadVisibility, Get, Distinct, ChapterIds;
    if !raw.Obj? || !(raw.fields.Keys <= NodeFields(schema)) { return None; }
    var f := raw.fields;
    NodeFieldsSay(f, show);

    var id := ReadId(Get(f, KId, Null), show);
    if id.None? { return None; }
    var kind := ReadStr(Get(f, KType, Null));
    if kind.None? || kind.value !in NODE_TYPES { return None; }
    var chapter := ReadOptionalId(Get(f, KChapterId, Null), show);
    if chapter.None? { return None; }
    var visibility := ReadVisibility(Get(f, KVisibility, Str("public")));
    if visibility.None? { return None; }
    var chapterOk := CheckChapter(chapter.value, visibility.value, chapters);
    if !chapterOk { return None; }
    var sceneRef := ReadOptionalRef(Get(f, KSceneRef, Null), show);
    if sceneRef.Some? && !IsRef(sceneRef.value) { return None; }
    var encounterRef := ReadOptionalRef(Get(f, KEncounterRef, Null), show);
    if encounterRef.Some? && !IsRef(encounterRef.value) { return None; }
    var npcRefs := ValidateNpcRefs(Get(f, KNpcRefs, Arr([])));
    if npcRefs.None? { return None; }
    var exclusive := ReadMode(Get(f, KChoiceMode, Str("parallel")));
    if exclusive.None? { return None; }
    var transitions := ValidateTransitions(Get(f, KTransitions, Arr([])), exclusive.value, show);
    if transitions.None? { return None; }
    TransitionsReadOk(Get(f, KTransitions, Arr([])), exclusive.value, show);
    if kind.value == ENDING && (transitions.value != [] || exclusive.value) { return None; }
    if exclusive.value {
      ExclusiveNeedsSchema2(f, schema);
      TransitionsHaveChoices(transitions.value);
      var choicesOk := CheckChoices(transitions.value);
      if !choicesOk { return None; }
    }
    var outcomes := ValidateOutcomes(Get(f, KOnComplete, Null), show);
    if outcomes.None? { return None; }
    OutcomesReadOk(Get(f, KOnComplete, Null), show);
    if kind.value == ENDING && exists o :: o in outcomes.value && CompletesNode(o) { return None; }
    var n := Node(id.value, kind.value, chapter.value, visibility.value, Truthy(Get(f, KOptional, Bool(false))),
                  Text(Get(f, KName, Null), show), Text(Get(f, KDescription, Null), show), transitions.value,
                  exclusive.value, outcomes.value, sceneRef, encounterRef, npcRefs.value);
    return Some(n);
  }

  method ValidateChapters(v: Json, show: Show) returns (r: Option<seq<Chapter>>)
    ensures var spec := ReadChapters(v, show);
            r == if spec.Some? && |spec.value| <= MAX_CHAPTERS && Distinct(ChapterIds(spec.value)) then spec else None
  {
    hide ReadChapter;
    if !v.Arr? || |v.items| > MAX_CHAPTERS { return None; }
    ghost var spec := ReadChapters(v, show);
    var out: seq<Chapter> := [];
    var ids: set<Id> := {};
    for i := 0 to |v.items|
      invariant |out| == i && ids == Elems(ChapterIds(out)) && Distinct(ChapterIds(out))
      invariant forall k :: 0 <= k < i ==> ReadChapter(v.items[k], show) == Some(out[k])
    {
      var c := ReadChapter(v.items[i], show);
      if c.None? { return None; }
      if c.value.id in ids {
        var j :| 0 <= j < i && ChapterIds(out)[j] == c.value.id;
        if spec.Some? { assert ChapterIds(spec.value)[j] == ChapterIds(spec.value)[i]; }
        return None;
      }
      assert ChapterIds(out + [c.value]) == ChapterIds(out) + [c.value.id];
      out, ids := out + [c.value], ids + {c.value.id};
    }
    assert spec.Some? && spec.value == out;
    return Some(out);
  }

  method ValidateNodes(v: Json, schema: int, chapters: seq<Chapter>, show: Show) returns (r: Option<seq<Node>>)
    requires Distinct(ChapterIds(chapters))
    ensures var spec := ReadNodes(v, schema, chapters, show);
            r == if spec.Some? && 0 < |spec.value| <= MAX_NODES && Distinct(NodeIds(spec.value)) then spec else None
  {
    hide ReadNode;
    if !v.Arr? || |v.items| > MAX_NODES { return None; }
    ghost var spec := ReadNodes(v, schema, chapters, show);
    var out: seq<Node> := [];
    var ids: set<Id> := {};
    for i := 0 to |v.items|
      invariant |out| == i && ids == Elems(NodeIds(out)) && Distinct(NodeIds(out))
      invariant forall k :: 0 <= k < i ==> ReadNode(v.items[k], schema, chapters, show) == Some(out[k])
    {
      var n := ValidateNode(v.items[i], schema, chapters, show);
      if n.None? { return None; }
      if n.value.id in ids {
        var j :| 0 <= j < i && NodeIds(out)[j] == n.value.id;
        if spec.Some? { assert NodeIds(spec.value)[j] == NodeIds(spec.value)[i]; }
        return None;
      }
      assert NodeIds(out + [n.value]) == NodeIds(out) + [n.value.id];
      out, ids := out + [n.value], ids + {n.value.id};
    }
    assert spec.Some? && spec.value == out;
    return if out == [] then None else Some(out);
  }

  method ValidateStarts(v: Json, nodes: seq<Node>, show: Show) returns (r: Option<seq<Id>>)
    ensures var spec := ReadIds(v, show);
            r == if spec.Some? && StartsOk(spec.value, nodes) then spec else None
  {
    hide IsId, ReadId, NodeIds;
    if !v.Arr? || |v.items| > MAX_START_NODES { return None; }
    var spec := ReadIds(v, show);
    if spec.None? || spec.value == [] { return None; }
    var ids := Elems(NodeIds(nodes));
    for i := 0 to |spec.value|
      invariant forall k :: 0 <= k < i ==> spec.value[k] in ids
    {
      if spec.value[i] !in ids { return None; }
    }
    forall s | s in spec.value ensures IsId(s) && s in NodeIds(nodes) {
      var k :| 0 <= k < |spec.value| && spec.value[k] == s;
      assert ReadId(v.items[k], show) == Some(s);
    }
    return spec;
  }

  method CheckTargets(nodes: seq<Node>) returns (ok: bool)
    ensures ok <==> TargetsExist(nodes)
  {
    var ids := Elems(NodeIds(nodes));
    for i := 0 to |nodes|
      invariant forall k, t :: 0 <= k < i && t in nodes[k].transitions ==> t.to in ids
    {
      var ts := nodes[i].transitions;
      for j := 0 to |ts|
        invariant forall k :: 0 <= k < j ==> ts[k].to in ids
      {
        if ts[j].to !in ids {
          assert nodes[i] in nodes && ts[j] in nodes[i].transitions;
          return false;
        }
      }
    }
    return true;
  }

  method ValidateGoal(raw: Json, nodes: seq<Node>, show: Show) returns (r: Option<Goal>)
    requires Distinct(NodeIds(nodes))
    ensures r == ReadGoal(raw, nodes, show)
  {
    hide IsId, Get, NodeIds, ReadId, ReadIds, ReadVisibility, Text, Distinct, NodeMap;
    if !raw.Obj? { return None; }
    var f := raw.fields;
    var id := ReadId(Get(f, KId, Null), show);
    if id.None? { return None; }
    var visibility := ReadVisibility(Get(f, KVisibility, Str("public")));
    if visibility.None? { return None; }
    var nodeIds := ReadIds(Get(f, KNodeIds, Arr([])), show);
    if nodeIds.None? || |nodeIds.value| > MAX_NODES { return None; }
    var byId := NodeMap(nodes);
    for i := 0 to |nodeIds.value|
      invariant forall k :: 0 <= k < i ==>
        && nodeIds.value[k] in byId
        && (visibility.value.Public? ==> byId[nodeIds.value[k]].visibility.Public?)
    {
      var nodeId := nodeIds.value[i];
      if nodeId !in byId || (visibility.value.Public? && byId[nodeId].visibility.Gm?) {
        forall n | n in nodes && n.id == nodeId ensures nodeId in byId && byId[nodeId] == n {
          NodeMapUnique(nodes, n);
        }
        assert nodeId in nodeIds.value;
        return None;
      }
    }
    var g := Goal(id.value, Text(Get(f, KName, Null), show), visibility.value, nodeIds.value);
    forall x | x in g.nodeIds
      ensures exists n :: n in nodes && n.id == x && (g.visibility.Public? ==> n.visibility.Public?)
    {
      var k :| 0 <= k < |g.nodeIds| && g.nodeIds[k] == x;
      assert byId[x] in nodes;
    }
    return Some(g);
  }

  lemma GoalReadOk(raw: Json, nodes: seq<Node>, show: Show)
    ensures ReadGoal(raw, nodes, show).Some? ==> GoalOk(ReadGoal(raw, nodes, show).value, nodes)
  {
    hide GoalOk, ReadId, ReadIds, Get, ReadVisibility, Text;
  }

  lemma GoalsReadOk(v: Json, nodes: seq<Node>, show: Show)
    ensures var r := ReadGoals(v, nodes, show); r.Some? ==> forall g :: g in r.value ==> GoalOk(g, nodes)
  {
    hide GoalOk, ReadGoal;
    var r := ReadGoals(v, nodes, show);
    if r.Some? {
      forall g | g in r.value ensures GoalOk(g, nodes) {
        var i :| 0 <= i < |r.value| && r.value[i] == g;
        GoalReadOk(v.items[i], nodes, show);
      }
    }
  }

  /** Objectives and milestones share this check; only the bound differs. */
  method ValidateGoals(v: Json, nodes: seq<Node>, bound: nat, show: Show) returns (r: Option<seq<Goal>>)
    requires Distinct(NodeIds(nodes))
    ensures var spec := ReadGoals(v, nodes, show);
            r == if spec.Some? && GoalsOk(spec.value, nodes, bound) then spec else None
  {
    hide ReadGoal, GoalOk;
    if !v.Arr? || |v.items| > bound { return None; }
    ghost var spec := ReadGoals(v, nodes, show);
    GoalsReadOk(v, nodes, show);
    var out: seq<Goal> := [];
    var seen: set<Id> := {};
    for i := 0 to |v.items|
      invariant |out| == i && seen == Elems(GoalIds(out)) && Distinct(GoalIds(out))
      invariant forall k :: 0 <= k < i ==> ReadGoal(v.items[k], nodes, show) == Some(out[k])
    {
      var g := ValidateGoal(v.items[i], nodes, show);
      if g.None? { return None; }
      if g.value.id in seen {
        var j :| 0 <= j < i && GoalIds(out)[j] == g.value.id;
        if spec.Some? { assert GoalIds(spec.value)[j] == GoalIds(spec.value)[i]; }
        return None;
      }
      assert GoalIds(out + [g.value]) == GoalIds(out) + [g.value.id];
      out, seen := out + [g.value], seen + {g.value.id};
    }
    assert spec.Some? && spec.value == out;
    return Some(out);
  }

  /** What the fields say about the graph read from them, and when they read at all. */
  lemma GraphFieldsSay(f: Fields, show: Show)
    ensures var r := GraphFromFields(f, show);
            r.Some? ==>
              && ReadId(Get(f, KId, Null), show) == Some(r.value.id)
              && ReadInt(Get(f, KSchemaVersion, Int(1))) == Some(r.value.schema)
              && ReadVisibility(Get(f, KVisibility, Str("public"))) == Some(r.value.visibility)
              && ReadChapters(Get(f, KChapters, Arr([])), show) == Some(r.value.chapters)
              && ReadNodes(Get(f, KNodes, Arr([])), r.value.schema, r.value.chapters, show) == Some(r.value.nodes)
              && ReadIds(Get(f, KStartNodeIds, Arr([])), show) == Some(r.value.starts)
              && ReadGoals(Get(f, KObjectives, Arr([])), r.value.nodes, show) == Some(r.value.objectives)
              && ReadGoals(Get(f, KMilestones, Arr([])), r.value.nodes, show) == Some(r.value.milestones)
              && ReadSeed(Get(f, KWorldSeed, Null)) == Some(r.value.seed)
  {
    hide ReadId, ReadVisibility, ReadChapters, ReadNodes, ReadGoals, ReadIds, ReadSeed, Get;
  }

  lemma ChaptersReadOk(v: Json, show: Show)
    ensures var r := ReadChapters(v, show); r.Some? ==> forall c :: c in r.value ==> IsId(c.id)
  {
    var r := ReadChapters(v, show);
    if r.Some? {
      forall c | c in r.value ensures IsId(c.id) {
        var i :| 0 <= i < |r.value| && r.value[i] == c;
        assert ReadChapter(v.items[i], show) == Some(c);
      }
    }
  }

  lemma NodesReadOk(v: Json, schema: int, chapters: seq<Chapter>, show: Show)
    ensures var r := ReadNodes(v, schema, chapters, show);
            r.Some? ==> forall n :: n in r.value ==> NodeOk(n, schema, chapters)
  {
    hide NodeOk;
    var r := ReadNodes(v, schema, chapters, show);
    if r.Some? {
      forall n | n in r.value ensures NodeOk(n, schema, chapters) {
        var i :| 0 <= i < |r.value| && r.value[i] == n;
        assert ReadNode(v.items[i], schema, chapters, show) == Some(n);
      }
    }
  }

  lemma SeedReadOk(v: Json)
    ensures ReadSeed(v).Some? ==> SeedOk(ReadSeed(v).value)
  {}

  method ValidateGraph(raw: Json, show: Show) returns (r: Option<Graph>)
    ensures r == Validated(raw, show)
  {
    hide ReadId, ReadVisibility, ReadChapters, ReadNodes, ReadGoals, ReadIds, ReadSeed, Get, GraphFromFields,
         Distinct, GoalsOk, NodeOk, StartsOk, TargetsExist, SeedOk, IsId, NodeIds, ChapterIds;
    if !raw.Obj? || !(raw.fields.Keys <= GRAPH_FIELDS) { return None; }
    var f := raw.fields;
    GraphFieldsSay(f, show);

    var id := ReadId(Get(f, KId, Null), show);
    if id.None? { return None; }
    var schema := ReadInt(Get(f, KSchemaVersion, Int(1)));
    if schema.None? || schema.value !in {1, 2} { return None; }
    var visibility := ReadVisibility(Get(f, KVisibility, Str("public")));
    if visibility.None? { return None; }
    var chapters := ValidateChapters(Get(f, KChapters, Arr([])), show);
    if chapters.None? { return None; }
    var nodes := ValidateNodes(Get(f, KNodes, Arr([])), schema.value, chapters.value, show);
    if nodes.None? { return None; }
    var starts := ValidateStarts(Get(f, KStartNodeIds, Arr([])), nodes.value, show);
    if starts.None? { return None; }
    var targetsOk := CheckTargets(nodes.value);
    if !targetsOk { return None; }
    var objectives := ValidateGoals(Get(f, KObjectives, Arr([])), nodes.value, MAX_OBJECTIVES, show);
    if objectives.None? { return None; }
    var milestones := ValidateGoals(Get(f, KMilestones, Arr([])), nodes.value, MAX_MILESTONES, show);
    if milestones.None? { return None; }
    var seed := ReadSeed(Get(f, KWorldSeed, Null));
    if seed.None? { return None; }
    ChaptersReadOk(Get(f, KChapters, Arr([])), show);
    NodesReadOk(Get(f, KNodes, Arr([])), schema.value, chapters.value, show);
    SeedReadOk(Get(f, KWorldSeed, Null));
    GraphFieldsRead(f, Graph(id.value, schema.value, seed.value, visibility.value, chapters.value, nodes.value,
                             objectives.value, milestones.value, starts.value), show);
    return Some(Graph(id.value, schema.value, seed.value, visibility.value, chapters.value, nodes.value,
                      objectives.value, milestones.value, starts.value));
  }

  lemma EmptyListsRead(nodes: seq<Node>, show: Show)
    ensures ReadChapters(Arr([]), show) == Some([]) && ReadGoals(Arr([]), nodes, show) == Some([])
    ensures ReadSeed(Null) == Some(NO_SEED) && ReadVisibility(Str("public")) == Some(Public)
  {}
}
