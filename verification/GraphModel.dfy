/** The adventure graph, version 2: its records, its bounds and what makes a graph well formed. */
module GraphModel {
  import opened Values
  import opened Gates

  const MAX_CHAPTERS := 32
  const MAX_NODES := 256
  const MAX_OBJECTIVES := 64
  const MAX_MILESTONES := 64
  const MAX_TRANSITIONS_PER_NODE := 16
  const MAX_REFS_PER_NODE := 16
  const MAX_START_NODES := 16
  const MAX_OUTCOMES_PER_NODE := 16
  const MAX_CHOICE_ID := 128
  const MAX_CHOICE_LABEL := 256
  const MAX_SEED_RECORDS := 128
  const MAX_SEED_PROCESSES := 32

  const ENDING := "ending"
  const NODE_TYPES := ["scene", "objective", "encounter", "decision", "milestone", "reference", ENDING]
  const PROGRESS_EVENT_KINDS := ["node_completed", "objective_completed", "milestone_reached"]
  const RELATION_KINDS := ["located_at", "connects", "member_of", "controls", "hostile_to", "allied_with", "owns"]

  datatype Visibility = Public | Gm

  datatype Chapter = Chapter(id: Id, name: string, visibility: Visibility)

  datatype Choice = Choice(id: Id, text: string)

  /** A transition of an exclusive node declares a choice; one of a parallel node does not. */
  datatype Transition = Transition(to: Id, conditions: seq<Gate>, choice: Option<Choice>)

  datatype Outcome =
    | WorldOp(op: Fields)
    | ItemReward(ref: Json, recipient: string)
    | ProgressEvent(kind: string, id: string)

  datatype Node = Node(
    id: Id, kind: string, chapter: Option<Id>, visibility: Visibility, optional: bool,
    name: string, description: string, transitions: seq<Transition>, exclusive: bool,
    onComplete: seq<Outcome>, sceneRef: Option<string>, encounterRef: Option<string>, npcRefs: seq<string>)

  /** An objective or a milestone. */
  datatype Goal = Goal(id: Id, name: string, visibility: Visibility, nodeIds: seq<Id>)

  datatype Seed = Seed(entities: seq<Fields>, relations: seq<Fields>, facts: seq<Fields>, processes: seq<Fields>)

  const NO_SEED := Seed([], [], [], [])

  datatype Graph = Graph(
    id: Id, schema: int, seed: Seed, visibility: Visibility, chapters: seq<Chapter>, nodes: seq<Node>,
    objectives: seq<Goal>, milestones: seq<Goal>, starts: seq<Id>)

  // ---- well-formedness ----

  function ChapterIds(cs: seq<Chapter>): seq<Id> { Map((c: Chapter) => c.id, cs) }
  function NodeIds(ns: seq<Node>): seq<Id> { Map((n: Node) => n.id, ns) }
  function GoalIds(gs: seq<Goal>): seq<Id> { Map((g: Goal) => g.id, gs) }

  predicate TransitionOk(t: Transition, exclusive: bool) {
    && IsId(t.to)
    && GatesOk(t.conditions)
    && t.choice.Some? == exclusive
    && (exclusive ==>
          && IsId(t.choice.value.id) && |t.choice.value.id| <= MAX_CHOICE_ID
          && t.choice.value.text != "" && Strip(t.choice.value.text) == t.choice.value.text
          && |t.choice.value.text| <= MAX_CHOICE_LABEL)
  }

  predicate DistinctChoices(ts: seq<Transition>)
    requires forall t :: t in ts ==> t.choice.Some?
  {
    forall i, j :: 0 <= i < j < |ts| ==> ts[i].choice.value.id != ts[j].choice.value.id
  }

  predicate OutcomeOk(o: Outcome) {
    match o
    case WorldOp(op) => Truthy(Get(op, KOp, Null))
    case ItemReward(ref, _) => Truthy(ref)
    case ProgressEvent(kind, _) => kind in PROGRESS_EVENT_KINDS
  }

  predicate CompletesNode(o: Outcome) { o.ProgressEvent? && o.kind == "node_completed" }

  predicate NodeOk(n: Node, schema: int, chapters: seq<Chapter>) {
    && IsId(n.id)
    && n.kind in NODE_TYPES
    && (n.chapter.Some? ==>
          exists c :: c in chapters && c.id == n.chapter.value && (n.visibility.Public? ==> c.visibility.Public?))
    && |n.transitions| <= MAX_TRANSITIONS_PER_NODE
    && (forall t :: t in n.transitions ==> TransitionOk(t, n.exclusive))
    && (n.exclusive ==> schema == 2 && n.transitions != [] && DistinctChoices(n.transitions))
    && |n.onComplete| <= MAX_OUTCOMES_PER_NODE
    && (forall o :: o in n.onComplete ==> OutcomeOk(o))
    && (n.kind == ENDING ==>
          !n.exclusive && n.transitions == [] && forall o :: o in n.onComplete ==> !CompletesNode(o))
    && (n.sceneRef.Some? ==> IsRef(n.sceneRef.value))
    && (n.encounterRef.Some? ==> IsRef(n.encounterRef.value))
    && |n.npcRefs| <= MAX_REFS_PER_NODE
    && (forall r :: r in n.npcRefs ==> IsRef(r))
  }

  /** Every node a public goal names must be public itself. */
  predicate GoalOk(g: Goal, nodes: seq<Node>) {
    && IsId(g.id)
    && |g.nodeIds| <= MAX_NODES
    && forall id :: id in g.nodeIds ==>
         exists n :: n in nodes && n.id == id && (g.visibility.Public? ==> n.visibility.Public?)
  }

  predicate GoalsOk(gs: seq<Goal>, nodes: seq<Node>, bound: nat) {
    |gs| <= bound && Distinct(GoalIds(gs)) && forall g :: g in gs ==> GoalOk(g, nodes)
  }

  predicate SeedEntityOk(f: Fields) {
    && Truthy(Get(f, KEntityId, Null)) && Truthy(Get(f, KKind, Null))
    && f.Keys <= {KEntityId, KKind, KVisibility, KSourceRef}
  }

  predicate SeedRelationOk(f: Fields) {
    && Truthy(Get(f, KRelationId, Null)) && Truthy(Get(f, KKind, Null))
    && Truthy(Get(f, KFromRef, Null)) && Truthy(Get(f, KToRef, Null))
    && f.Keys <= {KRelationId, KKind, KFromRef, KToRef, KVisibility, KSourceRef}
    && (var kind := Get(f, KKind, Null); kind.Str? && kind.s in RELATION_KINDS)
  }

  predicate SeedFactOk(f: Fields) {
    Truthy(Get(f, KKey, Null)) && KValue in f && f.Keys <= {KKey, KValue, KVisibility}
  }

  predicate SeedProcessOk(f: Fields) {
    && Truthy(Get(f, KProcessId, Null)) && Truthy(Get(f, KKind, Null))
    && f.Keys <= {KProcessId, KKind, KParticipants, KLocation, KDueAt, KVisibility, KSourceRef}
  }

  predicate SeedOk(s: Seed) {
    && |s.entities| <= MAX_SEED_RECORDS && (forall f :: f in s.entities ==> SeedEntityOk(f))
    && |s.relations| <= MAX_SEED_RECORDS && (forall f :: f in s.relations ==> SeedRelationOk(f))
    && |s.facts| <= MAX_SEED_RECORDS && (forall f :: f in s.facts ==> SeedFactOk(f))
    && |s.processes| <= MAX_SEED_PROCESSES && (forall f :: f in s.processes ==> SeedProcessOk(f))
  }

  predicate TargetsExist(nodes: seq<Node>) {
    forall n, t :: n in nodes && t in n.transitions ==> t.to in NodeIds(nodes)
  }

  predicate StartsOk(starts: seq<Id>, nodes: seq<Node>) {
    && 0 < |starts| <= MAX_START_NODES
    && forall s :: s in starts ==> IsId(s) && s in NodeIds(nodes)
  }

  predicate WellFormed(g: Graph) {
    && IsId(g.id)
    && g.schema in {1, 2}
    && |g.chapters| <= MAX_CHAPTERS
    && Distinct(ChapterIds(g.chapters))
    && (forall c :: c in g.chapters ==> IsId(c.id))
    && 0 < |g.nodes| <= MAX_NODES
    && Distinct(NodeIds(g.nodes))
    && (forall n :: n in g.nodes ==> NodeOk(n, g.schema, g.chapters))
    && StartsOk(g.starts, g.nodes)
    && TargetsExist(g.nodes)
    && GoalsOk(g.objectives, g.nodes, MAX_OBJECTIVES)
    && GoalsOk(g.milestones, g.nodes, MAX_MILESTONES)
    && SeedOk(g.seed)
  }

  // ---- looking nodes up ----

  /** `{node["id"]: node for node in nodes}`: the last node with the id. */
  function NodeMap(nodes: seq<Node>): (m: map<Id, Node>)
    ensures m.Keys == Elems(NodeIds(nodes))
    ensures forall id :: id in m ==> m[id] in nodes && m[id].id == id
  {
    if nodes == [] then map[]
    else
      var n := nodes[|nodes| - 1];
      var rest := nodes[..|nodes| - 1];
      assert nodes == rest + [n];
      assert Elems(NodeIds(nodes)) == Elems(NodeIds(rest)) + {n.id} by {
        assert NodeIds(nodes) == NodeIds(rest) + [n.id];
      }
      NodeMap(rest)[n.id := n]
  }

  lemma NodeMapUnique(nodes: seq<Node>, n: Node)
    requires Distinct(NodeIds(nodes)) && n in nodes
    ensures n.id in NodeMap(nodes) && NodeMap(nodes)[n.id] == n
  {
    var i :| 0 <= i < |nodes| && nodes[i] == n;
    assert NodeIds(nodes)[i] == n.id;
    var m := NodeMap(nodes)[n.id];
    var j :| 0 <= j < |nodes| && nodes[j] == m;
    assert NodeIds(nodes)[j] == m.id;
  }

  lemma NodeIdsMember(nodes: seq<Node>, id: Id)
    ensures id in NodeIds(nodes) <==> exists n :: n in nodes && n.id == id
  {
    if id in NodeIds(nodes) {
      var i :| 0 <= i < |nodes| && NodeIds(nodes)[i] == id;
      assert nodes[i] in nodes;
    }
    if n :| n in nodes && n.id == id {
      var i :| 0 <= i < |nodes| && nodes[i] == n;
      assert NodeIds(nodes)[i] == id;
    }
  }
}
