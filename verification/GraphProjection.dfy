/** What a viewer may see of a graph.  The game master sees all of it; a player sees only the
    public records, and nothing in the player's view depends on the secret ones. */
module GraphProjection {
  import opened Values
  import opened Gates
  import opened GraphModel
  import opened Reachability
  import opened GraphTraversal

  /** `conditions` is absent from a player's transition. */
  datatype TransitionView = TransitionView(to: Id, choice: Option<Choice>, conditions: Option<seq<Gate>>)

  /** The fields that a player's copy of a node drops. */
  datatype NodeSecrets = NodeSecrets(onComplete: seq<Outcome>, encounterRef: Option<string>, npcRefs: seq<string>)

  datatype NodeView = NodeView(
    id: Id, kind: string, chapter: Option<Id>, visibility: Visibility, optional: bool, name: string,
    description: string, transitions: seq<TransitionView>, exclusive: bool, sceneRef: Option<string>,
    secrets: Option<NodeSecrets>)

  datatype View = View(
    id: Id, visibility: Visibility, forGm: bool, available: bool, chapters: seq<Chapter>, nodes: seq<NodeView>,
    objectives: seq<Goal>, milestones: seq<Goal>, starts: seq<Id>)

  // ---- picking records ----

  function PublicNodes(ns: seq<Node>): seq<Node> { Filter((n: Node) => n.visibility.Public?, ns) }

  function PublicChapters(cs: seq<Chapter>): seq<Chapter> { Filter((c: Chapter) => c.visibility.Public?, cs) }

  function PublicGoals(gs: seq<Goal>): seq<Goal> { Filter((o: Goal) => o.visibility.Public?, gs) }

  function NodesIn(ids: set<Id>, ns: seq<Node>): seq<Node> { Filter((n: Node) => n.id in ids, ns) }

  function EdgesInto(ids: set<Id>, ts: seq<Transition>): seq<Transition> {
    Filter((t: Transition) => t.to in ids, ts)
  }

  function IdsIn(ids: set<Id>, xs: seq<Id>): seq<Id> { Filter((x: Id) => x in ids, xs) }

  function VisibleIds(g: Graph): set<Id> { Elems(NodeIds(PublicNodes(g.nodes))) }

  function VisibleChapterIds(g: Graph): set<Id> { Elems(ChapterIds(PublicChapters(g.chapters))) }

  function KnownChapter(c: Option<Id>, chapters: set<Id>): Option<Id> {
    if c.Some? && c.value in chapters then c else None
  }

  // ---- the projection ----

  function ForPlayer(t: Transition): TransitionView { TransitionView(t.to, t.choice, None) }

  function ForGm(t: Transition): TransitionView { TransitionView(t.to, t.choice, Some(t.conditions)) }

  function PlayerNode(n: Node, visible: set<Id>, chapters: set<Id>): NodeView {
    NodeView(n.id, n.kind, KnownChapter(n.chapter, chapters), n.visibility, n.optional, n.name, n.description,
             Map(ForPlayer, EdgesInto(visible, n.transitions)), n.exclusive, n.sceneRef, None)
  }

  function GmNode(n: Node): NodeView {
    NodeView(n.id, n.kind, n.chapter, n.visibility, n.optional, n.name, n.description, Map(ForGm, n.transitions),
             n.exclusive, n.sceneRef, Some(NodeSecrets(n.onComplete, n.encounterRef, n.npcRefs)))
  }

  function PlayerNodes(ns: seq<Node>, visible: set<Id>, chapters: set<Id>): seq<NodeView> {
    Map((n: Node) => PlayerNode(n, visible, chapters), NodesIn(visible, ns))
  }

  function PlayerGoals(gs: seq<Goal>, visible: set<Id>): seq<Goal> {
    Map((o: Goal) => o.(nodeIds := IdsIn(visible, o.nodeIds)), PublicGoals(gs))
  }

  function Project(g: Graph, viewerIsGm: bool): View {
    if viewerIsGm then
      View(g.id, g.visibility, true, true, g.chapters, Map(GmNode, g.nodes), g.objectives, g.milestones, g.starts)
    else if g.visibility.Gm? then
      View(g.id, Gm, false, false, [], [], [], [], [])
    else
      var visible := VisibleIds(g);
      View(g.id, g.visibility, false, true, PublicChapters(g.chapters),
           PlayerNodes(g.nodes, visible, VisibleChapterIds(g)),
           PlayerGoals(g.objectives, visible), PlayerGoals(g.milestones, visible), IdsIn(visible, g.starts))
  }

  // ---- deleting every secret ----

  function Ungated(t: Transition): Transition { t.(conditions := []) }

  function RedactNode(n: Node, visible: set<Id>, chapters: set<Id>): Node {
    n.(chapter := KnownChapter(n.chapter, chapters),
       transitions := Map(Ungated, EdgesInto(visible, n.transitions)),
       onComplete := [], encounterRef := None, npcRefs := [])
  }

  function RedactNodes(ns: seq<Node>, visible: set<Id>, chapters: set<Id>): seq<Node> {
    Map((n: Node) => RedactNode(n, visible, chapters), PublicNodes(ns))
  }

  /** The graph without its game master parts: hidden records deleted, edges into them cut, and every
      gate, outcome, encounter and NPC reference erased from what remains. */
  function Redact(g: Graph): Graph {
    if g.visibility.Gm? then Graph(g.id, 2, NO_SEED, Gm, [], [], [], [], [])
    else
      var visible := VisibleIds(g);
      Graph(g.id, 2, NO_SEED, g.visibility, PublicChapters(g.chapters),
            RedactNodes(g.nodes, visible, VisibleChapterIds(g)),
            PlayerGoals(g.objectives, visible), PlayerGoals(g.milestones, visible), IdsIn(visible, g.starts))
  }

  // ---- lemmas on filters ----

  lemma PublicNodesAre(ns: seq<Node>)
    ensures forall n :: n in PublicNodes(ns) <==> n in ns && n.visibility.Public?
    ensures (forall n :: n in ns ==> n.visibility.Public?) ==> PublicNodes(ns) == ns
  {
    Filtered((n: Node) => n.visibility.Public?, ns);
  }

  lemma PublicGoalsAre(gs: seq<Goal>)
    ensures forall o :: o in PublicGoals(gs) <==> o in gs && o.visibility.Public?
    ensures (forall o :: o in gs ==> o.visibility.Public?) ==> PublicGoals(gs) == gs
  {
    Filtered((o: Goal) => o.visibility.Public?, gs);
  }

  lemma PublicChaptersAre(cs: seq<Chapter>)
    ensures forall c :: c in PublicChapters(cs) <==> c in cs && c.visibility.Public?
    ensures (forall c :: c in cs ==> c.visibility.Public?) ==> PublicChapters(cs) == cs
  {
    Filtered((c: Chapter) => c.visibility.Public?, cs);
  }

  lemma EdgesIntoAre(ids: set<Id>, ts: seq<Transition>)
    ensures forall t :: t in EdgesInto(ids, ts) <==> t in ts && t.to in ids
    ensures (forall t :: t in ts ==> t.to in ids) ==> EdgesInto(ids, ts) == ts
  {
    Filtered((t: Transition) => t.to in ids, ts);
  }

  lemma IdsInAre(ids: set<Id>, xs: seq<Id>)
    ensures forall x :: x in IdsIn(ids, xs) <==> x in xs && x in ids
    ensures (forall x :: x in xs ==> x in ids) ==> IdsIn(ids, xs) == xs
  {
    Filtered((x: Id) => x in ids, xs);
  }

  /** With unique ids, the nodes whose id is visible are the public nodes themselves. */
  lemma VisibleNodesArePublic(g: Graph)
    requires Distinct(NodeIds(g.nodes))
    ensures NodesIn(VisibleIds(g), g.nodes) == PublicNodes(g.nodes)
    ensures forall n :: n in g.nodes ==> (n.id in VisibleIds(g) <==> n.visibility.Public?)
  {
    var visible := VisibleIds(g);
    PublicNodesAre(g.nodes);
    forall n | n in g.nodes ensures n.id in visible <==> n.visibility.Public? {
      NodeIdsMember(PublicNodes(g.nodes), n.id);
      if m :| m in PublicNodes(g.nodes) && m.id == n.id {
        NodeMapUnique(g.nodes, n);
        NodeMapUnique(g.nodes, m);
      }
    }
    FilterSame((n: Node) => n.id in visible, (n: Node) => n.visibility.Public?, g.nodes);
  }

  // ---- non-interference ----

  function NodeFromView(n: NodeView): Node {
    Node(n.id, n.kind, n.chapter, n.visibility, n.optional, n.name, n.description,
         Map((t: TransitionView) => Transition(t.to, [], t.choice), n.transitions), n.exclusive, [], n.sceneRef, None,
         [])
  }

  /** The player's view holds what the redacted graph holds: here is the graph read back from it. */
  function FromView(v: View): Graph {
    Graph(v.id, 2, NO_SEED, v.visibility, v.chapters, Map(NodeFromView, v.nodes), v.objectives, v.milestones, v.starts)
  }

  lemma RedactIsFromView(g: Graph)
    requires Distinct(NodeIds(g.nodes))
    ensures Redact(g) == FromView(Project(g, false))
  {
    VisibleNodesArePublic(g);
    var visible, chapters := VisibleIds(g), VisibleChapterIds(g);
    if g.visibility.Public? {
      forall n ensures NodeFromView(PlayerNode(n, visible, chapters)) == RedactNode(n, visible, chapters) {
        assert NodeFromView(PlayerNode(n, visible, chapters)).transitions
            == RedactNode(n, visible, chapters).transitions;
      }
      assert Redact(g).nodes == FromView(Project(g, false)).nodes;
    }
  }

  lemma FirstId(n: Node, rest: seq<Node>)
    ensures Distinct(NodeIds([n] + rest)) <==> n.id !in NodeIds(rest) && Distinct(NodeIds(rest))
  {
    assert NodeIds([n] + rest) == [n.id] + NodeIds(rest);
    DistinctCons(n.id, NodeIds(rest));
  }

  lemma {:induction false} DistinctFilter(ns: seq<Node>)
    requires Distinct(NodeIds(ns))
    ensures Distinct(NodeIds(PublicNodes(ns)))
  {
    hide Distinct, NodeIds;
    if ns != [] {
      var rest := ns[1..];
      assert ns == [ns[0]] + rest;
      FirstId(ns[0], rest);
      DistinctFilter(rest);
      PublicNodesAre(rest);
      if ns[0].visibility.Public? {
        NodeIdsMember(rest, ns[0].id);
        NodeIdsMember(PublicNodes(rest), ns[0].id);
        FirstId(ns[0], PublicNodes(rest));
      }
    }
  }

  lemma RedactedIds(g: Graph)
    requires Distinct(NodeIds(g.nodes)) && g.visibility.Public?
    ensures NodeIds(Redact(g).nodes) == NodeIds(PublicNodes(g.nodes))
    ensures PublicNodes(Redact(g).nodes) == Redact(g).nodes
    ensures Distinct(NodeIds(Redact(g).nodes))
    ensures VisibleIds(Redact(g)) == VisibleIds(g)
  {
    PublicNodesAre(g.nodes);
    PublicNodesAre(Redact(g).nodes);
    forall n | n in Redact(g).nodes ensures n.visibility.Public? {
      var i :| 0 <= i < |Redact(g).nodes| && Redact(g).nodes[i] == n;
      assert PublicNodes(g.nodes)[i] in PublicNodes(g.nodes);
    }
    DistinctFilter(g.nodes);
  }

  lemma PlayerGoalsTwice(gs: seq<Goal>, visible: set<Id>)
    ensures PlayerGoals(PlayerGoals(gs, visible), visible) == PlayerGoals(gs, visible)
  {
    var once := PlayerGoals(gs, visible);
    PublicGoalsAre(gs);
    PublicGoalsAre(once);
    forall o | o in once ensures o.visibility.Public? && IdsIn(visible, o.nodeIds) == o.nodeIds {
      var i :| 0 <= i < |once| && once[i] == o;
      assert PublicGoals(gs)[i] in PublicGoals(gs);
      IdsInAre(visible, PublicGoals(gs)[i].nodeIds);
      IdsInAre(visible, o.nodeIds);
    }
    assert PublicGoals(once) == once;
  }

  lemma RedactedNodeLooksTheSame(n: Node, visible: set<Id>, chapters: set<Id>)
    ensures PlayerNode(RedactNode(n, visible, chapters), visible, chapters) == PlayerNode(n, visible, chapters)
  {
    var m := RedactNode(n, visible, chapters);
    EdgesIntoAre(visible, n.transitions);
    EdgesIntoAre(visible, m.transitions);
    forall t | t in m.transitions ensures t.to in visible {
      var i :| 0 <= i < |m.transitions| && m.transitions[i] == t;
      assert EdgesInto(visible, n.transitions)[i] in EdgesInto(visible, n.transitions);
    }
    assert EdgesInto(visible, m.transitions) == m.transitions;
    assert PlayerNode(m, visible, chapters).transitions == PlayerNode(n, visible, chapters).transitions;
  }

  /** Deleting every game master part changes nothing a player can see. */
  lemma RedactionInvisible(g: Graph)
    requires Distinct(NodeIds(g.nodes))
    ensures Project(Redact(g), false) == Project(g, false)
  {
    if g.visibility.Public? {
      var r, visible, chapters := Redact(g), VisibleIds(g), VisibleChapterIds(g);
      VisibleNodesArePublic(g);
      RedactedIds(g);
      VisibleNodesArePublic(r);
      PublicChaptersAre(g.chapters);
      PublicChaptersAre(r.chapters);
      forall n
        ensures PlayerNode(RedactNode(n, visible, chapters), visible, chapters) == PlayerNode(n, visible, chapters)
      {
        RedactedNodeLooksTheSame(n, visible, chapters);
      }
      assert PlayerNodes(r.nodes, visible, chapters) == PlayerNodes(g.nodes, visible, chapters);
      PlayerGoalsTwice(g.objectives, visible);
      PlayerGoalsTwice(g.milestones, visible);
      IdsInAre(visible, g.starts);
      IdsInAre(visible, r.starts);
    }
  }

  /** The player's view is exactly the information in the redacted graph: two graphs look the same to a
      player if and only if they are the same once every secret is deleted. */
  lemma SameViewIffSameRedaction(g: Graph, h: Graph)
    requires Distinct(NodeIds(g.nodes)) && Distinct(NodeIds(h.nodes))
    ensures Project(g, false) == Project(h, false) <==> Redact(g) == Redact(h)
  {
    RedactIsFromView(g);
    RedactIsFromView(h);
    RedactionInvisible(g);
    RedactionInvisible(h);
  }

  lemma SameList<A, B>(f: A -> B, xs: seq<A>, ys: seq<A>)
    requires Map(f, xs) == Map(f, ys)
    requires forall x, y :: x in xs && y in ys && f(x) == f(y) ==> x == y
    ensures xs == ys
  {
    forall i | 0 <= i < |xs| ensures |xs| == |ys| && xs[i] == ys[i] {
      assert Map(f, xs)[i] == Map(f, ys)[i] && |Map(f, ys)| == |ys|;
      assert xs[i] in xs && ys[i] in ys;
    }
    assert |Map(f, xs)| == |xs| && |Map(f, ys)| == |ys|;
  }

  lemma GmNodeLosesNothing(m: Node, n: Node)
    requires GmNode(m) == GmNode(n)
    ensures m == n
  {
    SameList(ForGm, m.transitions, n.transitions);
  }

  /** The game master's view keeps every field of every record: it shows the whole graph. */
  lemma GmViewLosesNothing(g: Graph, h: Graph)
    requires Project(g, true) == Project(h, true)
    ensures g == h.(schema := g.schema, seed := g.seed)
  {
    hide GmNode;
    forall m, n | m in g.nodes && n in h.nodes && GmNode(m) == GmNode(n) ensures m == n { GmNodeLosesNothing(m, n); }
    SameList(GmNode, g.nodes, h.nodes);
  }

  // ---- secret edits ----

  /** One change to the game master's part of a graph.  Chapters, goals and starts change by a drop and an add. */
  datatype SecretEdit =
    | AddNode(at: nat, hidden: Node)
    | DropNode(at: nat)
    | SetNode(node: nat, hidden: Node)
    | AddEdge(node: nat, at: nat, edge: Transition)
    | DropEdge(node: nat, at: nat)
    | SetGates(node: nat, at: nat, gates: seq<Gate>)
    | SetSecrets(node: nat, secrets: NodeSecrets)
    | AddChapter(at: nat, chapter: Chapter)
    | DropChapter(at: nat)
    | AddObjective(at: nat, goal: Goal)
    | DropObjective(at: nat)
    | AddMilestone(at: nat, goal: Goal)
    | DropMilestone(at: nat)
    | AddStart(at: nat, id: Id)
    | DropStart(at: nat)
    | SetSeed(seed: Seed)

  function Insert<T>(s: seq<T>, at: nat, x: T): seq<T>
    requires at <= |s|
  {
    s[..at] + [x] + s[at..]
  }

  function Remove<T>(s: seq<T>, at: nat): seq<T>
    requires at < |s|
  {
    s[..at] + s[at + 1..]
  }

  /** No player sees a transition with this target at the node. */
  predicate EdgeHidden(g: Graph, i: nat, to: Id)
    requires i < |g.nodes|
  {
    g.nodes[i].visibility.Gm? || to !in VisibleIds(g)
  }

  /** The edit touches hidden things only. */
  predicate Secret(g: Graph, e: SecretEdit) {
    match e
    case AddNode(at, n) => at <= |g.nodes| && n.visibility.Gm? && n.id !in NodeIds(g.nodes)
    case DropNode(at) => at < |g.nodes| && g.nodes[at].visibility.Gm?
    case SetNode(i, n) =>
      i < |g.nodes| && g.nodes[i].visibility.Gm? && n.visibility.Gm? && n.id == g.nodes[i].id
    case AddEdge(i, at, t) => i < |g.nodes| && at <= |g.nodes[i].transitions| && EdgeHidden(g, i, t.to)
    case DropEdge(i, at) =>
      i < |g.nodes| && at < |g.nodes[i].transitions| && EdgeHidden(g, i, g.nodes[i].transitions[at].to)
    case SetGates(i, at, _) => i < |g.nodes| && at < |g.nodes[i].transitions|
    case SetSecrets(i, _) => i < |g.nodes|
    case AddChapter(at, c) => at <= |g.chapters| && c.visibility.Gm?
    case DropChapter(at) => at < |g.chapters| && g.chapters[at].visibility.Gm?
    case AddObjective(at, o) => at <= |g.objectives| && o.visibility.Gm?
    case DropObjective(at) => at < |g.objectives| && g.objectives[at].visibility.Gm?
    case AddMilestone(at, o) => at <= |g.milestones| && o.visibility.Gm?
    case DropMilestone(at) => at < |g.milestones| && g.milestones[at].visibility.Gm?
    case AddStart(at, id) => at <= |g.starts| && id !in VisibleIds(g)
    case DropStart(at) => at < |g.starts| && g.starts[at] !in VisibleIds(g)
    case SetSeed(_) => true
  }

  function EditNode(g: Graph, i: nat, n: Node): Graph
    requires i < |g.nodes|
  {
    g.(nodes := g.nodes[i := n])
  }

  function Edit(g: Graph, e: SecretEdit): Graph
    requires Secret(g, e)
  {
    match e
    case AddNode(at, n) => g.(nodes := Insert(g.nodes, at, n))
    case DropNode(at) => g.(nodes := Remove(g.nodes, at))
    case SetNode(i, n) => EditNode(g, i, n)
    case AddEdge(i, at, t) => EditNode(g, i, g.nodes[i].(transitions := Insert(g.nodes[i].transitions, at, t)))
    case DropEdge(i, at) => EditNode(g, i, g.nodes[i].(transitions := Remove(g.nodes[i].transitions, at)))
    case SetGates(i, at, gates) =>
      var ts := g.nodes[i].transitions;
      EditNode(g, i, g.nodes[i].(transitions := ts[at := ts[at].(conditions := gates)]))
    case SetSecrets(i, x) =>
      EditNode(g, i, g.nodes[i].(onComplete := x.onComplete, encounterRef := x.encounterRef, npcRefs := x.npcRefs))
    case AddChapter(at, c) => g.(chapters := Insert(g.chapters, at, c))
    case DropChapter(at) => g.(chapters := Remove(g.chapters, at))
    case AddObjective(at, o) => g.(objectives := Insert(g.objectives, at, o))
    case DropObjective(at) => g.(objectives := Remove(g.objectives, at))
    case AddMilestone(at, o) => g.(milestones := Insert(g.milestones, at, o))
    case DropMilestone(at) => g.(milestones := Remove(g.milestones, at))
    case AddStart(at, id) => g.(starts := Insert(g.starts, at, id))
    case DropStart(at) => g.(starts := Remove(g.starts, at))
    case SetSeed(seed) => g.(seed := seed)
  }

  lemma FilterInsert<T>(keep: T -> bool, s: seq<T>, at: nat, x: T)
    requires at <= |s| && !keep(x)
    ensures Filter(keep, Insert(s, at, x)) == Filter(keep, s)
  {
    hide Filter;
    FilterSkip(keep, s[..at], x, s[at..]);
    assert s[..at] + s[at..] == s;
  }

  lemma FilterRemove<T>(keep: T -> bool, s: seq<T>, at: nat)
    requires at < |s| && !keep(s[at])
    ensures Filter(keep, Remove(s, at)) == Filter(keep, s)
  {
    hide Filter;
    FilterSkip(keep, s[..at], s[at], s[at + 1..]);
    assert s[..at] + [s[at]] + s[at + 1..] == s;
  }

  /** A node keeps its public face: same id and visibility and, if it is public, the same redacted node. */
  predicate SameFace(m: Node, n: Node, visible: set<Id>, chapters: set<Id>) {
    && m.id == n.id && m.visibility == n.visibility
    && (n.visibility.Public? ==> RedactNode(m, visible, chapters) == RedactNode(n, visible, chapters))
  }

  lemma FacesRedactTheSame(ms: seq<Node>, ns: seq<Node>, visible: set<Id>, chapters: set<Id>)
    requires |ms| == |ns| && forall i :: 0 <= i < |ms| ==> SameFace(ms[i], ns[i], visible, chapters)
    ensures RedactNodes(ms, visible, chapters) == RedactNodes(ns, visible, chapters)
    ensures NodeIds(PublicNodes(ms)) == NodeIds(PublicNodes(ns)) && NodeIds(ms) == NodeIds(ns)
  {
    hide RedactNode, Filter;
    MapFilterAgree((n: Node) => n.visibility.Public?, (n: Node) => RedactNode(n, visible, chapters), ms, ns);
    MapFilterAgree((n: Node) => n.visibility.Public?, (n: Node) => n.id, ms, ns);
  }

  lemma UngatedEdgesSame(ts: seq<Transition>, us: seq<Transition>, visible: set<Id>)
    requires |ts| == |us| && forall i :: 0 <= i < |ts| ==> Ungated(ts[i]) == Ungated(us[i])
    ensures Map(Ungated, EdgesInto(visible, ts)) == Map(Ungated, EdgesInto(visible, us))
  {
    forall i | 0 <= i < |ts| ensures ts[i].to == us[i].to { assert Ungated(ts[i]) == Ungated(us[i]); }
    MapFilterAgree((t: Transition) => t.to in visible, Ungated, ts, us);
  }

  lemma EditedNodeInvisible(g: Graph, i: nat, n: Node)
    requires i < |g.nodes| && SameFace(n, g.nodes[i], VisibleIds(g), VisibleChapterIds(g))
    ensures Redact(EditNode(g, i, n)) == Redact(g)
    ensures NodeIds(EditNode(g, i, n).nodes) == NodeIds(g.nodes)
  {
    FacesRedactTheSame(g.nodes[i := n], g.nodes, VisibleIds(g), VisibleChapterIds(g));
  }

  lemma InsertKeepsDistinct(ns: seq<Node>, at: nat, n: Node)
    requires Distinct(NodeIds(ns)) && at <= |ns| && n.id !in NodeIds(ns)
    ensures Distinct(NodeIds(Insert(ns, at, n)))
  {
    var s, ids := Insert(ns, at, n), NodeIds(ns);
    forall i, j | 0 <= i < j < |s| ensures NodeIds(s)[i] != NodeIds(s)[j] {
      var a, b := if i < at then i else i - 1, if j < at then j else j - 1;
      if i != at { assert NodeIds(s)[i] == ids[a]; }
      if j != at { assert NodeIds(s)[j] == ids[b]; }
    }
  }

  lemma RemoveKeepsDistinct(ns: seq<Node>, at: nat)
    requires Distinct(NodeIds(ns)) && at < |ns|
    ensures Distinct(NodeIds(Remove(ns, at)))
  {
    var s, ids := Remove(ns, at), NodeIds(ns);
    forall i, j | 0 <= i < j < |s| ensures NodeIds(s)[i] != NodeIds(s)[j] {
      var a, b := if i < at then i else i + 1, if j < at then j else j + 1;
      assert NodeIds(s)[i] == ids[a] && NodeIds(s)[j] == ids[b];
    }
  }

  /** The edit changes one node and keeps its place in the list. */
  predicate IsNodeEdit(e: SecretEdit) { e.SetNode? || e.AddEdge? || e.DropEdge? || e.SetGates? || e.SetSecrets? }

  lemma NodeEditRedacts(g: Graph, e: SecretEdit)
    requires Secret(g, e) && IsNodeEdit(e)
    ensures NodeIds(Edit(g, e).nodes) == NodeIds(g.nodes) && Redact(Edit(g, e)) == Redact(g)
  {
    hide Redact, VisibleIds, VisibleChapterIds, Filter, NodeIds;
    var h, i, visible := Edit(g, e), e.node, VisibleIds(g);
    var ts := g.nodes[i].transitions;
    match e {
      case AddEdge(_, at, t) =>
        if t.to !in visible { FilterInsert((t: Transition) => t.to in visible, ts, at, t); }
      case DropEdge(_, at) =>
        if ts[at].to !in visible { FilterRemove((t: Transition) => t.to in visible, ts, at); }
      case SetGates(_, at, gates) => UngatedEdgesSame(h.nodes[i].transitions, ts, visible);
      case _ =>
    }
    EditedNodeInvisible(g, i, h.nodes[i]);
  }

  lemma ListEditRedacts(g: Graph, e: SecretEdit)
    requires Distinct(NodeIds(g.nodes)) && Secret(g, e) && !IsNodeEdit(e)
    ensures Distinct(NodeIds(Edit(g, e).nodes)) && Redact(Edit(g, e)) == Redact(g)
  {
    hide Filter, NodeIds, RedactNode, Distinct;
    var visible := VisibleIds(g);
    match e {
      case AddNode(at, n) =>
        FilterInsert((n: Node) => n.visibility.Public?, g.nodes, at, n);
        InsertKeepsDistinct(g.nodes, at, n);
      case DropNode(at) =>
        FilterRemove((n: Node) => n.visibility.Public?, g.nodes, at);
        RemoveKeepsDistinct(g.nodes, at);
      case AddChapter(at, c) => FilterInsert((c: Chapter) => c.visibility.Public?, g.chapters, at, c);
      case DropChapter(at) => FilterRemove((c: Chapter) => c.visibility.Public?, g.chapters, at);
      case AddObjective(at, o) => FilterInsert((o: Goal) => o.visibility.Public?, g.objectives, at, o);
      case DropObjective(at) => FilterRemove((o: Goal) => o.visibility.Public?, g.objectives, at);
      case AddMilestone(at, o) => FilterInsert((o: Goal) => o.visibility.Public?, g.milestones, at, o);
      case DropMilestone(at) => FilterRemove((o: Goal) => o.visibility.Public?, g.milestones, at);
      case AddStart(at, id) => FilterInsert((x: Id) => x in visible, g.starts, at, id);
      case DropStart(at) => FilterRemove((x: Id) => x in visible, g.starts, at);
      case SetSeed(_) =>
    }
  }

  /** No secret edit is visible to a player. */
  lemma SecretEditInvisible(g: Graph, e: SecretEdit)
    requires Distinct(NodeIds(g.nodes)) && Secret(g, e)
    ensures Distinct(NodeIds(Edit(g, e).nodes))
    ensures Project(Edit(g, e), false) == Project(g, false)
  {
    hide Redact, Project, Secret, Edit, Distinct;
    if IsNodeEdit(e) { NodeEditRedacts(g, e); } else { ListEditRedacts(g, e); }
    SameViewIffSameRedaction(g, Edit(g, e));
  }

  ghost predicate SecretEdits(g: Graph, edits: seq<SecretEdit>)
    decreases |edits|
  {
    edits == [] || (Secret(g, edits[0]) && SecretEdits(Edit(g, edits[0]), edits[1..]))
  }

  ghost function EditAll(g: Graph, edits: seq<SecretEdit>): Graph
    requires SecretEdits(g, edits)
    decreases |edits|
  {
    if edits == [] then g else EditAll(Edit(g, edits[0]), edits[1..])
  }

  /** Non-interference: however the secret part of a graph is rewritten, players see the same view. */
  lemma {:induction false} SecretsDoNotInterfere(g: Graph, edits: seq<SecretEdit>)
    requires Distinct(NodeIds(g.nodes)) && SecretEdits(g, edits)
    ensures Project(EditAll(g, edits), false) == Project(g, false)
    decreases |edits|
  {
    if edits != [] {
      SecretEditInvisible(g, edits[0]);
      SecretsDoNotInterfere(Edit(g, edits[0]), edits[1..]);
    }
  }

  // ---- references and reachability inside a view ----

  function ViewIds(v: View): set<Id> { set n | n in v.nodes :: n.id }

  function ViewEdges(v: View): Edges<Id> { set n, t | n in v.nodes && t in n.transitions :: (n.id, t.to) }

  /** Whatever a view mentions is in the view. */
  predicate ViewClosed(v: View) {
    && (forall n, t :: n in v.nodes && t in n.transitions ==> t.to in ViewIds(v))
    && (forall n :: n in v.nodes && n.chapter.Some? ==> exists c :: c in v.chapters && c.id == n.chapter.value)
    && (forall o, x :: o in v.objectives && x in o.nodeIds ==> x in ViewIds(v))
    && (forall o, x :: o in v.milestones && x in o.nodeIds ==> x in ViewIds(v))
    && (forall x :: x in v.starts ==> x in ViewIds(v))
  }

  /** The nodes a view shows, in order, and how each is shown. */
  function ShownNodes(g: Graph, viewerIsGm: bool): seq<Node> { if viewerIsGm then g.nodes else PublicNodes(g.nodes) }

  function Shown(g: Graph, viewerIsGm: bool, n: Node): NodeView {
    if viewerIsGm then GmNode(n) else PlayerNode(n, VisibleIds(g), VisibleChapterIds(g))
  }

  predicate Visible(g: Graph, viewerIsGm: bool) { viewerIsGm || g.visibility.Public? }

  lemma ViewNodesAreShown(g: Graph, viewerIsGm: bool)
    requires Distinct(NodeIds(g.nodes)) && Visible(g, viewerIsGm)
    ensures var v, shown := Project(g, viewerIsGm), ShownNodes(g, viewerIsGm);
      |v.nodes| == |shown| && forall i :: 0 <= i < |shown| ==> v.nodes[i] == Shown(g, viewerIsGm, shown[i])
    ensures forall n :: n in ShownNodes(g, viewerIsGm) ==> n in g.nodes
  {
    VisibleNodesArePublic(g);
    PublicNodesAre(g.nodes);
  }

  lemma ViewIdsAre(g: Graph, viewerIsGm: bool)
    requires Distinct(NodeIds(g.nodes)) && Visible(g, viewerIsGm)
    ensures ViewIds(Project(g, viewerIsGm)) == if viewerIsGm then Elems(NodeIds(g.nodes)) else VisibleIds(g)
  {
    hide Project;
    var v, shown := Project(g, viewerIsGm), ShownNodes(g, viewerIsGm);
    ViewNodesAreShown(g, viewerIsGm);
    forall id | id in NodeIds(shown) ensures id in ViewIds(v) {
      var i :| 0 <= i < |shown| && NodeIds(shown)[i] == id;
      assert v.nodes[i] in v.nodes && v.nodes[i].id == id;
    }
    forall id | id in ViewIds(v) ensures id in NodeIds(shown) {
      var i :| 0 <= i < |v.nodes| && v.nodes[i].id == id;
      assert NodeIds(shown)[i] == id;
    }
  }

  /** The node of the graph behind a node of the view. */
  lemma ViewNodeSource(g: Graph, viewerIsGm: bool, m: NodeView) returns (n: Node)
    requires Distinct(NodeIds(g.nodes)) && Visible(g, viewerIsGm) && m in Project(g, viewerIsGm).nodes
    ensures n in g.nodes && n.id == m.id && m == Shown(g, viewerIsGm, n)
  {
    hide Project;
    ViewNodesAreShown(g, viewerIsGm);
    var i :| 0 <= i < |Project(g, viewerIsGm).nodes| && Project(g, viewerIsGm).nodes[i] == m;
    n := ShownNodes(g, viewerIsGm)[i];
  }

  /** The transition of the graph behind a transition of the view. */
  lemma ViewTransitionSource(g: Graph, viewerIsGm: bool, n: Node, t: TransitionView) returns (behind: Transition)
    requires t in Shown(g, viewerIsGm, n).transitions
    ensures behind in n.transitions && behind.to == t.to
    ensures behind.choice == t.choice
    ensures !viewerIsGm ==> t.to in VisibleIds(g)
  {
    hide VisibleIds;
    var m := Shown(g, viewerIsGm, n);
    var i :| 0 <= i < |m.transitions| && m.transitions[i] == t;
    EdgesIntoAre(VisibleIds(g), n.transitions);
    behind := if viewerIsGm then n.transitions[i] else EdgesInto(VisibleIds(g), n.transitions)[i];
    assert !viewerIsGm ==> behind in EdgesInto(VisibleIds(g), n.transitions);
  }

  /** The transitions a view gives to one node stay inside the view and are edges of the graph. */
  lemma ViewTransitions(g: Graph, viewerIsGm: bool, m: NodeView, t: TransitionView)
    requires WellFormed(g) && Visible(g, viewerIsGm)
    requires m in Project(g, viewerIsGm).nodes && t in m.transitions
    ensures t.to in ViewIds(Project(g, viewerIsGm)) && (m.id, t.to) in GraphEdges(g.nodes)
  {
    hide NodeOk, GoalsOk, StartsOk, Project, Shown, VisibleIds, ViewIds, Distinct;
    ViewIdsAre(g, viewerIsGm);
    var n := ViewNodeSource(g, viewerIsGm, m);
    var behind := ViewTransitionSource(g, viewerIsGm, n, t);
    NodeMapUnique(g.nodes, n);
    assert behind.to in NodeIds(g.nodes);
  }

  lemma GoalsPointInside(g: Graph, gs: seq<Goal>, bound: nat)
    requires GoalsOk(gs, g.nodes, bound)
    ensures forall o, x :: o in gs && x in o.nodeIds ==> x in NodeIds(g.nodes)
    ensures PlayerGoals(gs, VisibleIds(g)) == PublicGoals(gs)
  {
    PublicNodesAre(g.nodes);
    PublicGoalsAre(gs);
    forall o, x | o in gs && x in o.nodeIds ensures x in NodeIds(g.nodes) {
      assert GoalOk(o, g.nodes);
      NodeIdsMember(g.nodes, x);
    }
    forall o | o in PublicGoals(gs) ensures IdsIn(VisibleIds(g), o.nodeIds) == o.nodeIds {
      assert GoalOk(o, g.nodes);
      forall x | x in o.nodeIds ensures x in VisibleIds(g) { NodeIdsMember(PublicNodes(g.nodes), x); }
      IdsInAre(VisibleIds(g), o.nodeIds);
    }
    assert forall i :: 0 <= i < |PublicGoals(gs)| ==> PublicGoals(gs)[i] in PublicGoals(gs);
  }

  lemma PublicGoalsPointInside(g: Graph, gs: seq<Goal>, bound: nat)
    requires GoalsOk(gs, g.nodes, bound)
    ensures forall o, x :: o in PlayerGoals(gs, VisibleIds(g)) && x in o.nodeIds ==> x in VisibleIds(g)
  {
    forall o, x | o in PlayerGoals(gs, VisibleIds(g)) && x in o.nodeIds ensures x in VisibleIds(g) {
      var i :| 0 <= i < |PublicGoals(gs)| && PlayerGoals(gs, VisibleIds(g))[i] == o;
      IdsInAre(VisibleIds(g), PublicGoals(gs)[i].nodeIds);
    }
  }

  lemma ChaptersShown(g: Graph, viewerIsGm: bool, m: NodeView)
    requires WellFormed(g) && Visible(g, viewerIsGm)
    requires m in Project(g, viewerIsGm).nodes && m.chapter.Some?
    ensures exists c :: c in Project(g, viewerIsGm).chapters && c.id == m.chapter.value
  {
    hide GoalsOk, StartsOk, SeedOk, TargetsExist;
    var n := ViewNodeSource(g, viewerIsGm, m);
    if viewerIsGm {
      assert NodeOk(n, g.schema, g.chapters);
    } else {
      var i :| 0 <= i < |PublicChapters(g.chapters)| && ChapterIds(PublicChapters(g.chapters))[i] == m.chapter.value;
      assert PublicChapters(g.chapters)[i] in PublicChapters(g.chapters);
    }
  }

  lemma WellFormedParts(g: Graph)
    requires WellFormed(g)
    ensures Distinct(NodeIds(g.nodes)) && StartsOk(g.starts, g.nodes)
    ensures GoalsOk(g.objectives, g.nodes, MAX_OBJECTIVES) && GoalsOk(g.milestones, g.nodes, MAX_MILESTONES)
  {
    hide NodeOk, GoalsOk, StartsOk, SeedOk, TargetsExist;
  }

  predicate IsPublic(g: Graph, id: Id) { exists m :: m in g.nodes && m.id == id && m.visibility.Public? }

  /** How a player sees a node: all of its public face, and of its transitions those to public nodes, without gates. */
  predicate SeenAs(g: Graph, n: Node, v: NodeView) {
    && v.id == n.id && v.kind == n.kind && v.visibility == n.visibility && v.optional == n.optional && v.name == n.name
    && v.description == n.description && v.exclusive == n.exclusive && v.sceneRef == n.sceneRef && v.secrets == None
    && v.chapter == n.chapter
    && (forall t :: t in n.transitions && IsPublic(g, t.to) ==> TransitionView(t.to, t.choice, None) in v.transitions)
    && (forall w :: w in v.transitions ==>
          w.conditions == None
          && exists t :: t in n.transitions && IsPublic(g, t.to) && w.to == t.to && w.choice == t.choice)
  }

  lemma IsPublicIff(g: Graph, id: Id)
    ensures id in VisibleIds(g) <==> IsPublic(g, id)
  {
    PublicNodesAre(g.nodes);
    NodeIdsMember(PublicNodes(g.nodes), id);
  }

  /** A public node stands in a public chapter, so nothing of that is cut. */
  lemma PublicChapterIsKnown(g: Graph, n: Node)
    requires WellFormed(g) && n in g.nodes && n.visibility.Public?
    ensures KnownChapter(n.chapter, VisibleChapterIds(g)) == n.chapter
  {
    hide GoalsOk, StartsOk, SeedOk, TargetsExist, TransitionOk, OutcomeOk;
    assert NodeOk(n, g.schema, g.chapters);
    if n.chapter.Some? {
      PublicChaptersAre(g.chapters);
      var c :| c in g.chapters && c.id == n.chapter.value && c.visibility.Public?;
      var shown := PublicChapters(g.chapters);
      var i :| 0 <= i < |shown| && shown[i] == c;
      assert ChapterIds(shown)[i] == c.id;
    }
  }

  lemma PublicNodeIsSeen(g: Graph, n: Node)
    requires WellFormed(g) && n in g.nodes && n.visibility.Public?
    ensures SeenAs(g, n, PlayerNode(n, VisibleIds(g), VisibleChapterIds(g)))
  {
    hide WellFormed, VisibleIds, VisibleChapterIds;
    var v, kept := PlayerNode(n, VisibleIds(g), VisibleChapterIds(g)), EdgesInto(VisibleIds(g), n.transitions);
    PublicChapterIsKnown(g, n);
    EdgesIntoAre(VisibleIds(g), n.transitions);
    forall id ensures id in VisibleIds(g) <==> IsPublic(g, id) { IsPublicIff(g, id); }
    forall t | t in n.transitions && IsPublic(g, t.to) ensures TransitionView(t.to, t.choice, None) in v.transitions {
      var i :| 0 <= i < |kept| && kept[i] == t;
      assert v.transitions[i] == ForPlayer(t);
    }
    forall w | w in v.transitions
      ensures w.conditions == None
      ensures exists t :: t in n.transitions && IsPublic(g, t.to) && w.to == t.to && w.choice == t.choice
    {
      var i :| 0 <= i < |v.transitions| && v.transitions[i] == w;
      assert kept[i] in kept && w == ForPlayer(kept[i]);
    }
  }

  /** What players see of a public graph: its public chapters, and its public nodes in order, each whole but for its
      secrets. */
  lemma PlayersSeeThePublic(g: Graph)
    requires WellFormed(g) && g.visibility.Public?
    ensures var v, shown := Project(g, false), PublicNodes(g.nodes);
      && v.available && v.id == g.id
      && (forall n :: n in shown <==> n in g.nodes && n.visibility.Public?)
      && |v.nodes| == |shown| && (forall i :: 0 <= i < |shown| ==> SeenAs(g, shown[i], v.nodes[i]))
      && (forall c :: c in v.chapters <==> c in g.chapters && c.visibility.Public?)
      && (forall o :: o in v.objectives <==> o in g.objectives && o.visibility.Public?)
      && (forall o :: o in v.milestones <==> o in g.milestones && o.visibility.Public?)
      && (forall x :: x in v.starts <==> x in g.starts && IsPublic(g, x))
  {
    hide NodeOk, GoalsOk, StartsOk, SeedOk, TargetsExist, Distinct, SeenAs, VisibleIds, VisibleChapterIds, PlayerNode,
         IsPublic;
    var v, shown := Project(g, false), PublicNodes(g.nodes);
    WellFormedParts(g);
    ViewNodesAreShown(g, false);
    PublicNodesAre(g.nodes);
    PublicChaptersAre(g.chapters);
    PublicGoalsAre(g.objectives);
    PublicGoalsAre(g.milestones);
    GoalsPointInside(g, g.objectives, MAX_OBJECTIVES);
    GoalsPointInside(g, g.milestones, MAX_MILESTONES);
    IdsInAre(VisibleIds(g), g.starts);
    forall id ensures id in VisibleIds(g) <==> IsPublic(g, id) { IsPublicIff(g, id); }
    forall i | 0 <= i < |shown| ensures SeenAs(g, shown[i], v.nodes[i]) {
      assert shown[i] in shown;
      PublicNodeIsSeen(g, shown[i]);
    }
  }

  /** Every edge, objective, milestone, start and chapter a view mentions names something it shows. */
  lemma ViewsAreClosed(g: Graph, viewerIsGm: bool)
    requires WellFormed(g)
    ensures ViewClosed(Project(g, viewerIsGm))
  {
    var v := Project(g, viewerIsGm);
    if viewerIsGm || g.visibility.Public? {
      hide WellFormed, GmNode, PlayerNode, VisibleIds, GraphEdges, NodeIds, PlayerGoals;
      assert Distinct(NodeIds(g.nodes)) && GoalsOk(g.objectives, g.nodes, MAX_OBJECTIVES)
          && GoalsOk(g.milestones, g.nodes, MAX_MILESTONES) && StartsOk(g.starts, g.nodes) by { WellFormedParts(g); }
      ViewIdsAre(g, viewerIsGm);
      forall m, t | m in v.nodes && t in m.transitions ensures t.to in ViewIds(v) {
        ViewTransitions(g, viewerIsGm, m, t);
      }
      forall m | m in v.nodes && m.chapter.Some? ensures exists c :: c in v.chapters && c.id == m.chapter.value {
        ChaptersShown(g, viewerIsGm, m);
      }
      GoalsPointInside(g, g.objectives, MAX_OBJECTIVES);
      GoalsPointInside(g, g.milestones, MAX_MILESTONES);
      PublicGoalsPointInside(g, g.objectives, MAX_OBJECTIVES);
      PublicGoalsPointInside(g, g.milestones, MAX_MILESTONES);
      IdsInAre(VisibleIds(g), g.starts);
    }
  }

  lemma StartsShown(g: Graph, viewerIsGm: bool)
    requires WellFormed(g) && Visible(g, viewerIsGm)
    ensures Elems(Project(g, viewerIsGm).starts) <= Elems(g.starts) * NodeMap(g.nodes).Keys
  {
    WellFormedParts(g);
    IdsInAre(VisibleIds(g), g.starts);
  }

  /** Dropping records never makes a node reachable that was not. */
  lemma ViewReachability(g: Graph, viewerIsGm: bool)
    requires WellFormed(g)
    ensures var v := Project(g, viewerIsGm);
            Reach(Elems(v.starts), ViewEdges(v)) <= ReachableIds(g.nodes, g.starts)
  {
    var v := Project(g, viewerIsGm);
    if viewerIsGm || g.visibility.Public? {
      hide Project, NodeOk, GoalsOk, GraphEdges, Reach;
      forall e | e in ViewEdges(v) ensures e in GraphEdges(g.nodes) {
        var m, t :| m in v.nodes && t in m.transitions && e == (m.id, t.to);
        ViewTransitions(g, viewerIsGm, m, t);
      }
      StartsShown(g, viewerIsGm);
      ReachMonotone(Elems(v.starts), ViewEdges(v), Elems(g.starts) * NodeMap(g.nodes).Keys, GraphEdges(g.nodes));
    } else {
      assert Elems(v.starts) <= Elems(g.starts) * NodeMap(g.nodes).Keys && ViewEdges(v) <= GraphEdges(g.nodes);
      ReachMonotone(Elems(v.starts), ViewEdges(v), Elems(g.starts) * NodeMap(g.nodes).Keys, GraphEdges(g.nodes));
    }
  }
}
