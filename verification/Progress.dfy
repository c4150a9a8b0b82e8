/** The progress record of one adventure run and the operations that move it.

    `State` is the record's value; the functions on it say what each operation does.  The class keeps
    the record in place, as the engine does, and each method is proved to do exactly that.  `log` is
    the full trace of events, of which the record keeps only a recent window in `history`. */
module Progress {
  import opened Values
  import opened Gates
  import opened GraphModel
  import opened GraphProjection

  const MAX_HISTORY := 100
  const MAX_SAVED := 256

  datatype Event =
    | NodeActivated(id: Id)
    | NodeReopened(id: Id)
    | NodeCompleted(id: Id)
    | ChoiceSelected(id: Id, choice: Id)
    | EndingReached(id: Id)
    | ObjectiveCompleted(id: Id)
    | MilestoneReached(id: Id)

  /** A player's advisory wish for one exclusive node. */
  datatype Request = Request(node: Id, choice: Id, actor: string)

  datatype State = State(
    active: seq<Id>, completed: seq<Id>, objectives: seq<Id>, milestones: seq<Id>,
    selected: map<Id, Id>, requests: seq<Request>, ending: Option<Id>,
    history: seq<Event>, log: seq<Event>)

  function Activations(ids: seq<Id>): seq<Event> { Map((id: Id) => NodeActivated(id), ids) }

  function Reopenings(ids: seq<Id>): seq<Event> { Map((id: Id) => NodeReopened(id), ids) }

  function LastN<T>(s: seq<T>, n: nat): seq<T> { if |s| > n then s[|s| - n..] else s }

  function Note(s: State, e: Event): State { s.(history := LastN(s.history + [e], MAX_HISTORY), log := s.log + [e]) }

  function NoteAll(s: State, es: seq<Event>): State
    decreases |es|
  {
    if es == [] then s else Note(NoteAll(s, es[..|es| - 1]), es[|es| - 1])
  }

  function RemoveFirst<T(==)>(s: seq<T>, x: T): seq<T> {
    if s == [] then [] else if s[0] == x then s[1..] else [s[0]] + RemoveFirst(s[1..], x)
  }

  // ---- choices ----

  function FindChoice(ts: seq<Transition>, choice: Id): (r: Option<Transition>)
    ensures r.Some? ==> r.value in ts && r.value.choice.Some? && r.value.choice.value.id == choice
    ensures r.None? ==> forall t :: t in ts && t.choice.Some? ==> t.choice.value.id != choice
  {
    if ts == [] then None
    else if ts[0].choice.Some? && ts[0].choice.value.id == choice then Some(ts[0])
    else FindChoice(ts[1..], choice)
  }

  /** The node is exclusive and declares the choice. */
  predicate Declares(g: Graph, node: Id, choice: Id) {
    var byId := NodeMap(g.nodes);
    node in byId && byId[node].exclusive && FindChoice(byId[node].transitions, choice).Some?
  }

  predicate IsExclusive(g: Graph, node: Id) {
    var byId := NodeMap(g.nodes);
    node in byId && byId[node].exclusive
  }

  /** What saved choices must satisfy before anything is done with a record. */
  predicate ChoicesOk(selected: map<Id, Id>, requests: seq<Request>, completed: seq<Id>, g: Graph) {
    && |selected| <= MAX_SAVED
    && (forall n :: n in selected ==> Declares(g, n, selected[n]))
    && (forall n :: n in completed && IsExclusive(g, n) ==> n in selected)
    && |requests| <= MAX_SAVED
    && (forall r :: r in requests ==> Declares(g, r.node, r.choice) && r.actor != "")
  }

  predicate ChoicesValid(s: State, g: Graph) { ChoicesOk(s.selected, s.requests, s.completed, g) }

  // ---- completing a node ----

  function EvidenceOf(s: State, w: World): Evidence { Evidence(w, s.milestones, s.objectives) }

  /** The nodes that following `ts` opens, in order: targets with satisfied gates that are not yet
      active or completed.  A target opened by an earlier transition is not opened again. */
  function Opened(ts: seq<Transition>, e: Evidence, active: seq<Id>, completed: seq<Id>): seq<Id> {
    if ts == [] then []
    else
      var before := Opened(ts[..|ts| - 1], e, active, completed);
      var t := ts[|ts| - 1];
      if t.to in active || t.to in before || t.to in completed || !GatesSatisfied(t.conditions, e) then before
      else before + [t.to]
  }

  /** The transitions a completion follows: the one chosen, if its gates are open, or all of them. */
  function Pursued(n: Node, choice: string, e: Evidence): Option<seq<Transition>> {
    if n.exclusive then
      var selected := FindChoice(n.transitions, choice);
      if selected.Some? && GatesSatisfied(selected.value.conditions, e) then Some([selected.value]) else None
    else if choice != "" then None
    else Some(n.transitions)
  }

  function WithoutNode(rs: seq<Request>, node: Id): seq<Request> { Filter((r: Request) => r.node != node, rs) }

  /** The record once the node is marked completed and, if exclusive, its choice recorded. */
  function MarkCompleted(s: State, n: Node, choice: string): State {
    var s1 := s.(active := RemoveFirst(s.active, n.id),
                 completed := if n.id in s.completed then s.completed else s.completed + [n.id]);
    var s2 := Note(s1, NodeCompleted(n.id));
    if !n.exclusive then s2
    else
      Note(s2.(selected := s2.selected[n.id := choice]), ChoiceSelected(n.id, choice))
        .(requests := WithoutNode(s2.requests, n.id))
  }

  function Close(s: State, node: Id): State {
    Note(s.(ending := Some(node), active := [], requests := []), EndingReached(node))
  }

  function ActivateAll(s: State, newly: seq<Id>): State {
    NoteAll(s, Activations(newly)).(active := s.active + newly)
  }

  /** One node completion; `None` when it is refused, which leaves the record alone. */
  function Complete(s: State, g: Graph, node: Id, choice: string, w: World): Option<(State, seq<Id>)> {
    var byId := NodeMap(g.nodes);
    if !ChoicesValid(s, g) || s.ending.Some? || node !in byId || node !in s.active then None
    else
      var n := byId[node];
      var ts :- Pursued(n, choice, EvidenceOf(s, w));
      var s1 := MarkCompleted(s, n, choice);
      if n.kind == ENDING then Some((Close(s1, node), []))
      else
        var newly := Opened(ts, EvidenceOf(s1, w), s1.active, s1.completed);
        Some((ActivateAll(s1, newly), newly))
  }

  // ---- the other operations ----

  function Initial(g: Graph): State {
    var events := Activations(g.starts);
    State(g.starts, [], [], [], map[], [], None, events, events)
  }

  function Achieve(s: State, g: Graph, id: Id): Option<(State, bool)> {
    if id !in GoalIds(g.objectives) then None
    else if id in s.objectives then Some((s, false))
    else Some((Note(s.(objectives := s.objectives + [id]), ObjectiveCompleted(id)), true))
  }

  function Attain(s: State, g: Graph, id: Id): Option<(State, bool)> {
    if id !in GoalIds(g.milestones) then None
    else if id in s.milestones then Some((s, false))
    else Some((Note(s.(milestones := s.milestones + [id]), MilestoneReached(id)), true))
  }

  /** The node a player sees, if it is shown at all. */
  function FindView(ns: seq<NodeView>, id: Id): (r: Option<NodeView>)
    ensures r.Some? ==> r.value in ns && r.value.id == id
  {
    if ns == [] then None else if ns[0].id == id then Some(ns[0]) else FindView(ns[1..], id)
  }

  predicate Offers(n: NodeView, choice: Id) {
    n.exclusive && exists t :: t in n.transitions && t.choice.Some? && t.choice.value.id == choice
  }

  /** A player asks for a choice.  `admitted` says the actor is a player who may submit actions. */
  function Ask(s: State, g: Graph, node: Id, choice: Id, actor: string, admitted: bool, w: World): Option<State> {
    if !admitted || !ChoicesValid(s, g) || node !in s.active then None
    else
      var shown :- FindView(Project(g, false).nodes, node);
      if !Offers(shown, choice) || !Declares(g, node, choice) then None
      else
        var t :- FindChoice(NodeMap(g.nodes)[node].transitions, choice);
        var others := Filter((r: Request) => !(r.node == node && r.actor == actor), s.requests);
        if !GatesSatisfied(t.conditions, EvidenceOf(s, w)) || |others| >= MAX_SAVED then None
        else Some(s.(requests := others + [Request(node, choice, actor)]))
  }

  /** The transitions of a completed node that count: all, or only the recorded choice. */
  function Kept(g: Graph, selected: map<Id, Id>, node: Id): seq<Transition> {
    var byId := NodeMap(g.nodes);
    if node !in byId then []
    else if !byId[node].exclusive then byId[node].transitions
    else if node !in selected then []
    else Filter((t: Transition) => t.choice.Some? && t.choice.value.id == selected[node], byId[node].transitions)
  }

  function KeptAll(g: Graph, selected: map<Id, Id>, order: seq<Id>): seq<Transition> {
    if order == [] then []
    else KeptAll(g, selected, order[..|order| - 1]) + Kept(g, selected, order[|order| - 1])
  }

  /** The world has moved on: gates of completed nodes are looked at again.  The completed nodes are
      visited in the order `order`.  The events are appended without trimming the window. */
  function Advance(s: State, g: Graph, w: World, order: seq<Id>): Option<(State, seq<Id>)> {
    if !ChoicesValid(s, g) then None
    else if s.ending.Some? then Some((s.(active := [], requests := []), []))
    else
      var newly := Opened(KeptAll(g, s.selected, order), EvidenceOf(s, w), s.active, s.completed);
      var events := Reopenings(newly);
      Some((s.(active := s.active + newly, history := s.history + events, log := s.log + events), newly))
  }

  // ---- lemmas the loops need ----

  lemma NoteAllSnoc(s: State, es: seq<Event>, e: Event)
    ensures NoteAll(s, es + [e]) == Note(NoteAll(s, es), e)
  {
    assert (es + [e])[..|es|] == es;
  }

  lemma {:induction false} NoteAllFrame(s: State, es: seq<Event>)
    ensures var r := NoteAll(s, es); r == s.(history := r.history, log := s.log + es)
    decreases |es|
  {
    if es != [] {
      NoteAllFrame(s, es[..|es| - 1]);
      assert es == es[..|es| - 1] + [es[|es| - 1]];
    }
  }

  lemma OpenedSnoc(ts: seq<Transition>, i: nat, e: Evidence, active: seq<Id>, completed: seq<Id>)
    requires i < |ts|
    ensures Opened(ts[..i + 1], e, active, completed) ==
            var before := Opened(ts[..i], e, active, completed);
            if ts[i].to in active || ts[i].to in before || ts[i].to in completed || !GatesSatisfied(ts[i].conditions, e)
            then before else before + [ts[i].to]
  {
    assert ts[..i + 1][..i] == ts[..i];
  }

  lemma {:induction false} OpenedConcat(
    a: seq<Transition>, b: seq<Transition>, e: Evidence, active: seq<Id>, completed: seq<Id>)
    ensures Opened(a + b, e, active, completed) ==
            var before := Opened(a, e, active, completed);
            before + Opened(b, e, active + before, completed)
    decreases |b|
  {
    if b == [] {
      assert a + b == a;
    } else {
      var c, t := b[..|b| - 1], b[|b| - 1];
      OpenedConcat(a, c, e, active, completed);
      assert (a + b)[..|a + b| - 1] == a + c && (a + b)[|a + b| - 1] == t;
    }
  }

  lemma EventsConcat(a: seq<Id>, b: seq<Id>)
    ensures Activations(a + b) == Activations(a) + Activations(b)
    ensures Reopenings(a + b) == Reopenings(a) + Reopenings(b)
    ensures |b| == 1 ==> Activations(b) == [NodeActivated(b[0])] && Reopenings(b) == [NodeReopened(b[0])]
  {
  }

  lemma NothingYet(s: State, e: Evidence, ts: seq<Transition>, active: seq<Id>, completed: seq<Id>)
    ensures Opened(ts[..0], e, active, completed) == []
    ensures Activations([]) == [] && Reopenings([]) == [] && NoteAll(s, []) == s
  {
  }

  lemma KeptAllNone(g: Graph, selected: map<Id, Id>)
    ensures KeptAll(g, selected, []) == []
  {
  }

  lemma KeptAllSnoc(g: Graph, selected: map<Id, Id>, order: seq<Id>, i: nat)
    requires i < |order|
    ensures KeptAll(g, selected, order[..i + 1]) == KeptAll(g, selected, order[..i]) + Kept(g, selected, order[i])
  {
    assert order[..i + 1][..i] == order[..i];
  }

  lemma {:induction false} RemoveFirstAt<T>(s: seq<T>, x: T, i: nat)
    requires i < |s| && s[i] == x && forall k :: 0 <= k < i ==> s[k] != x
    ensures RemoveFirst(s, x) == s[..i] + s[i + 1..]
  {
    if i > 0 {
      RemoveFirstAt(s[1..], x, i - 1);
      assert s[..i] + s[i + 1..] == [s[0]] + (s[1..][..i - 1] + s[1..][i..]);
    }
  }

  // ---- the record ----

  class Record {
    var active: seq<Id>
    var completed: seq<Id>
    var objectives: seq<Id>
    var milestones: seq<Id>
    var selected: map<Id, Id>
    var requests: seq<Request>
    var ending: Option<Id>
    var history: seq<Event>
    ghost var log: seq<Event>

    ghost function Value(): State
      reads this
    {
      State(active, completed, objectives, milestones, selected, requests, ending, history, log)
    }

    constructor (g: Graph)
      ensures Value() == Initial(g)
    {
      active, completed, objectives, milestones := g.starts, [], [], [];
      selected, requests, ending := map[], [], None;
      history := Activations(g.starts);
      log := Activations(g.starts);
    }

    method AppendHistory(e: Event)
      modifies this`history, this`log
      ensures Value() == Note(old(Value()), e)
    {
      history, log := history + [e], log + [e];
      if |history| > MAX_HISTORY {
        history := history[|history| - MAX_HISTORY..];
      }
    }

    method RemoveActive(node: Id)
      requires node in active
      modifies this`active
      ensures active == RemoveFirst(old(active), node)
    {
      var i := 0;
      while active[i] != node
        invariant i < |active| && forall k :: 0 <= k < i ==> active[k] != node
        decreases |active| - i
      {
        i := i + 1;
      }
      RemoveFirstAt(active, node, i);
      active := active[..i] + active[i + 1..];
    }

    method MarkDone(n: Node, choice: string)
      requires n.id in active
      modifies this`active, this`completed, this`selected, this`requests, this`history, this`log
      ensures Value() == MarkCompleted(old(Value()), n, choice)
    {
      RemoveActive(n.id);
      if n.id !in completed { completed := completed + [n.id]; }
      AppendHistory(NodeCompleted(n.id));
      if n.exclusive {
        selected := selected[n.id := choice];
        AppendHistory(ChoiceSelected(n.id, choice));
        requests := WithoutNode(requests, n.id);
      }
    }

    method ActivateTargets(ts: seq<Transition>, w: World) returns (activated: seq<Id>)
      modifies this`active, this`history, this`log
      ensures activated == Opened(ts, EvidenceOf(old(Value()), w), old(active), completed)
      ensures Value() == ActivateAll(old(Value()), activated)
    {
      hide GatesSatisfied, Opened, Activations, NoteAll;
      ghost var s := Value();
      ghost var e := EvidenceOf(s, w);
      activated := [];
      NothingYet(s, e, ts, active, completed);
      for i := 0 to |ts|
        invariant activated == Opened(ts[..i], e, s.active, s.completed)
        invariant active == s.active + activated
        invariant Value() == ActivateAll(s, activated)
      {
        OpenedSnoc(ts, i, e, s.active, s.completed);
        NoteAllFrame(s, Activations(activated));
        var target := ts[i].to;
        if target in active || target in completed { continue; }
        if GatesSatisfied(ts[i].conditions, Evidence(w, milestones, objectives)) {
          NoteAllSnoc(s, Activations(activated), NodeActivated(target));
          EventsConcat(activated, [target]);
          active := active + [target];
          activated := activated + [target];
          AppendHistory(NodeActivated(target));
        }
      }
      assert ts[..|ts|] == ts;
    }

    method CompleteNode(g: Graph, node: Id, choice: string, w: World) returns (r: Option<seq<Id>>)
      modifies this
      ensures var spec := Complete(old(Value()), g, node, choice, w);
        if spec.None? then r.None? && Value() == old(Value())
        else r == Some(spec.value.1) && Value() == spec.value.0
    {
      hide ChoicesOk, GatesSatisfied, MarkCompleted, FindChoice, ActivateAll, Opened;
      var byId := NodeMap(g.nodes);
      if !ChoicesOk(selected, requests, completed, g) || ending.Some? || node !in byId || node !in active {
        return None;
      }
      var n := byId[node];
      var ts := n.transitions;
      if n.exclusive {
        var chosen := FindChoice(ts, choice);
        if chosen.None? || !GatesSatisfied(chosen.value.conditions, Evidence(w, milestones, objectives)) {
          return None;
        }
        ts := [chosen.value];
      } else if choice != "" {
        return None;
      }
      MarkDone(n, choice);
      if n.kind == ENDING {
        ending, active, requests := Some(node), [], [];
        AppendHistory(EndingReached(node));
        return Some([]);
      }
      var activated := ActivateTargets(ts, w);
      return Some(activated);
    }

    method CompleteObjective(g: Graph, id: Id) returns (r: Option<bool>)
      modifies this`objectives, this`history, this`log
      ensures var spec := Achieve(old(Value()), g, id);
        if spec.None? then r.None? && Value() == old(Value())
        else r == Some(spec.value.1) && Value() == spec.value.0
    {
      if id !in GoalIds(g.objectives) { return None; }
      if id in objectives { return Some(false); }
      objectives := objectives + [id];
      AppendHistory(ObjectiveCompleted(id));
      return Some(true);
    }

    method CompleteMilestone(g: Graph, id: Id) returns (r: Option<bool>)
      modifies this`milestones, this`history, this`log
      ensures var spec := Attain(old(Value()), g, id);
        if spec.None? then r.None? && Value() == old(Value())
        else r == Some(spec.value.1) && Value() == spec.value.0
    {
      if id !in GoalIds(g.milestones) { return None; }
      if id in milestones { return Some(false); }
      milestones := milestones + [id];
      AppendHistory(MilestoneReached(id));
      return Some(true);
    }

    method RequestChoice(g: Graph, node: Id, choice: Id, actor: string, admitted: bool, w: World) returns (ok: bool)
      modifies this`requests
      ensures var spec := Ask(old(Value()), g, node, choice, actor, admitted, w);
        ok == spec.Some? && Value() == if ok then spec.value else old(Value())
    {
      hide ChoicesOk, GatesSatisfied, Project, Offers;
      if !admitted || !ChoicesOk(selected, requests, completed, g) || node !in active { return false; }
      var shown := FindView(Project(g, false).nodes, node);
      if shown.None? || !Offers(shown.value, choice) || !Declares(g, node, choice) { return false; }
      var t := FindChoice(NodeMap(g.nodes)[node].transitions, choice);
      if !GatesSatisfied(t.value.conditions, Evidence(w, milestones, objectives)) { return false; }
      var others := Filter((r: Request) => !(r.node == node && r.actor == actor), requests);
      if |others| >= MAX_SAVED { return false; }
      requests := others + [Request(node, choice, actor)];
      return true;
    }

    method ReopenTargets(ts: seq<Transition>, nowActive: seq<Id>, w: World) returns (reopened: seq<Id>)
      modifies this`history, this`log
      ensures reopened == Opened(ts, EvidenceOf(old(Value()), w), nowActive, completed)
      ensures history == old(history) + Reopenings(reopened)
      ensures log == old(log) + Reopenings(reopened)
    {
      hide GatesSatisfied, Opened, Reopenings;
      ghost var e := EvidenceOf(Value(), w);
      reopened := [];
      NothingYet(Value(), e, ts, nowActive, completed);
      for i := 0 to |ts|
        invariant reopened == Opened(ts[..i], e, nowActive, completed)
        invariant history == old(history) + Reopenings(reopened)
        invariant log == old(log) + Reopenings(reopened)
      {
        OpenedSnoc(ts, i, e, nowActive, completed);
        var target := ts[i].to;
        if target in nowActive || target in reopened || target in completed { continue; }
        if GatesSatisfied(ts[i].conditions, Evidence(w, milestones, objectives)) {
          EventsConcat(reopened, [target]);
          reopened := reopened + [target];
          history, log := history + [NodeReopened(target)], log + [NodeReopened(target)];
        }
      }
      assert ts[..|ts|] == ts;
    }

    /** Opens what the completed nodes lead to and the changed world now allows. */
    method ReopenAll(g: Graph, w: World, order: seq<Id>) returns (reopened: seq<Id>)
      requires ChoicesValid(Value(), g)
      modifies this`active, this`history, this`log
      ensures reopened == Opened(KeptAll(g, selected, order), EvidenceOf(old(Value()), w), old(active), completed)
      ensures active == old(active) + reopened
      ensures history == old(history) + Reopenings(reopened) && log == old(log) + Reopenings(reopened)
    {
      hide ChoicesOk, ChoicesValid, GatesSatisfied, Kept, KeptAll, Opened, Reopenings;
      ghost var s := Value();
      ghost var e := EvidenceOf(s, w);
      reopened := [];
      var nowActive := active;
      NothingYet(s, e, [], active, completed);
      assert KeptAll(g, selected, order[..0]) == [] by { KeptAllNone(g, selected); }
      for i := 0 to |order|
        invariant reopened == Opened(KeptAll(g, selected, order[..i]), e, s.active, s.completed)
        invariant nowActive == s.active + reopened
        invariant Value() == s.(history := history, log := log)
        invariant history == s.history + Reopenings(reopened)
        invariant log == s.log + Reopenings(reopened)
      {
        var ts := Kept(g, selected, order[i]);
        OpenedConcat(KeptAll(g, selected, order[..i]), ts, e, s.active, s.completed);
        KeptAllSnoc(g, selected, order, i);
        var more := ReopenTargets(ts, nowActive, w);
        EventsConcat(reopened, more);
        assert s.active + (reopened + more) == s.active + reopened + more;
        nowActive, reopened := nowActive + more, reopened + more;
      }
      assert order[..|order|] == order;
      active := nowActive;
    }

    method AdvanceWorld(g: Graph, w: World, order: seq<Id>) returns (r: Option<seq<Id>>)
      modifies this`active, this`requests, this`history, this`log
      ensures var spec := Advance(old(Value()), g, w, order);
        if spec.None? then r.None? && Value() == old(Value())
        else r == Some(spec.value.1) && Value() == spec.value.0
    {
      hide ChoicesOk, GatesSatisfied, Kept, KeptAll, Opened, Reopenings;
      if !ChoicesOk(selected, requests, completed, g) { return None; }
      if ending.Some? {
        active, requests := [], [];
        return Some([]);
      }
      var newly := ReopenAll(g, w, order);
      return Some(newly);
    }
  }
}
