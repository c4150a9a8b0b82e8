/** What holds along every run of an adventure: any sequence of completions, goals, player requests and
    world advances, from a new record on a well-formed graph. */
module ProgressRuns {
  import opened Values
  import opened Gates
  import opened GraphModel
  import opened GraphTraversal
  import opened GraphProjection
  import opened Progress
  import Reachability

  datatype Step =
    | CompleteStep(node: Id, choice: string, world: World)
    | ObjectiveStep(id: Id)
    | MilestoneStep(id: Id)
    | AskStep(node: Id, choice: Id, actor: string, admitted: bool, world: World)
    | AdvanceStep(world: World, order: seq<Id>)

  /** A step that is refused leaves the record as it was. */
  function Next(g: Graph, s: State, step: Step): State {
    match step
    case CompleteStep(node, choice, w) => (var r := Complete(s, g, node, choice, w); if r.Some? then r.value.0 else s)
    case ObjectiveStep(id) => (var r := Achieve(s, g, id); if r.Some? then r.value.0 else s)
    case MilestoneStep(id) => (var r := Attain(s, g, id); if r.Some? then r.value.0 else s)
    case AskStep(node, choice, actor, admitted, w) =>
      (var r := Ask(s, g, node, choice, actor, admitted, w); if r.Some? then r.value else s)
    case AdvanceStep(w, order) => (var r := Advance(s, g, w, order); if r.Some? then r.value.0 else s)
  }

  /** Players have a name, and a world advance visits exactly the completed nodes. */
  predicate StepOk(s: State, step: Step) {
    && (step.AskStep? && step.admitted ==> step.actor != "")
    && (step.AdvanceStep? ==> Elems(step.order) == Elems(s.completed))
  }

  ghost predicate StepsOk(g: Graph, s: State, steps: seq<Step>)
    decreases |steps|
  {
    steps == [] || (StepOk(s, steps[0]) && StepsOk(g, Next(g, s, steps[0]), steps[1..]))
  }

  function Run(g: Graph, s: State, steps: seq<Step>): State
    decreases |steps|
  {
    if steps == [] then s else Run(g, Next(g, s, steps[0]), steps[1..])
  }

  lemma {:induction false} RunConcat(g: Graph, s: State, a: seq<Step>, b: seq<Step>)
    ensures Run(g, s, a + b) == Run(g, Run(g, s, a), b)
    ensures StepsOk(g, s, a + b) <==> StepsOk(g, s, a) && StepsOk(g, Run(g, s, a), b)
    decreases |a|
  {
    hide Next, StepOk;
    if a == [] {
      assert a + b == b;
    } else {
      assert (a + b)[0] == a[0] && (a + b)[1..] == a[1..] + b;
      RunConcat(g, Next(g, s, a[0]), a[1..], b);
    }
  }

  lemma OneStep(g: Graph, s: State, step: Step)
    ensures Run(g, s, [step]) == Next(g, s, step) && (StepsOk(g, s, [step]) <==> StepOk(s, step))
  {
    hide Next, StepOk;
    assert [step][1..] == [];
    assert StepsOk(g, Next(g, s, step), []);
  }

  lemma {:induction false} RunSnoc(g: Graph, s: State, steps: seq<Step>, step: Step)
    requires StepsOk(g, s, steps) && StepOk(Run(g, s, steps), step)
    ensures StepsOk(g, s, steps + [step]) && Run(g, s, steps + [step]) == Next(g, Run(g, s, steps), step)
    decreases |steps|
  {
    hide Next, StepOk;
    var all := steps + [step];
    if steps == [] {
      assert all == [step] && all[1..] == [];
      assert StepsOk(g, Next(g, s, step), []);
    } else {
      assert all[0] == steps[0] && all[1..] == steps[1..] + [step];
      RunSnoc(g, Next(g, s, steps[0]), steps[1..], step);
    }
  }

  // ---- what one operation does ----

  lemma {:induction false} OpenedFacts(ts: seq<Transition>, e: Evidence, active: seq<Id>, completed: seq<Id>)
    ensures var newly := Opened(ts, e, active, completed);
      && Distinct(newly)
      && (forall x :: x in newly ==>
            x !in active && x !in completed && exists t :: t in ts && t.to == x && GatesSatisfied(t.conditions, e))
      && (forall t :: t in ts && GatesSatisfied(t.conditions, e) ==>
            t.to in active || t.to in completed || t.to in newly)
    decreases |ts|
  {
    hide GatesSatisfied;
    if ts != [] {
      var rest, t := ts[..|ts| - 1], ts[|ts| - 1];
      OpenedFacts(rest, e, active, completed);
      assert ts == rest + [t];
      assert t in ts;
    }
  }

  lemma {:induction false} RemoveFirstFacts(s: seq<Id>, x: Id)
    requires x in s
    ensures |RemoveFirst(s, x)| == |s| - 1
    ensures forall y :: y in s <==> y == x || y in RemoveFirst(s, x)
    ensures Distinct(s) ==> Distinct(RemoveFirst(s, x)) && x !in RemoveFirst(s, x)
  {
    hide Distinct;
    assert s == [s[0]] + s[1..];
    DistinctCons(s[0], s[1..]);
    if s[0] != x {
      RemoveFirstFacts(s[1..], x);
      DistinctCons(s[0], RemoveFirst(s[1..], x));
    }
  }

  /** Everything a completion changes. */
  lemma CompletionEffect(s: State, g: Graph, node: Id, choice: string, w: World)
    requires Complete(s, g, node, choice, w).Some?
    ensures var s' := Complete(s, g, node, choice, w).value.0;
      var newly := Complete(s, g, node, choice, w).value.1;
      var n := NodeMap(g.nodes)[node];
      && node in NodeMap(g.nodes) && n.id == node && node in s.active && s.ending.None? && ChoicesValid(s, g)
      && Pursued(n, choice, EvidenceOf(s, w)).Some?
      && s'.completed == (if node in s.completed then s.completed else s.completed + [node])
      && s'.objectives == s.objectives && s'.milestones == s.milestones
      && s'.selected == (if n.exclusive then s.selected[node := choice] else s.selected)
      && (n.kind == ENDING ==>
            s'.active == [] && s'.requests == [] && s'.ending == Some(node) && newly == [])
      && (n.kind != ENDING ==>
            && newly == Opened(Pursued(n, choice, EvidenceOf(s, w)).value, EvidenceOf(s, w),
                               RemoveFirst(s.active, node), s'.completed)
            && s'.active == RemoveFirst(s.active, node) + newly && s'.ending.None?
            && s'.requests == (if n.exclusive then WithoutNode(s.requests, node) else s.requests))
  {
    hide GatesSatisfied, ChoicesOk, FindChoice, Opened, Filter;
    var n := NodeMap(g.nodes)[node];
    var s1 := MarkCompleted(s, n, choice);
    var newly := Complete(s, g, node, choice, w).value.1;
    NoteAllFrame(s1, Activations(newly));
  }

  /** Everything a world advance changes, for an adventure that has not ended. */
  lemma AdvanceEffect(s: State, g: Graph, w: World, order: seq<Id>)
    requires s.ending.None? && Advance(s, g, w, order).Some?
    ensures var (s', newly) := Advance(s, g, w, order).value;
      && newly == Opened(KeptAll(g, s.selected, order), EvidenceOf(s, w), s.active, s.completed)
      && s' == s.(active := s.active + newly, history := s'.history, log := s'.log)
      && s'.history == s.history + Reopenings(newly) && s'.log == s.log + Reopenings(newly)
  {
    hide ChoicesOk, Opened, KeptAll;
  }

  lemma {:induction false} KeptAllFrom(g: Graph, selected: map<Id, Id>, order: seq<Id>)
    ensures forall t :: t in KeptAll(g, selected, order) <==> exists n :: n in order && t in Kept(g, selected, n)
    decreases |order|
  {
    if order != [] {
      var rest, n := order[..|order| - 1], order[|order| - 1];
      KeptAllFrom(g, selected, rest);
      assert order == rest + [n];
      assert n in order;
    }
  }

  lemma KeptAreTransitions(g: Graph, selected: map<Id, Id>, node: Id)
    ensures forall t :: t in Kept(g, selected, node) ==>
              node in NodeMap(g.nodes) && t in NodeMap(g.nodes)[node].transitions
  {
    if node in NodeMap(g.nodes) && node in selected {
      Filtered((t: Transition) => t.choice.Some? && t.choice.value.id == selected[node],
               NodeMap(g.nodes)[node].transitions);
    }
  }

  // ---- the invariant ----

  ghost function Region(g: Graph): set<Id> { ReachableIds(g.nodes, g.starts) }

  /** Every node the record mentions is reachable, every completed exclusive node has a declared choice on
      record, saved choices and requests are valid and bounded, and an ended adventure is closed. */
  ghost predicate Inv(g: Graph, s: State) {
    && (forall x :: x in s.active || x in s.completed ==> x in Region(g))
    && Distinct(s.completed)
    && ChoicesValid(s, g)
    && (forall n :: n in s.selected ==> n in s.completed)
    && (s.ending.Some? ==> s.active == [] && s.requests == [])
  }

  lemma RegionStep(g: Graph, n: Id, t: Transition)
    requires WellFormed(g) && n in Region(g) && t in NodeMap(g.nodes)[n].transitions
    requires n in NodeMap(g.nodes)
    ensures t.to in Region(g)
  {
    hide NodeOk, GoalsOk, StartsOk, SeedOk, NodeMap;
    assert t.to in NodeIds(g.nodes);
    assert (n, t.to) in GraphEdges(g.nodes);
    Reachability.ReachStep(Elems(g.starts) * NodeMap(g.nodes).Keys, GraphEdges(g.nodes), n, t.to);
  }

  lemma RegionIsNodes(g: Graph)
    ensures Region(g) <= NodeMap(g.nodes).Keys && |NodeMap(g.nodes).Keys| <= |g.nodes|
  {
    ReachableAreNodes(g.nodes, g.starts);
    DistinctSize(NodeIds(g.nodes));
  }

  lemma InitialInv(g: Graph)
    requires WellFormed(g)
    ensures Inv(g, Initial(g))
  {
    hide NodeOk, GoalsOk, SeedOk, TargetsExist, NodeMap;
    Reachability.ReachStarts(Elems(g.starts) * NodeMap(g.nodes).Keys, GraphEdges(g.nodes));
  }

  lemma WellFormedSize(g: Graph)
    requires WellFormed(g)
    ensures |g.nodes| <= MAX_NODES
  {
    hide NodeOk, GoalsOk, StartsOk, SeedOk, TargetsExist, Distinct;
  }

  /** Saved choices never reach the bound: each belongs to a completed node. */
  lemma ChoicesStayBounded(g: Graph, selected: map<Id, Id>, completed: seq<Id>)
    requires WellFormed(g) && Distinct(completed)
    requires forall n :: n in completed ==> n in Region(g)
    requires forall n :: n in selected ==> n in completed
    ensures |selected| <= MAX_SAVED
  {
    hide WellFormed;
    assert |g.nodes| <= MAX_NODES by { WellFormedSize(g); }
    RegionIsNodes(g);
    assert |selected| == |selected.Keys|;
    SubsetSize(selected.Keys, NodeMap(g.nodes).Keys);
  }

  lemma FollowedTargetsReachable(g: Graph, n: Id, ts: seq<Transition>, e: Evidence, active: seq<Id>, completed: seq<Id>)
    requires WellFormed(g) && n in Region(g) && n in NodeMap(g.nodes)
    requires forall t :: t in ts ==> t in NodeMap(g.nodes)[n].transitions
    ensures forall x :: x in Opened(ts, e, active, completed) ==> x in Region(g)
  {
    hide WellFormed, Opened, NodeMap, GatesSatisfied, Region;
    OpenedFacts(ts, e, active, completed);
    forall x | x in Opened(ts, e, active, completed) ensures x in Region(g) {
      var t :| t in ts && t.to == x && GatesSatisfied(t.conditions, e);
      RegionStep(g, n, t);
    }
  }

  lemma CompleteStaysInRegion(g: Graph, s: State, node: Id, choice: string, w: World)
    requires WellFormed(g) && Complete(s, g, node, choice, w).Some?
    requires forall x :: x in s.active || x in s.completed ==> x in Region(g)
    ensures var s' := Complete(s, g, node, choice, w).value.0;
            forall x :: x in s'.active || x in s'.completed ==> x in Region(g)
  {
    hide WellFormed, Complete, Opened, NodeMap, GatesSatisfied, Region, ChoicesOk, FindChoice;
    var (s', newly) := Complete(s, g, node, choice, w).value;
    CompletionEffect(s, g, node, choice, w);
    RemoveFirstFacts(s.active, node);
    var n := NodeMap(g.nodes)[node];
    if n.kind != ENDING {
      assert forall t :: t in Pursued(n, choice, EvidenceOf(s, w)).value ==> t in n.transitions;
      FollowedTargetsReachable(g, node, Pursued(n, choice, EvidenceOf(s, w)).value, EvidenceOf(s, w),
                               RemoveFirst(s.active, node), s'.completed);
    }
  }

  lemma RecordingKeepsChoices(g: Graph, s: State, node: Id, choice: Id, completed: seq<Id>)
    requires ChoicesValid(s, g) && (forall x :: x in completed ==> x in s.completed || x == node)
    requires |s.selected[node := choice]| <= MAX_SAVED && Declares(g, node, choice)
    ensures ChoicesOk(s.selected[node := choice], WithoutNode(s.requests, node), completed, g)
  {
    hide Declares, IsExclusive;
    Filtered((r: Request) => r.node != node, s.requests);
  }

  lemma SkippingKeepsChoices(g: Graph, s: State, node: Id, completed: seq<Id>)
    requires ChoicesValid(s, g) && (forall x :: x in completed ==> x in s.completed || x == node)
    requires !IsExclusive(g, node)
    ensures ChoicesOk(s.selected, s.requests, completed, g) && ChoicesOk(s.selected, [], completed, g)
  {
    hide Declares, IsExclusive;
  }

  lemma ExclusiveIsNotEnding(g: Graph, node: Id)
    requires WellFormed(g) && IsExclusive(g, node)
    ensures NodeMap(g.nodes)[node].kind != ENDING
  {
    hide GoalsOk, StartsOk, SeedOk, TargetsExist, TransitionOk, OutcomeOk, IsRef, IsId;
    assert NodeOk(NodeMap(g.nodes)[node], g.schema, g.chapters);
  }

  /** What a completion does to the saved choices: an exclusive node records the one it was given. */
  lemma CompletionChoices(s: State, g: Graph, node: Id, choice: string, w: World)
    requires WellFormed(g) && Complete(s, g, node, choice, w).Some?
    ensures var s' := Complete(s, g, node, choice, w).value.0;
      if IsExclusive(g, node)
      then Declares(g, node, choice) && s'.selected == s.selected[node := choice]
           && s'.requests == WithoutNode(s.requests, node)
      else s'.selected == s.selected && (s'.requests == s.requests || s'.requests == [])
  {
    hide WellFormed, Complete, Opened, NodeMap, GatesSatisfied, ChoicesOk, FindChoice;
    CompletionEffect(s, g, node, choice, w);
    if IsExclusive(g, node) { ExclusiveIsNotEnding(g, node); }
  }

  lemma AppendDistinct(s: seq<Id>, x: Id)
    requires Distinct(s)
    ensures x !in s ==> Distinct(s + [x])
  {
  }

  lemma CompleteKeepsChoices(g: Graph, s: State, node: Id, choice: string, w: World)
    requires WellFormed(g) && Inv(g, s) && Complete(s, g, node, choice, w).Some?
    ensures var s' := Complete(s, g, node, choice, w).value.0;
      && Distinct(s'.completed) && ChoicesValid(s', g)
      && forall n :: n in s'.selected ==> n in s'.completed
  {
    hide WellFormed, Complete, Opened, NodeMap, Region, Distinct, ChoicesOk, Pursued, Declares, IsExclusive,
         WithoutNode;
    var s' := Complete(s, g, node, choice, w).value.0;
    CompleteStaysInRegion(g, s, node, choice, w);
    CompletionEffect(s, g, node, choice, w);
    CompletionChoices(s, g, node, choice, w);
    AppendDistinct(s.completed, node);
    ChoicesStayBounded(g, s'.selected, s'.completed);
    if IsExclusive(g, node) {
      RecordingKeepsChoices(g, s, node, choice, s'.completed);
    } else {
      SkippingKeepsChoices(g, s, node, s'.completed);
    }
  }

  lemma CompleteKeepsInv(g: Graph, s: State, node: Id, choice: string, w: World)
    requires WellFormed(g) && Inv(g, s) && Complete(s, g, node, choice, w).Some?
    ensures Inv(g, Complete(s, g, node, choice, w).value.0)
  {
    hide WellFormed, Complete, Opened, NodeMap, Region, Distinct, ChoicesOk, Pursued;
    CompleteStaysInRegion(g, s, node, choice, w);
    CompleteKeepsChoices(g, s, node, choice, w);
    CompletionEffect(s, g, node, choice, w);
  }

  lemma AdvanceKeepsInv(g: Graph, s: State, w: World, order: seq<Id>)
    requires WellFormed(g) && Inv(g, s) && Elems(order) == Elems(s.completed) && Advance(s, g, w, order).Some?
    ensures Inv(g, Advance(s, g, w, order).value.0)
  {
    if s.ending.None? {
      hide WellFormed, Opened, NodeMap, GatesSatisfied, Region, Kept, KeptAll, Advance;
      var (s', newly) := Advance(s, g, w, order).value;
      AdvanceEffect(s, g, w, order);
      var ts := KeptAll(g, s.selected, order);
      OpenedFacts(ts, EvidenceOf(s, w), s.active, s.completed);
      KeptAllFrom(g, s.selected, order);
      forall x | x in newly ensures x in Region(g) {
        var t :| t in ts && t.to == x && GatesSatisfied(t.conditions, EvidenceOf(s, w));
        var n :| n in order && t in Kept(g, s.selected, n);
        assert n in Elems(order);
        KeptAreTransitions(g, s.selected, n);
        RegionStep(g, n, t);
      }
    }
  }

  lemma AskKeepsInv(g: Graph, s: State, node: Id, choice: Id, actor: string, admitted: bool, w: World)
    requires Inv(g, s) && (admitted ==> actor != "") && Ask(s, g, node, choice, actor, admitted, w).Some?
    ensures Inv(g, Ask(s, g, node, choice, actor, admitted, w).value)
  {
    hide NodeMap, GatesSatisfied, Region, FindChoice, Project, FindView, Offers, Declares;
    Filtered((r: Request) => !(r.node == node && r.actor == actor), s.requests);
  }

  lemma NextKeepsInv(g: Graph, s: State, step: Step)
    requires WellFormed(g) && Inv(g, s) && StepOk(s, step)
    ensures Inv(g, Next(g, s, step))
  {
    hide WellFormed, Complete, Ask, Advance, Region, ChoicesOk;
    match step
    case CompleteStep(node, choice, w) =>
      if Complete(s, g, node, choice, w).Some? { CompleteKeepsInv(g, s, node, choice, w); }
    case ObjectiveStep(_) =>
    case MilestoneStep(_) =>
    case AskStep(node, choice, actor, admitted, w) =>
      if Ask(s, g, node, choice, actor, admitted, w).Some? { AskKeepsInv(g, s, node, choice, actor, admitted, w); }
    case AdvanceStep(w, order) =>
      if Advance(s, g, w, order).Some? { AdvanceKeepsInv(g, s, w, order); }
  }

  lemma {:induction false} RunKeepsInv(g: Graph, s: State, steps: seq<Step>)
    requires WellFormed(g) && Inv(g, s) && StepsOk(g, s, steps)
    ensures Inv(g, Run(g, s, steps))
    decreases |steps|
  {
    hide WellFormed, Inv, Next;
    if steps != [] {
      NextKeepsInv(g, s, steps[0]);
      RunKeepsInv(g, Next(g, s, steps[0]), steps[1..]);
    }
  }

  /** From a new record, every run keeps the invariant; in particular the saved-choice check that guards
      every operation never rejects a record the engine itself produced. */
  lemma EveryRunIsSound(g: Graph, steps: seq<Step>)
    requires WellFormed(g) && StepsOk(g, Initial(g), steps)
    ensures Inv(g, Run(g, Initial(g), steps))
  {
    InitialInv(g);
    RunKeepsInv(g, Initial(g), steps);
  }

  // ---- goals ----

  /** The objectives and milestones that the graph declares. */
  function DeclaredBy(g: Graph): Declared { Declared(Elems(GoalIds(g.milestones)), Elems(GoalIds(g.objectives))) }

  /** Only declared goals, each once. */
  predicate GoalsDeclared(g: Graph, milestones: seq<Id>, objectives: seq<Id>) {
    && Distinct(milestones) && Elems(milestones) <= DeclaredBy(g).milestones
    && Distinct(objectives) && Elems(objectives) <= DeclaredBy(g).objectives
  }

  lemma ElemsSnoc(s: seq<Id>, x: Id)
    ensures Elems(s + [x]) == Elems(s) + {x}
  {}

  lemma InElems(s: seq<Id>, x: Id)
    ensures x in s <==> x in Elems(s)
  {}

  lemma GoalsUntouched(g: Graph, s: State, node: Id, choice: string, w: World)
    requires Complete(s, g, node, choice, w).Some?
    ensures var s' := Complete(s, g, node, choice, w).value.0;
      s'.objectives == s.objectives && s'.milestones == s.milestones
  {
    hide Complete, Opened, NodeMap, ChoicesOk, Pursued, GatesSatisfied, RemoveFirst;
    CompletionEffect(s, g, node, choice, w);
  }

  lemma AskFrame(g: Graph, s: State, node: Id, choice: Id, actor: string, admitted: bool, w: World)
    ensures var r := Ask(s, g, node, choice, actor, admitted, w);
            r.Some? ==> r.value == s.(requests := r.value.requests) && node in s.active
  {
    hide NodeMap, GatesSatisfied, Project, FindView, Offers, Declares, ChoicesOk, FindChoice, Filter;
  }

  lemma AskLeavesGoals(g: Graph, s: State, node: Id, choice: Id, actor: string, admitted: bool, w: World)
    ensures var s' := Next(g, s, AskStep(node, choice, actor, admitted, w));
      s'.objectives == s.objectives && s'.milestones == s.milestones
  {
    hide Ask;
    AskFrame(g, s, node, choice, actor, admitted, w);
  }

  lemma AdvanceLeavesGoals(g: Graph, s: State, w: World, order: seq<Id>)
    ensures var s' := Next(g, s, AdvanceStep(w, order)); s'.objectives == s.objectives && s'.milestones == s.milestones
  {
    hide ChoicesOk, Opened, KeptAll;
  }

  lemma NextKeepsGoals(g: Graph, s: State, step: Step)
    requires GoalsDeclared(g, s.milestones, s.objectives)
    ensures GoalsDeclared(g, Next(g, s, step).milestones, Next(g, s, step).objectives)
  {
    hide Complete, Ask, Advance, Elems, GoalIds, Distinct;
    match step
    case CompleteStep(node, choice, w) =>
      if Complete(s, g, node, choice, w).Some? { GoalsUntouched(g, s, node, choice, w); }
    case ObjectiveStep(id) =>
      AppendDistinct(s.objectives, id);
      ElemsSnoc(s.objectives, id);
      InElems(GoalIds(g.objectives), id);
    case MilestoneStep(id) =>
      AppendDistinct(s.milestones, id);
      ElemsSnoc(s.milestones, id);
      InElems(GoalIds(g.milestones), id);
    case AskStep(node, choice, actor, admitted, w) => AskLeavesGoals(g, s, node, choice, actor, admitted, w);
    case AdvanceStep(w, order) => AdvanceLeavesGoals(g, s, w, order);
  }

  lemma {:induction false} RunKeepsGoals(g: Graph, s: State, steps: seq<Step>)
    requires GoalsDeclared(g, s.milestones, s.objectives)
    ensures GoalsDeclared(g, Run(g, s, steps).milestones, Run(g, s, steps).objectives)
    decreases |steps|
  {
    hide Next, GoalsDeclared;
    if steps != [] {
      NextKeepsGoals(g, s, steps[0]);
      RunKeepsGoals(g, Next(g, s, steps[0]), steps[1..]);
    }
  }

  /** Along every run, missing evidence opens a gate exactly if the gate takes silence for evidence. */
  lemma MissingEvidenceAlongRuns(g: Graph, steps: seq<Step>, gate: Gate, w: World)
    requires EvidenceMissing(gate, w, DeclaredBy(g))
    ensures GateSatisfied(gate, EvidenceOf(Run(g, Initial(g), steps), w)) <==> TakesSilenceForEvidence(gate, w)
  {
    hide EvidenceMissing, GateSatisfied, TakesSilenceForEvidence, Run, DeclaredBy;
    RunKeepsGoals(g, Initial(g), steps);
    MissingEvidenceOpensIff(gate, EvidenceOf(Run(g, Initial(g), steps), w), DeclaredBy(g));
  }

  function ObjectiveSteps(ids: seq<Id>): seq<Step> { Map((id: Id) => ObjectiveStep(id), ids) }

  function MilestoneSteps(ids: seq<Id>): seq<Step> { Map((id: Id) => MilestoneStep(id), ids) }

  lemma PrefixDistinct(rest: seq<Id>, id: Id)
    requires Distinct(rest + [id])
    ensures Distinct(rest) && id !in rest
  {
    var all := rest + [id];
    forall i, j | 0 <= i < j < |rest| ensures rest[i] != rest[j] { assert all[i] != all[j]; }
    forall i | 0 <= i < |rest| ensures rest[i] != id { assert all[i] != all[|rest|]; }
  }

  /** The nodes completed along a trace, in order. */
  function Finished(log: seq<Event>): seq<Id> {
    Map((e: Event) => e.id, Filter((e: Event) => e.NodeCompleted?, log))
  }

  lemma FinishedConcat(a: seq<Event>, b: seq<Event>)
    ensures Finished(a + b) == Finished(a) + Finished(b)
  {
    FilterConcat((e: Event) => e.NodeCompleted?, a, b);
  }

  lemma {:induction false} FilterNone(es: seq<Event>)
    ensures Filter((e: Event) => false, es) == []
  {
    if es != [] { FilterNone(es[1..]); }
  }

  lemma NothingFinished(es: seq<Event>)
    requires forall e :: e in es ==> !e.NodeCompleted?
    ensures Finished(es) == []
  {
    FilterSame((e: Event) => e.NodeCompleted?, (e: Event) => false, es);
    FilterNone(es);
  }

  /** Declared objectives can be completed one after another, and nothing else moves. */
  lemma {:induction false} ReachingObjectives(g: Graph, s: State, ids: seq<Id>)
    requires s.objectives == [] && Distinct(ids) && Elems(ids) <= DeclaredBy(g).objectives
    ensures StepsOk(g, s, ObjectiveSteps(ids))
    ensures var r := Run(g, s, ObjectiveSteps(ids));
      r == s.(objectives := ids, history := r.history, log := r.log) && |r.log| == |s.log| + |ids|
      && Finished(r.log) == Finished(s.log)
  {
    hide Finished, Distinct, GoalIds;
    if ids != [] {
      var rest, id := ids[..|ids| - 1], ids[|ids| - 1];
      assert ids == rest + [id];
      PrefixDistinct(rest, id);
      ElemsSnoc(rest, id);
      ReachingObjectives(g, s, rest);
      assert ObjectiveSteps(ids) == ObjectiveSteps(rest) + [ObjectiveStep(id)];
      InElems(GoalIds(g.objectives), id);
      var before := Run(g, s, ObjectiveSteps(rest));
      assert StepOk(before, ObjectiveStep(id));
      RunSnoc(g, s, ObjectiveSteps(rest), ObjectiveStep(id));
      FinishedConcat(before.log, [ObjectiveCompleted(id)]);
      NothingFinished([ObjectiveCompleted(id)]);
    } else {
      assert ObjectiveSteps(ids) == [];
    }
  }

  lemma {:induction false} ReachingMilestones(g: Graph, s: State, ids: seq<Id>)
    requires s.milestones == [] && Distinct(ids) && Elems(ids) <= DeclaredBy(g).milestones
    ensures StepsOk(g, s, MilestoneSteps(ids))
    ensures var r := Run(g, s, MilestoneSteps(ids));
      r == s.(milestones := ids, history := r.history, log := r.log) && |r.log| == |s.log| + |ids|
      && Finished(r.log) == Finished(s.log)
  {
    hide Finished, Distinct, GoalIds;
    if ids != [] {
      var rest, id := ids[..|ids| - 1], ids[|ids| - 1];
      assert ids == rest + [id];
      PrefixDistinct(rest, id);
      ElemsSnoc(rest, id);
      ReachingMilestones(g, s, rest);
      assert MilestoneSteps(ids) == MilestoneSteps(rest) + [MilestoneStep(id)];
      InElems(GoalIds(g.milestones), id);
      var before := Run(g, s, MilestoneSteps(rest));
      assert StepOk(before, MilestoneStep(id));
      RunSnoc(g, s, MilestoneSteps(rest), MilestoneStep(id));
      FinishedConcat(before.log, [MilestoneReached(id)]);
      NothingFinished([MilestoneReached(id)]);
    } else {
      assert MilestoneSteps(ids) == [];
    }
  }

  // ---- runs end ----

  /** Active entries plus the nodes that are neither active nor completed. */
  function Weight(ids: set<Id>, active: seq<Id>, completed: seq<Id>): nat {
    |active| + |ids - Elems(active) - Elems(completed)|
  }

  function Measure(g: Graph, s: State): nat { Weight(NodeMap(g.nodes).Keys, s.active, s.completed) }

  /** Opening nodes that were neither active nor completed moves them without changing the count. */
  lemma WeightOpen(ids: set<Id>, active: seq<Id>, completed: seq<Id>, newly: seq<Id>)
    requires Distinct(newly) && forall x :: x in newly ==> x in ids && x !in active && x !in completed
    ensures Weight(ids, active + newly, completed) == Weight(ids, active, completed)
  {
    hide Distinct;
    var rest := ids - Elems(active) - Elems(completed);
    DistinctSize(newly);
    assert Elems(active + newly) == Elems(active) + Elems(newly);
    assert ids - Elems(active + newly) - Elems(completed) == rest - Elems(newly);
    assert |rest - Elems(newly)| == |rest| - |Elems(newly)| by {
      assert Elems(newly) <= rest;
      assert rest == (rest - Elems(newly)) + Elems(newly);
    }
  }

  lemma WeightRemove(ids: set<Id>, active: seq<Id>, completed: seq<Id>, node: Id, completed': seq<Id>)
    requires node in active && Elems(completed') == Elems(completed) + {node}
    ensures Weight(ids, RemoveFirst(active, node), completed') == Weight(ids, active, completed) - 1
  {
    RemoveFirstFacts(active, node);
    assert Elems(active) == Elems(RemoveFirst(active, node)) + {node};
    assert ids - Elems(RemoveFirst(active, node)) - Elems(completed') == ids - Elems(active) - Elems(completed);
  }

  lemma WeightClear(ids: set<Id>, active: seq<Id>, completed: seq<Id>)
    ensures Weight(ids, [], completed) <= Weight(ids, active, completed)
  {
    var rest, all := ids - Elems(active) - Elems(completed), ids - Elems([]) - Elems(completed);
    DistinctSize(active);
    SubsetSize(all, rest + Elems(active));
    assert |rest + Elems(active)| == |rest| + |Elems(active)| - |rest * Elems(active)|;
  }

  /** The nodes a completion opens: each once, none of them active or completed before. */
  lemma CompletionOpens(g: Graph, s: State, node: Id, choice: string, w: World)
    requires Complete(s, g, node, choice, w).Some?
    ensures var (s', newly) := Complete(s, g, node, choice, w).value;
      s'.ending.None? ==>
        && s'.active == RemoveFirst(s.active, node) + newly && Distinct(newly)
        && (forall x :: x in newly ==> x !in RemoveFirst(s.active, node) && x !in s'.completed)
  {
    hide Complete, Opened, NodeMap, ChoicesOk, Pursued, RemoveFirst, Distinct, GatesSatisfied;
    var (s', newly) := Complete(s, g, node, choice, w).value;
    CompletionEffect(s, g, node, choice, w);
    if s'.ending.None? {
      OpenedFacts(Pursued(NodeMap(g.nodes)[node], choice, EvidenceOf(s, w)).value, EvidenceOf(s, w),
                  RemoveFirst(s.active, node), s'.completed);
    }
  }

  lemma CompletionFinishes(g: Graph, s: State, node: Id, choice: string, w: World)
    requires Complete(s, g, node, choice, w).Some?
    ensures var s' := Complete(s, g, node, choice, w).value.0;
      && node in s.active && s.ending.None? && Elems(s'.completed) == Elems(s.completed) + {node}
      && s'.completed == (if node in s.completed then s.completed else s.completed + [node])
      && (s'.ending.Some? ==> s'.active == [])
  {
    hide Complete, Opened, NodeMap, ChoicesOk, Pursued, RemoveFirst, GatesSatisfied;
    CompletionEffect(s, g, node, choice, w);
  }

  /** Each completion that does not end the adventure uses up exactly one unit; one that ends it at least one. */
  lemma CompletionMeasure(g: Graph, s: State, node: Id, choice: string, w: World)
    requires WellFormed(g) && Inv(g, s) && Complete(s, g, node, choice, w).Some?
    ensures var s' := Complete(s, g, node, choice, w).value.0;
      if s'.ending.Some? then Measure(g, s') < Measure(g, s) else Measure(g, s') == Measure(g, s) - 1
  {
    hide WellFormed, Complete, NodeMap, Region, Distinct, ChoicesOk, Weight, RemoveFirst, Elems;
    var (s', newly) := Complete(s, g, node, choice, w).value;
    CompleteStaysInRegion(g, s, node, choice, w);
    CompletionFinishes(g, s, node, choice, w);
    CompletionOpens(g, s, node, choice, w);
    RegionIsNodes(g);
    var ids, left := NodeMap(g.nodes).Keys, RemoveFirst(s.active, node);
    WeightRemove(ids, s.active, s.completed, node, s'.completed);
    if s'.ending.Some? {
      WeightClear(ids, left, s'.completed);
    } else {
      WeightOpen(ids, left, s'.completed, newly);
    }
  }

  lemma AdvanceMeasure(g: Graph, s: State, w: World, order: seq<Id>)
    requires WellFormed(g) && Inv(g, s) && Elems(order) == Elems(s.completed) && Advance(s, g, w, order).Some?
    ensures var s' := Advance(s, g, w, order).value.0; Measure(g, s') == Measure(g, s)
  {
    AdvanceKeepsInv(g, s, w, order);
    if s.ending.None? {
      hide WellFormed, Opened, NodeMap, Region, Distinct, ChoicesOk, Weight, KeptAll, Advance;
      AdvanceEffect(s, g, w, order);
      OpenedFacts(KeptAll(g, s.selected, order), EvidenceOf(s, w), s.active, s.completed);
      RegionIsNodes(g);
      WeightOpen(NodeMap(g.nodes).Keys, s.active, s.completed, Advance(s, g, w, order).value.1);
    }
  }

  lemma NextKeepsMeasure(g: Graph, s: State, step: Step)
    requires WellFormed(g) && Inv(g, s) && StepOk(s, step)
    ensures Measure(g, Next(g, s, step)) <= Measure(g, s)
  {
    hide WellFormed, Complete, Ask, Advance, Inv, Weight;
    match step
    case CompleteStep(node, choice, w) =>
      if Complete(s, g, node, choice, w).Some? { CompletionMeasure(g, s, node, choice, w); }
    case AdvanceStep(w, order) =>
      if Advance(s, g, w, order).Some? { AdvanceMeasure(g, s, w, order); }
    case AskStep(node, choice, actor, admitted, w) => AskFrame(g, s, node, choice, actor, admitted, w);
    case _ =>
  }

  /** How many node completions succeed along a run. */
  function Completions(g: Graph, s: State, steps: seq<Step>): nat
    decreases |steps|
  {
    if steps == [] then 0
    else
      (if steps[0].CompleteStep? && Complete(s, g, steps[0].node, steps[0].choice, steps[0].world).Some? then 1 else 0)
      + Completions(g, Next(g, s, steps[0]), steps[1..])
  }

  lemma {:induction false} RunsConsumeMeasure(g: Graph, s: State, steps: seq<Step>)
    requires WellFormed(g) && Inv(g, s) && StepsOk(g, s, steps)
    ensures Completions(g, s, steps) + Measure(g, Run(g, s, steps)) <= Measure(g, s)
    decreases |steps|
  {
    if steps != [] {
      var step := steps[0];
      NextKeepsInv(g, s, step);
      NextKeepsMeasure(g, s, step);
      if step.CompleteStep? && Complete(s, g, step.node, step.choice, step.world).Some? {
        CompletionMeasure(g, s, step.node, step.choice, step.world);
      }
      hide WellFormed, Inv, Complete, Ask, Advance, Measure;
      RunsConsumeMeasure(g, Next(g, s, step), steps[1..]);
    }
  }

  lemma InitialMeasure(g: Graph)
    requires WellFormed(g)
    ensures Measure(g, Initial(g)) == |NodeMap(g.nodes).Keys| + |g.starts| - |Elems(g.starts)|
  {
    hide NodeOk, GoalsOk, SeedOk, TargetsExist, NodeMap, Distinct, IsId;
    var ids, starts := NodeMap(g.nodes).Keys, Elems(g.starts);
    assert starts <= ids;
    assert ids - starts - Elems([]) == ids - starts;
    assert ids == (ids - starts) + starts;
  }

  /** All runs are finite: a run completes a node at most once per node, plus once for every repeated entry
      in the list of start nodes. */
  lemma RunsAreFinite(g: Graph, steps: seq<Step>)
    requires WellFormed(g) && StepsOk(g, Initial(g), steps)
    ensures Completions(g, Initial(g), steps) <= |g.nodes| + |g.starts| - |Elems(g.starts)|
  {
    InitialInv(g);
    RunsConsumeMeasure(g, Initial(g), steps);
    InitialMeasure(g);
    DistinctSize(NodeIds(g.nodes));
  }

  // ---- exclusive choices ----

  /** A successful exclusive completion records its choice, leaves the chosen target active or completed, and
      opens nothing else.  The gates of the choice are looked at twice, before and after the record changes;
      they agree, because completing a node touches neither objectives nor milestones. */
  lemma ExclusiveCompletionIsSound(g: Graph, s: State, node: Id, choice: string, w: World)
    requires WellFormed(g) && IsExclusive(g, node) && Complete(s, g, node, choice, w).Some?
    ensures var (s', newly) := Complete(s, g, node, choice, w).value;
      var t := FindChoice(NodeMap(g.nodes)[node].transitions, choice);
      && t.Some? && AllMet(t.value.conditions, EvidenceOf(s, w))
      && s'.selected == s.selected[node := choice] && s'.ending.None?
      && (t.value.to in s'.active || t.value.to in s'.completed)
      && s'.active == RemoveFirst(s.active, node) + newly
      && (forall x :: x in newly ==> x == t.value.to) && |newly| <= 1
  {
    hide WellFormed, Complete, NodeMap, GatesSatisfied, AllMet, ChoicesOk, FindChoice;
    CompletionEffect(s, g, node, choice, w);
    ExclusiveIsNotEnding(g, node);
    OpenIffAllMet(FindChoice(NodeMap(g.nodes)[node].transitions, choice).value.conditions, EvidenceOf(s, w));
    var ts := Pursued(NodeMap(g.nodes)[node], choice, EvidenceOf(s, w)).value;
    var s' := Complete(s, g, node, choice, w).value.0;
    assert ts[..0] == [];
    assert Opened(ts[..0], EvidenceOf(s, w), RemoveFirst(s.active, node), s'.completed) == [];
  }

  /** The choice, if the node asks for one, is declared and every condition of it is met. */
  predicate ChoiceOpen(n: Node, choice: string, e: Evidence) {
    if n.exclusive then
      exists t :: t in n.transitions && t.choice.Some? && t.choice.value.id == choice && AllMet(t.conditions, e)
    else choice == ""
  }

  lemma InvAllows(g: Graph, s: State)
    requires WellFormed(g) && Inv(g, s)
    ensures ChoicesValid(s, g)
  {
    hide WellFormed, ChoicesOk;
  }

  lemma SameChoiceSameTransition(ts: seq<Transition>, choice: string)
    requires (forall t :: t in ts ==> t.choice.Some?) && DistinctChoices(ts)
    ensures forall t :: t in ts && t.choice.value.id == choice ==> FindChoice(ts, choice) == Some(t)
  {
    forall t | t in ts && t.choice.value.id == choice ensures FindChoice(ts, choice) == Some(t) {
      var found := FindChoice(ts, choice).value;
      var i :| 0 <= i < |ts| && ts[i] == t;
      var j :| 0 <= j < |ts| && ts[j] == found;
    }
  }

  lemma PursuedIff(g: Graph, n: Node, choice: string, e: Evidence)
    requires WellFormed(g) && n in g.nodes
    ensures Pursued(n, choice, e).Some? <==> ChoiceOpen(n, choice, e)
  {
    hide GatesSatisfied, AllMet, IsId, IsRef, Strip;
    assert NodeOk(n, g.schema, g.chapters);
    if n.exclusive {
      SameChoiceSameTransition(n.transitions, choice);
      forall t | t in n.transitions ensures GatesSatisfied(t.conditions, e) <==> AllMet(t.conditions, e) {
        OpenIffAllMet(t.conditions, e);
      }
    }
  }

  /** Along every run a completion is refused for no other reason than these: the adventure has ended, the node is not
      active, or the choice is not one that is open. */
  lemma CompletesIff(g: Graph, steps: seq<Step>, node: Id, choice: string, w: World)
    requires WellFormed(g) && StepsOk(g, Initial(g), steps)
    ensures var s, byId := Run(g, Initial(g), steps), NodeMap(g.nodes);
      Complete(s, g, node, choice, w).Some?
      <==> s.ending.None? && node in s.active && node in byId && ChoiceOpen(byId[node], choice, EvidenceOf(s, w))
  {
    hide WellFormed, StepsOk, Run, Initial, NodeMap, GatesSatisfied, ChoiceOpen, Pursued, ChoicesOk;
    EveryRunIsSound(g, steps);
    InvAllows(g, Run(g, Initial(g), steps));
    if node in NodeMap(g.nodes) {
      PursuedIff(g, NodeMap(g.nodes)[node], choice, EvidenceOf(Run(g, Initial(g), steps), w));
    }
  }

  // ---- endings ----

  /** The part of the record that an ending freezes. */
  ghost predicate Frozen(s: State, ending: Id, completed: seq<Id>, selected: map<Id, Id>) {
    s.ending == Some(ending) && s.active == [] && s.requests == [] && s.completed == completed && s.selected == selected
  }

  lemma FrozenStays(g: Graph, s: State, step: Step, ending: Id, completed: seq<Id>, selected: map<Id, Id>)
    requires Frozen(s, ending, completed, selected)
    ensures Frozen(Next(g, s, step), ending, completed, selected)
  {
    hide ChoicesOk, NodeMap;
    if step.AskStep? {
      hide Ask;
      AskFrame(g, s, step.node, step.choice, step.actor, step.admitted, step.world);
    }
  }

  lemma {:induction false} FrozenAlways(
    g: Graph, s: State, steps: seq<Step>, ending: Id, completed: seq<Id>, selected: map<Id, Id>)
    requires Frozen(s, ending, completed, selected)
    ensures Frozen(Run(g, s, steps), ending, completed, selected)
    decreases |steps|
  {
    hide Next, Frozen;
    if steps != [] {
      FrozenStays(g, s, steps[0], ending, completed, selected);
      FrozenAlways(g, Next(g, s, steps[0]), steps[1..], ending, completed, selected);
    }
  }

  /** Once an ending is recorded nothing is ever active or requested again, no node is completed, and every
      later attempt to complete one is refused. */
  lemma EndingsAbsorb(g: Graph, s: State, steps: seq<Step>)
    requires Inv(g, s) && s.ending.Some?
    ensures var r := Run(g, s, steps);
      && r.ending == s.ending && r.active == [] && r.requests == []
      && r.completed == s.completed && r.selected == s.selected
      && forall node, choice, w :: Complete(r, g, node, choice, w).None?
  {
    FrozenAlways(g, s, steps, s.ending.value, s.completed, s.selected);
  }

  // ---- with distinct start nodes, the record lists no node twice ----

  lemma ActivationsFinishNothing(ids: seq<Id>)
    ensures forall e :: e in Activations(ids) ==> !e.NodeCompleted?
  {
  }

  lemma FinishedOne(node: Id)
    ensures Finished([NodeCompleted(node)]) == [node]
  {
    assert Filter((e: Event) => e.NodeCompleted?, [NodeCompleted(node)]) == [NodeCompleted(node)];
  }

  lemma MarkingLog(s: State, n: Node, choice: string)
    ensures Finished(MarkCompleted(s, n, choice).log) == Finished(s.log) + [n.id]
  {
    hide Finished, RemoveFirst, WithoutNode, LastN;
    var log1 := s.log + [NodeCompleted(n.id)];
    FinishedConcat(s.log, [NodeCompleted(n.id)]);
    FinishedOne(n.id);
    FinishedConcat(log1, [ChoiceSelected(n.id, choice)]);
    NothingFinished([ChoiceSelected(n.id, choice)]);
  }

  /** What a completion writes to the trace: the completion itself, and nothing else that completes a node. */
  lemma CompletionLog(g: Graph, s: State, node: Id, choice: string, w: World)
    requires Complete(s, g, node, choice, w).Some?
    ensures var s' := Complete(s, g, node, choice, w).value.0;
            Finished(s'.log) == Finished(s.log) + [node]
  {
    hide ChoicesOk, Pursued, Opened, GatesSatisfied, Finished, NodeMap, NoteAll, MarkCompleted, Activations;
    var n := NodeMap(g.nodes)[node];
    var (s', newly) := Complete(s, g, node, choice, w).value;
    var s1 := MarkCompleted(s, n, choice);
    MarkingLog(s, n, choice);
    if n.kind == ENDING {
      FinishedConcat(s1.log, [EndingReached(node)]);
      NothingFinished([EndingReached(node)]);
    } else {
      NoteAllFrame(s1, Activations(newly));
      FinishedConcat(s1.log, Activations(newly));
      NothingFinished(Activations(newly)) by { ActivationsFinishNothing(newly); }
    }
  }

  /** No node is active twice, active and completed at once, or completed twice in the whole trace. */
  ghost predicate Once(s: State) {
    && Distinct(s.active)
    && (forall x :: x in s.active ==> x !in s.completed)
    && Finished(s.log) == s.completed
  }

  lemma AppendAllDistinct(s: seq<Id>, t: seq<Id>)
    requires Distinct(s) && Distinct(t) && forall x :: x in t ==> x !in s
    ensures Distinct(s + t)
  {
    var r := s + t;
    forall i, j | 0 <= i < j < |r| ensures r[i] != r[j] {
      if i < |s| <= j { assert r[j] in t; }
    }
  }

  lemma EmptyDistinct()
    ensures Distinct<Id>([])
  {
  }

  lemma CompleteKeepsOnce(g: Graph, s: State, node: Id, choice: string, w: World)
    requires Once(s) && Complete(s, g, node, choice, w).Some?
    ensures Once(Complete(s, g, node, choice, w).value.0)
  {
    hide Complete, Distinct, Finished;
    var (s', newly) := Complete(s, g, node, choice, w).value;
    CompletionFinishes(g, s, node, choice, w);
    CompletionOpens(g, s, node, choice, w);
    CompletionLog(g, s, node, choice, w);
    RemoveFirstFacts(s.active, node);
    if s'.ending.None? {
      AppendAllDistinct(RemoveFirst(s.active, node), newly);
    } else {
      EmptyDistinct();
    }
  }

  lemma AdvanceKeepsOnce(g: Graph, s: State, w: World, order: seq<Id>)
    requires Once(s) && Advance(s, g, w, order).Some?
    ensures Once(Advance(s, g, w, order).value.0)
  {
    hide Distinct, Finished, Opened, KeptAll, ChoicesOk;
    if s.ending.None? {
      var (s', newly) := Advance(s, g, w, order).value;
      AdvanceEffect(s, g, w, order);
      OpenedFacts(KeptAll(g, s.selected, order), EvidenceOf(s, w), s.active, s.completed);
      AppendAllDistinct(s.active, newly);
      FinishedConcat(s.log, Reopenings(newly));
      NothingFinished(Reopenings(newly));
    } else {
      EmptyDistinct();
    }
  }

  lemma NextKeepsOnce(g: Graph, s: State, step: Step)
    requires Once(s)
    ensures Once(Next(g, s, step))
  {
    hide Complete, Ask, Advance, Distinct, Finished;
    match step
    case CompleteStep(node, choice, w) =>
      if Complete(s, g, node, choice, w).Some? { CompleteKeepsOnce(g, s, node, choice, w); }
    case AdvanceStep(w, order) =>
      if Advance(s, g, w, order).Some? { AdvanceKeepsOnce(g, s, w, order); }
    case AskStep(node, choice, actor, admitted, w) => AskFrame(g, s, node, choice, actor, admitted, w);
    case ObjectiveStep(id) =>
      FinishedConcat(s.log, [ObjectiveCompleted(id)]);
      NothingFinished([ObjectiveCompleted(id)]);
    case MilestoneStep(id) =>
      FinishedConcat(s.log, [MilestoneReached(id)]);
      NothingFinished([MilestoneReached(id)]);
  }

  lemma {:induction false} RunKeepsOnce(g: Graph, s: State, steps: seq<Step>)
    requires Once(s)
    ensures Once(Run(g, s, steps))
    decreases |steps|
  {
    hide Once, Next;
    if steps != [] {
      NextKeepsOnce(g, s, steps[0]);
      RunKeepsOnce(g, Next(g, s, steps[0]), steps[1..]);
    }
  }

  lemma InitialOnceIff(g: Graph)
    ensures Once(Initial(g)) <==> Distinct(g.starts)
  {
    NothingFinished(Activations(g.starts));
  }

  lemma EmptyRun(g: Graph, s: State)
    ensures StepsOk(g, s, []) && Run(g, s, []) == s
  {}

  /** Along every run the record lists no node twice, neither as active nor as completed nor as both, exactly if the
      start list repeats nothing; otherwise the new record does already.  `ProgressRepeats` says which nodes are then
      completed twice. */
  lemma ListedOnceIffStartsDistinct(g: Graph)
    requires WellFormed(g)
    ensures Distinct(g.starts) <==> forall steps :: StepsOk(g, Initial(g), steps) ==> Once(Run(g, Initial(g), steps))
  {
    hide WellFormed, Once, StepsOk, Run, Initial;
    InitialOnceIff(g);
    if Distinct(g.starts) {
      forall steps | StepsOk(g, Initial(g), steps) ensures Once(Run(g, Initial(g), steps)) {
        RunKeepsOnce(g, Initial(g), steps);
      }
    } else {
      EmptyRun(g, Initial(g));
    }
  }

  // ---- what a run that goes quiet has covered ----

  lemma NoGates(e: Evidence)
    ensures GatesSatisfied([], e)
  {
  }

  /** Nothing is forgotten: while the adventure is open, every start node and every ungated target of a completed
      node, along the choice recorded if there was one, is active or completed. */
  ghost predicate Followed(g: Graph, s: State) {
    s.ending.None? ==>
      && (forall x :: x in g.starts ==> x in s.active || x in s.completed)
      && (forall c, t :: c in s.completed && t in Kept(g, s.selected, c) && t.conditions == [] ==>
            t.to in s.active || t.to in s.completed)
  }

  /** The choice on record is the one transition the completion followed. */
  lemma KeptIsPursued(g: Graph, node: Id, choice: string, selected: map<Id, Id>, e: Evidence, t: Transition)
    requires WellFormed(g) && node in NodeMap(g.nodes) && t in Kept(g, selected, node)
    requires Pursued(NodeMap(g.nodes)[node], choice, e).Some?
    requires IsExclusive(g, node) ==> node in selected && selected[node] == choice
    ensures t in Pursued(NodeMap(g.nodes)[node], choice, e).value
  {
    hide GoalsOk, StartsOk, SeedOk, TargetsExist, OutcomeOk, IsRef, GatesSatisfied, IsId, NodeMap;
    var n := NodeMap(g.nodes)[node];
    KeptAreTransitions(g, selected, node);
    if n.exclusive {
      Filtered((t: Transition) => t.choice.Some? && t.choice.value.id == selected[node], n.transitions);
      var chosen := FindChoice(n.transitions, choice).value;
      assert NodeOk(n, g.schema, g.chapters);
      var i :| 0 <= i < |n.transitions| && n.transitions[i] == t;
      var j :| 0 <= j < |n.transitions| && n.transitions[j] == chosen;
    }
  }

  /** Completing a node only moves it: everything active or completed before is active or completed after. */
  lemma CompletionKeepsSeen(g: Graph, s: State, node: Id, choice: string, w: World)
    requires Complete(s, g, node, choice, w).Some?
    ensures var s' := Complete(s, g, node, choice, w).value.0;
      s'.ending.None? ==> forall x :: x in s.active || x in s.completed ==> x in s'.active || x in s'.completed
  {
    hide Complete, Opened, NodeMap, ChoicesOk, Pursued, RemoveFirst, GatesSatisfied, Distinct;
    CompletionFinishes(g, s, node, choice, w);
    CompletionOpens(g, s, node, choice, w);
    RemoveFirstFacts(s.active, node);
  }

  /** A completion follows every ungated transition it should. */
  lemma CompletionFollows(g: Graph, s: State, node: Id, choice: string, w: World, t: Transition)
    requires WellFormed(g) && Complete(s, g, node, choice, w).Some?
    requires t in Kept(g, Complete(s, g, node, choice, w).value.0.selected, node) && t.conditions == []
    ensures var s' := Complete(s, g, node, choice, w).value.0;
      s'.ending.None? ==> t.to in s'.active || t.to in s'.completed
  {
    hide WellFormed, Complete, Opened, NodeMap, ChoicesOk, Pursued, Kept, FindChoice, Declares, RemoveFirst, Distinct;
    CompletionEffect(s, g, node, choice, w);
    var s' := Complete(s, g, node, choice, w).value.0;
    var e, n := EvidenceOf(s, w), NodeMap(g.nodes)[node];
    var ts := Pursued(n, choice, e).value;
    KeptIsPursued(g, node, choice, s'.selected, e, t);
    OpenedFacts(ts, e, RemoveFirst(s.active, node), s'.completed);
    assert GatesSatisfied(t.conditions, e);
  }

  lemma KeptElsewhere(g: Graph, selected: map<Id, Id>, selected': map<Id, Id>, c: Id)
    requires c in selected <==> c in selected'
    requires c in selected ==> selected[c] == selected'[c]
    ensures Kept(g, selected, c) == Kept(g, selected', c)
  {
    if c in selected && c in NodeMap(g.nodes) {
      FilterSame((t: Transition) => t.choice.Some? && t.choice.value.id == selected[c],
                 (t: Transition) => t.choice.Some? && t.choice.value.id == selected'[c],
                 NodeMap(g.nodes)[c].transitions);
    }
  }

  lemma CompleteKeepsFollowed(g: Graph, s: State, node: Id, choice: string, w: World)
    requires WellFormed(g) && Followed(g, s) && Complete(s, g, node, choice, w).Some?
    ensures Followed(g, Complete(s, g, node, choice, w).value.0)
  {
    hide WellFormed, Complete, NodeMap, ChoicesOk, Kept, IsExclusive, Declares;
    var s' := Complete(s, g, node, choice, w).value.0;
    if s'.ending.None? {
      CompletionFinishes(g, s, node, choice, w);
      CompletionKeepsSeen(g, s, node, choice, w);
      CompletionChoices(s, g, node, choice, w);
      forall c, t | c in s'.completed && t in Kept(g, s'.selected, c) && t.conditions == []
        ensures t.to in s'.active || t.to in s'.completed
      {
        if c == node {
          CompletionFollows(g, s, node, choice, w, t);
        } else {
          KeptElsewhere(g, s.selected, s'.selected, c);
          assert c in s.completed;
        }
      }
    }
  }

  lemma NextKeepsFollowed(g: Graph, s: State, step: Step)
    requires WellFormed(g) && Followed(g, s)
    ensures Followed(g, Next(g, s, step))
  {
    hide WellFormed, Complete, Ask, Kept, KeptAll, ChoicesOk, Opened;
    match step
    case CompleteStep(node, choice, w) =>
      if Complete(s, g, node, choice, w).Some? { CompleteKeepsFollowed(g, s, node, choice, w); }
    case AskStep(node, choice, actor, admitted, w) => AskFrame(g, s, node, choice, actor, admitted, w);
    case _ =>
  }

  lemma {:induction false} RunKeepsFollowed(g: Graph, s: State, steps: seq<Step>)
    requires WellFormed(g) && Followed(g, s)
    ensures Followed(g, Run(g, s, steps))
    decreases |steps|
  {
    hide WellFormed, Followed, Next;
    if steps != [] {
      NextKeepsFollowed(g, s, steps[0]);
      RunKeepsFollowed(g, Next(g, s, steps[0]), steps[1..]);
    }
  }

  /** The edges that no gate and no choice can hold back. */
  ghost function FreeEdges(g: Graph): Reachability.Edges<Id> {
    var byId := NodeMap(g.nodes);
    set id, t | id in byId && !byId[id].exclusive && t in byId[id].transitions && t.conditions == [] :: (id, t.to)
  }

  lemma StartsAreNodes(g: Graph)
    requires WellFormed(g)
    ensures Elems(g.starts) <= NodeMap(g.nodes).Keys
  {
    hide NodeOk, GoalsOk, SeedOk, TargetsExist, IsId;
  }

  lemma FreeEdgeIsKept(g: Graph, selected: map<Id, Id>, e: (Id, Id))
    requires e in FreeEdges(g)
    ensures exists t :: t in Kept(g, selected, e.0) && t.to == e.1 && t.conditions == []
  {
  }

  lemma QuietStateCovers(g: Graph, s: State)
    requires WellFormed(g) && Inv(g, s) && Followed(g, s) && s.active == [] && s.ending.None?
    ensures Reachability.Reach(Elems(g.starts), FreeEdges(g)) <= Elems(s.completed) <= Region(g)
    ensures FreeEdges(g) == GraphEdges(g.nodes) ==> Elems(s.completed) == Region(g)
  {
    hide WellFormed, NodeMap, Kept, ChoicesOk, FreeEdges, GraphEdges, Distinct;
    StartsAreNodes(g);
    assert Elems(g.starts) * NodeMap(g.nodes).Keys == Elems(g.starts);
    forall e | e in FreeEdges(g) && e.0 in Elems(s.completed) ensures e.1 in Elems(s.completed) {
      FreeEdgeIsKept(g, s.selected, e);
    }
    Reachability.ReachIsLeast(Elems(g.starts), FreeEdges(g));
  }

  /** When a run has nothing active left and no ending was reached, it has completed everything that free edges
      reach from the starts, and nothing beyond what the whole graph reaches; on a graph whose edges are all free
      that is exactly the reachable set that the traversal computes. */
  lemma QuietRunCoversGraph(g: Graph, steps: seq<Step>)
    requires WellFormed(g) && StepsOk(g, Initial(g), steps)
    requires var s := Run(g, Initial(g), steps); s.active == [] && s.ending.None?
    ensures var s := Run(g, Initial(g), steps);
      && Reachability.Reach(Elems(g.starts), FreeEdges(g)) <= Elems(s.completed) <= Region(g)
      && (FreeEdges(g) == GraphEdges(g.nodes) ==> Elems(s.completed) == Region(g))
  {
    EveryRunIsSound(g, steps);
    InitialInv(g);
    RunKeepsFollowed(g, Initial(g), steps);
    QuietStateCovers(g, Run(g, Initial(g), steps));
  }
}
