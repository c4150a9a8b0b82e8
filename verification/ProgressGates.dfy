/** What opens a node and what keeps it shut, said of the conditions themselves: every operation and every run. */
module ProgressGates {
  import opened Values
  import opened Gates
  import opened GraphModel
  import opened GraphProjection
  import opened Progress
  import opened ProgressRuns

  // ---- which transitions a step follows ----

  /** A completion follows the node's transitions, or the chosen one; a world advance those of the completed nodes, or
      the one on record. */
  predicate Follows(g: Graph, s: State, step: Step, c: Id, t: Transition) {
    && c in NodeMap(g.nodes) && t in NodeMap(g.nodes)[c].transitions
    && match step
       case CompleteStep(node, choice, _) =>
         c == node && (NodeMap(g.nodes)[c].exclusive ==> t.choice.Some? && t.choice.value.id == choice)
       case AdvanceStep(_, order) =>
         && c in s.completed
         && (NodeMap(g.nodes)[c].exclusive ==> c in s.selected && t.choice.Some? && t.choice.value.id == s.selected[c])
       case _ => false
  }

  /** The step follows the transition, and every condition of it is met by the world and by the goals reached. */
  predicate LetsIn(g: Graph, s: State, step: Step, c: Id, t: Transition) {
    Follows(g, s, step, c, t) && AllMet(t.conditions, Evidence(step.world, s.milestones, s.objectives))
  }

  lemma PursuedAre(g: Graph, n: Node, choice: string, e: Evidence)
    requires WellFormed(g) && n in g.nodes && Pursued(n, choice, e).Some?
    ensures forall t :: t in Pursued(n, choice, e).value
              <==> t in n.transitions && (n.exclusive ==> t.choice.Some? && t.choice.value.id == choice)
  {
    hide GatesSatisfied, IsId, IsRef, Strip;
    assert NodeOk(n, g.schema, g.chapters);
    if n.exclusive { SameChoiceSameTransition(n.transitions, choice); }
  }

  lemma KeptAre(g: Graph, selected: map<Id, Id>, c: Id)
    ensures forall t :: t in Kept(g, selected, c)
              <==> c in NodeMap(g.nodes) && t in NodeMap(g.nodes)[c].transitions
                   && (NodeMap(g.nodes)[c].exclusive ==>
                         c in selected && t.choice.Some? && t.choice.value.id == selected[c])
  {
    if c in NodeMap(g.nodes) && c in selected {
      Filtered((t: Transition) => t.choice.Some? && t.choice.value.id == selected[c], NodeMap(g.nodes)[c].transitions);
    }
  }

  lemma OpenedAreMet(ts: seq<Transition>, e: Evidence, active: seq<Id>, completed: seq<Id>)
    ensures var newly := Opened(ts, e, active, completed);
      && (forall x :: x in newly ==>
            x !in active && x !in completed && exists t :: t in ts && t.to == x && AllMet(t.conditions, e))
      && (forall t :: t in ts && AllMet(t.conditions, e) ==> t.to in active || t.to in completed || t.to in newly)
  {
    hide GatesSatisfied, AllMet, Opened, Distinct;
    OpenedFacts(ts, e, active, completed);
    forall t | t in ts ensures GatesSatisfied(t.conditions, e) <==> AllMet(t.conditions, e) {
      OpenIffAllMet(t.conditions, e);
    }
  }

  // ---- one step ----

  /** Exactly what a completion opens: each new node is behind a transition it follows all of whose conditions are met,
      and every such transition leads to a node that is then active or completed. */
  lemma CompletionOpensWhatIsMet(g: Graph, s: State, node: Id, choice: string, w: World)
    requires WellFormed(g) && Complete(s, g, node, choice, w).Some?
    ensures var s', step := Complete(s, g, node, choice, w).value.0, CompleteStep(node, choice, w);
      && (forall x :: x in s'.active && x !in s.active ==> exists t :: LetsIn(g, s, step, node, t) && t.to == x)
      && (s'.ending.None? ==> forall t :: LetsIn(g, s, step, node, t) ==> t.to in s'.active || t.to in s'.completed)
  {
    hide WellFormed, Complete, NodeMap, Opened, AllMet, ChoicesOk, Pursued, RemoveFirst;
    CompletionEffect(s, g, node, choice, w);
    var (s', newly) := Complete(s, g, node, choice, w).value;
    var n, e := NodeMap(g.nodes)[node], EvidenceOf(s, w);
    PursuedAre(g, n, choice, e);
    OpenedAreMet(Pursued(n, choice, e).value, e, RemoveFirst(s.active, node), s'.completed);
    RemoveFirstFacts(s.active, node);
    forall x | x in s'.active && x !in s.active
      ensures exists t :: LetsIn(g, s, CompleteStep(node, choice, w), node, t) && t.to == x
    {
      assert x in newly;
      var t :| t in Pursued(n, choice, e).value && t.to == x && AllMet(t.conditions, e);
      assert LetsIn(g, s, CompleteStep(node, choice, w), node, t);
    }
  }

  lemma InBoth(a: seq<Id>, b: seq<Id>, x: Id)
    requires Elems(a) == Elems(b)
    ensures x in a <==> x in b
  {
    assert x in a <==> x in Elems(a);
    assert x in b <==> x in Elems(b);
  }

  /** The same for a world advance that visits the completed nodes. */
  lemma AdvanceOpensWhatIsMet(g: Graph, s: State, w: World, order: seq<Id>)
    requires s.ending.None? && Advance(s, g, w, order).Some? && Elems(order) == Elems(s.completed)
    ensures var s', step := Advance(s, g, w, order).value.0, AdvanceStep(w, order);
      && (forall x :: x in s'.active && x !in s.active ==> exists c, t :: LetsIn(g, s, step, c, t) && t.to == x)
      && (forall c, t :: LetsIn(g, s, step, c, t) ==> t.to in s'.active || t.to in s'.completed)
  {
    hide Advance, NodeMap, Opened, AllMet, ChoicesOk, Kept, KeptAll;
    var (s', newly) := Advance(s, g, w, order).value;
    var step, ts, e := AdvanceStep(w, order), KeptAll(g, s.selected, order), EvidenceOf(s, w);
    AdvanceEffect(s, g, w, order);
    KeptAllFrom(g, s.selected, order);
    forall c ensures c in order <==> c in s.completed { InBoth(order, s.completed, c); }
    OpenedAreMet(ts, e, s.active, s.completed);
    forall x | x in s'.active && x !in s.active ensures exists c, t :: LetsIn(g, s, step, c, t) && t.to == x {
      assert x in newly;
      var t :| t in ts && t.to == x && AllMet(t.conditions, e);
      var c :| c in order && t in Kept(g, s.selected, c);
      KeptAre(g, s.selected, c);
      assert LetsIn(g, s, step, c, t);
    }
    forall c, t | LetsIn(g, s, step, c, t) ensures t.to in s'.active || t.to in s'.completed {
      KeptAre(g, s.selected, c);
      assert t in ts;
    }
  }

  lemma EndedAdvanceOpensNothing(g: Graph, s: State, w: World, order: seq<Id>)
    requires s.ending.Some? && Advance(s, g, w, order).Some?
    ensures var s' := Advance(s, g, w, order).value.0; s'.active == [] && s'.completed == s.completed
  {
    hide ChoicesOk, Opened, KeptAll;
  }

  /** Every step: whatever becomes active does so through a transition all of whose conditions are met, and whatever
      becomes completed was active. */
  lemma StepOpensWhatIsMet(g: Graph, s: State, step: Step)
    requires WellFormed(g) && StepOk(s, step)
    ensures var s' := Next(g, s, step);
      && (forall x :: x in s'.active && x !in s.active ==> exists c, t :: LetsIn(g, s, step, c, t) && t.to == x)
      && (forall x :: x in s'.completed && x !in s.completed ==> x in s.active)
  {
    hide WellFormed, Complete, Advance, Ask, LetsIn, Elems;
    var s' := Next(g, s, step);
    match step
    case CompleteStep(node, choice, w) =>
      if Complete(s, g, node, choice, w).Some? {
        CompletionOpensWhatIsMet(g, s, node, choice, w);
        CompletionFinishes(g, s, node, choice, w);
      }
    case AdvanceStep(w, order) =>
      if Advance(s, g, w, order).Some? {
        if s.ending.None? {
          AdvanceOpensWhatIsMet(g, s, w, order);
          AdvanceEffect(s, g, w, order);
        } else {
          EndedAdvanceOpensNothing(g, s, w, order);
        }
      }
    case AskStep(node, choice, actor, admitted, w) => AskFrame(g, s, node, choice, actor, admitted, w);
    case _ =>
  }

  // ---- every run ----

  /** The k-th step of the run followed the transition, with every condition of it met. */
  predicate LetInAt(g: Graph, steps: seq<Step>, k: nat, c: Id, t: Transition)
    requires k < |steps|
  {
    LetsIn(g, Run(g, Initial(g), steps[..k]), steps[k], c, t)
  }

  ghost predicate WasLetIn(g: Graph, steps: seq<Step>, x: Id) {
    exists k, c, t :: 0 <= k < |steps| && LetInAt(g, steps, k, c, t) && t.to == x
  }

  lemma StillLetIn(g: Graph, steps: seq<Step>, more: seq<Step>, x: Id)
    requires WasLetIn(g, steps, x)
    ensures WasLetIn(g, steps + more, x)
  {
    hide Run, LetsIn, Initial;
    var k, c, t :| 0 <= k < |steps| && LetInAt(g, steps, k, c, t) && t.to == x;
    assert (steps + more)[..k] == steps[..k];
    assert LetInAt(g, steps + more, k, c, t);
  }

  lemma NothingDone(g: Graph)
    ensures var s := Run(g, Initial(g), []); s.active == g.starts && s.completed == []
  {}

  lemma LetInLast(g: Graph, earlier: seq<Step>, last: Step, c: Id, t: Transition)
    requires LetsIn(g, Run(g, Initial(g), earlier), last, c, t)
    ensures WasLetIn(g, earlier + [last], t.to)
  {
    hide Run, LetsIn, Initial;
    var steps := earlier + [last];
    assert steps[..|earlier|] == earlier && steps[|earlier|] == last;
    assert LetInAt(g, steps, |earlier|, c, t);
  }

  /** Along every run, no gate is passed: each node that is active or completed is a start node, or was let in at some
      step through a transition every condition of which was met at that step. */
  lemma {:induction false} EveryNodeWasLetIn(g: Graph, steps: seq<Step>, x: Id)
    requires WellFormed(g) && StepsOk(g, Initial(g), steps)
    requires var s := Run(g, Initial(g), steps); x in s.active || x in s.completed
    ensures x in g.starts || WasLetIn(g, steps, x)
    decreases |steps|
  {
    hide WellFormed, StepsOk, Run, Next, LetsIn, WasLetIn, StepOk, Initial;
    if steps == [] {
      NothingDone(g);
    } else {
      var earlier, last := steps[..|steps| - 1], steps[|steps| - 1];
      var s := Run(g, Initial(g), earlier);
      assert steps == earlier + [last];
      RunConcat(g, Initial(g), earlier, [last]);
      OneStep(g, s, last);
      StepOpensWhatIsMet(g, s, last);
      if x in s.active || x in s.completed {
        EveryNodeWasLetIn(g, earlier, x);
        if WasLetIn(g, earlier, x) { StillLetIn(g, earlier, [last], x); }
      } else {
        var c, t :| LetsIn(g, s, last, c, t) && t.to == x;
        LetInLast(g, earlier, last, c, t);
      }
    }
  }

  // ---- requests ----

  /** A player is shown the choice: the graph, the node and the target are public. */
  ghost predicate ShownChoice(g: Graph, n: Node, t: Transition, choice: Id) {
    && g.visibility.Public? && n in g.nodes && n.visibility.Public? && n.exclusive && t in n.transitions
    && t.choice.Some? && t.choice.value.id == choice
    && exists m :: m in g.nodes && m.id == t.to && m.visibility.Public?
  }

  lemma {:induction false} FindViewMisses(ns: seq<NodeView>, id: Id)
    ensures FindView(ns, id).None? ==> forall v :: v in ns ==> v.id != id
  {
    if ns != [] { FindViewMisses(ns[1..], id); }
  }

  lemma OffersIff(n: Node, visible: set<Id>, chapters: set<Id>, choice: Id)
    ensures Offers(PlayerNode(n, visible, chapters), choice)
      <==> n.exclusive
           && exists t :: t in n.transitions && t.choice.Some? && t.choice.value.id == choice && t.to in visible
  {
    var shown, kept := PlayerNode(n, visible, chapters).transitions, EdgesInto(visible, n.transitions);
    EdgesIntoAre(visible, n.transitions);
    forall t | t in kept ensures ForPlayer(t) in shown {
      var i :| 0 <= i < |kept| && kept[i] == t;
      assert shown[i] == ForPlayer(t);
    }
    forall v | v in shown ensures exists t :: t in kept && v.choice == t.choice {
      var i :| 0 <= i < |shown| && shown[i] == v;
      assert kept[i] in kept && v == ForPlayer(kept[i]);
    }
  }

  lemma VisibleIff(g: Graph, id: Id)
    ensures id in VisibleIds(g) <==> exists m :: m in g.nodes && m.id == id && m.visibility.Public?
  {
    PublicNodesAre(g.nodes);
    NodeIdsMember(PublicNodes(g.nodes), id);
  }

  lemma NothingShown(g: Graph)
    requires g.visibility.Gm?
    ensures Project(g, false).nodes == []
  {}

  lemma ShownIsPublic(g: Graph, v: NodeView, n: Node)
    requires Distinct(NodeIds(g.nodes)) && g.visibility.Public? && v in Project(g, false).nodes
    requires n in g.nodes && n.id == v.id
    ensures n.visibility.Public?
  {
    hide Project;
    ViewIdsAre(g, false);
    assert v.id in ViewIds(Project(g, false));
    VisibleNodesArePublic(g);
  }

  lemma PublicIsShown(g: Graph, n: Node)
    requires Distinct(NodeIds(g.nodes)) && g.visibility.Public? && n in g.nodes && n.visibility.Public?
    ensures exists v :: v in Project(g, false).nodes && v.id == n.id
  {
    hide Project;
    ViewNodesAreShown(g, false);
    PublicNodesAre(g.nodes);
    var shown := PublicNodes(g.nodes);
    var i :| 0 <= i < |shown| && shown[i] == n;
    assert Project(g, false).nodes[i] == Shown(g, false, n);
  }

  /** The player's view offers the choice exactly if the graph has it in public. */
  lemma OfferedIff(g: Graph, node: Id, choice: Id)
    requires WellFormed(g)
    ensures (var v := FindView(Project(g, false).nodes, node); v.Some? && Offers(v.value, choice))
      <==> exists n: Node, t :: n.id == node && ShownChoice(g, n, t, choice)
  {
    hide NodeOk, GoalsOk, StartsOk, SeedOk, TargetsExist, Project, PlayerNode, Offers, VisibleIds, VisibleChapterIds,
         Distinct;
    var view, found := Project(g, false), FindView(Project(g, false).nodes, node);
    if g.visibility.Gm? {
      NothingShown(g);
    } else {
      forall id ensures id in VisibleIds(g) <==> exists m :: m in g.nodes && m.id == id && m.visibility.Public? {
        VisibleIff(g, id);
      }
      if found.Some? {
        var n := ViewNodeSource(g, false, found.value);
        ShownIsPublic(g, found.value, n);
        OffersIff(n, VisibleIds(g), VisibleChapterIds(g), choice);
        if Offers(found.value, choice) {
          var t :| t in n.transitions && t.choice.Some? && t.choice.value.id == choice && t.to in VisibleIds(g);
          assert ShownChoice(g, n, t, choice);
        }
        NodeMapUnique(g.nodes, n);
      }
      forall n: Node, t | n.id == node && ShownChoice(g, n, t, choice)
        ensures found.Some? && Offers(found.value, choice)
      {
        NodeMapUnique(g.nodes, n);
        PublicIsShown(g, n);
        FindViewMisses(view.nodes, node);
      }
    }
  }

  /** An actor has at most one request for each node. */
  predicate OnePerActor(rs: seq<Request>) {
    forall i, j :: 0 <= i < j < |rs| ==> rs[i].node != rs[j].node || rs[i].actor != rs[j].actor
  }

  predicate Asked(rs: seq<Request>, node: Id, actor: string) {
    exists r :: r in rs && r.node == node && r.actor == actor
  }

  lemma OnePerActorCons(r: Request, rest: seq<Request>)
    ensures OnePerActor([r] + rest) <==> OnePerActor(rest) && !Asked(rest, r.node, r.actor)
  {
    var all := [r] + rest;
    if OnePerActor(all) {
      forall i, j | 0 <= i < j < |rest| ensures rest[i].node != rest[j].node || rest[i].actor != rest[j].actor {
        assert all[i + 1] == rest[i] && all[j + 1] == rest[j];
      }
      forall q | q in rest ensures q.node != r.node || q.actor != r.actor {
        var i :| 0 <= i < |rest| && rest[i] == q;
        assert all[0] == r && all[i + 1] == q;
      }
    }
  }

  lemma OnePerActorSnoc(rs: seq<Request>, r: Request)
    requires OnePerActor(rs) && !Asked(rs, r.node, r.actor)
    ensures OnePerActor(rs + [r])
  {
    var all := rs + [r];
    forall i, j | 0 <= i < j < |all| ensures all[i].node != all[j].node || all[i].actor != all[j].actor {
      if j == |rs| { assert all[i] in rs; }
    }
  }

  lemma {:induction false} FilterKeepsOnePerActor(keep: Request -> bool, rs: seq<Request>)
    requires OnePerActor(rs)
    ensures OnePerActor(Filter(keep, rs))
  {
    hide OnePerActor;
    if rs != [] {
      assert rs == [rs[0]] + rs[1..];
      OnePerActorCons(rs[0], rs[1..]);
      FilterKeepsOnePerActor(keep, rs[1..]);
      Filtered(keep, rs[1..]);
      OnePerActorCons(rs[0], Filter(keep, rs[1..]));
    }
  }

  /** Taking one actor's request for a node out shortens the list by one if it is there. */
  lemma {:induction false} OthersCount(rs: seq<Request>, node: Id, actor: string)
    requires OnePerActor(rs)
    ensures |Filter((r: Request) => !(r.node == node && r.actor == actor), rs)|
      == |rs| - if Asked(rs, node, actor) then 1 else 0
  {
    hide OnePerActor;
    if rs != [] {
      assert rs == [rs[0]] + rs[1..];
      OnePerActorCons(rs[0], rs[1..]);
      OthersCount(rs[1..], node, actor);
    }
  }

  lemma CompletionRequests(g: Graph, s: State, node: Id, choice: string, w: World)
    requires OnePerActor(s.requests) && Complete(s, g, node, choice, w).Some?
    ensures var s' := Complete(s, g, node, choice, w).value.0;
      && OnePerActor(s'.requests)
      && (forall r :: r in s'.requests
            <==> s'.ending.None? && r in s.requests && !(IsExclusive(g, node) && r.node == node))
  {
    hide Complete, Opened, NodeMap, ChoicesOk, Pursued, RemoveFirst;
    CompletionEffect(s, g, node, choice, w);
    Filtered((r: Request) => r.node != node, s.requests);
    FilterKeepsOnePerActor((r: Request) => r.node != node, s.requests);
  }

  lemma NobodyAsked()
    ensures OnePerActor([])
  {}

  lemma AdvanceRequests(g: Graph, s: State, w: World, order: seq<Id>)
    requires OnePerActor(s.requests) && Advance(s, g, w, order).Some?
    ensures var s' := Advance(s, g, w, order).value.0;
      OnePerActor(s'.requests) && s'.requests == if s.ending.Some? then [] else s.requests
  {
    hide ChoicesOk, Opened, KeptAll, OnePerActor;
    NobodyAsked();
  }

  lemma AskRequests(g: Graph, s: State, node: Id, choice: Id, actor: string, admitted: bool, w: World)
    requires OnePerActor(s.requests) && Ask(s, g, node, choice, actor, admitted, w).Some?
    ensures var s' := Ask(s, g, node, choice, actor, admitted, w).value;
      && OnePerActor(s'.requests)
      && (forall r :: r in s'.requests
            <==> r == Request(node, choice, actor) || (r in s.requests && !(r.node == node && r.actor == actor)))
  {
    hide NodeMap, GatesSatisfied, Project, FindView, Offers, Declares, ChoicesOk, FindChoice, Filter, OnePerActor;
    var others := Filter((r: Request) => !(r.node == node && r.actor == actor), s.requests);
    Filtered((r: Request) => !(r.node == node && r.actor == actor), s.requests);
    FilterKeepsOnePerActor((r: Request) => !(r.node == node && r.actor == actor), s.requests);
    OnePerActorSnoc(others, Request(node, choice, actor));
  }

  /** Which requests a step leaves on record: a request takes the place of the actor's earlier one for the node, a
      completion drops those for an exclusive node, an ending drops all, and nothing else touches them. */
  lemma RequestsAfter(g: Graph, s: State, step: Step)
    requires OnePerActor(s.requests)
    ensures var s' := Next(g, s, step);
      && OnePerActor(s'.requests)
      && (step.AskStep? && Ask(s, g, step.node, step.choice, step.actor, step.admitted, step.world).Some? ==>
            forall r :: r in s'.requests
              <==> r == Request(step.node, step.choice, step.actor)
                   || (r in s.requests && !(r.node == step.node && r.actor == step.actor)))
      && (step.CompleteStep? && Complete(s, g, step.node, step.choice, step.world).Some? ==>
            forall r :: r in s'.requests
              <==> s'.ending.None? && r in s.requests && !(IsExclusive(g, step.node) && r.node == step.node))
      && (step.AdvanceStep? && Advance(s, g, step.world, step.order).Some? ==>
            s'.requests == if s.ending.Some? then [] else s.requests)
      && (step.ObjectiveStep? || step.MilestoneStep? || s' == s ==> s'.requests == s.requests)
  {
    hide Complete, Advance, Ask, Filter, OnePerActor;
    match step
    case CompleteStep(node, choice, w) =>
      if Complete(s, g, node, choice, w).Some? { CompletionRequests(g, s, node, choice, w); }
    case AdvanceStep(w, order) =>
      if Advance(s, g, w, order).Some? { AdvanceRequests(g, s, w, order); }
    case AskStep(node, choice, actor, admitted, w) =>
      if Ask(s, g, node, choice, actor, admitted, w).Some? { AskRequests(g, s, node, choice, actor, admitted, w); }
    case _ =>
  }

  lemma {:induction false} RunKeepsOnePerActor(g: Graph, s: State, steps: seq<Step>)
    requires OnePerActor(s.requests)
    ensures OnePerActor(Run(g, s, steps).requests)
    decreases |steps|
  {
    hide OnePerActor, Next;
    if steps != [] {
      RequestsAfter(g, s, steps[0]);
      RunKeepsOnePerActor(g, Next(g, s, steps[0]), steps[1..]);
    }
  }

  lemma StartsUnasked(g: Graph)
    ensures OnePerActor(Initial(g).requests)
  {}

  lemma ShownIsDeclared(g: Graph, n: Node, t: Transition, choice: Id)
    requires WellFormed(g) && ShownChoice(g, n, t, choice)
    ensures Declares(g, n.id, choice) && FindChoice(NodeMap(g.nodes)[n.id].transitions, choice) == Some(t)
  {
    hide GoalsOk, StartsOk, SeedOk, TargetsExist, IsId, IsRef, Strip, NodeMap;
    NodeMapUnique(g.nodes, n);
    assert NodeOk(n, g.schema, g.chapters);
    SameChoiceSameTransition(n.transitions, choice);
  }

  /** Along every run a request is accepted exactly if the actor may act, the node is active, the player is shown the
      choice, every condition of it is met, and there is room beside the other requests. */
  lemma RequestAcceptedIff(
    g: Graph, steps: seq<Step>, node: Id, choice: Id, actor: string, admitted: bool, w: World)
    requires WellFormed(g) && StepsOk(g, Initial(g), steps)
    ensures var s := Run(g, Initial(g), steps);
      Ask(s, g, node, choice, actor, admitted, w).Some?
      <==> && admitted && node in s.active
           && |s.requests| - (if Asked(s.requests, node, actor) then 1 else 0) < MAX_SAVED
           && exists n: Node, t :: n.id == node && ShownChoice(g, n, t, choice)
                             && AllMet(t.conditions, Evidence(w, s.milestones, s.objectives))
  {
    hide WellFormed, StepsOk, Run, Initial, NodeMap, GatesSatisfied, AllMet, ChoicesOk, Project, FindView, Offers,
         ShownChoice, OnePerActor, Asked;
    var s := Run(g, Initial(g), steps);
    EveryRunIsSound(g, steps);
    InvAllows(g, s);
    StartsUnasked(g);
    RunKeepsOnePerActor(g, Initial(g), steps);
    OthersCount(s.requests, node, actor);
    OfferedIff(g, node, choice);
    forall n: Node, t | n.id == node && ShownChoice(g, n, t, choice)
      ensures Declares(g, node, choice) && FindChoice(NodeMap(g.nodes)[node].transitions, choice) == Some(t)
      ensures GatesSatisfied(t.conditions, EvidenceOf(s, w)) <==> AllMet(t.conditions, EvidenceOf(s, w))
    {
      ShownIsDeclared(g, n, t, choice);
      OpenIffAllMet(t.conditions, EvidenceOf(s, w));
    }
  }
}
