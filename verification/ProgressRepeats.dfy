/** Which nodes a run can complete twice: the design has each node completed once. */
module ProgressRepeats {
  import opened Values
  import opened Gates
  import opened GraphModel
  import opened Progress
  import opened ProgressRuns

  // ---- the condition ----

  function Times(s: seq<Id>, x: Id): nat { multiset(s)[x] }

  /** The goals reached are some of the graph's. */
  predicate Attainable(g: Graph, e: Evidence) { GoalsDeclared(g, e.milestones, e.objectives) }

  /** Some choice of the node can open, in some world and with some of the graph's goals reached. */
  ghost predicate CanOpen(g: Graph, n: Node) {
    exists t, e :: t in n.transitions && t.choice.Some? && Attainable(g, e) && AllMet(t.conditions, e)
  }

  /** The node can be completed while it is active: always, unless it asks for a choice. */
  ghost predicate CanBeCompleted(g: Graph, x: Id) {
    var byId := NodeMap(g.nodes);
    x in byId && (byId[x].exclusive ==> CanOpen(g, byId[x]))
  }

  predicate IsEnding(g: Graph, x: Id) { x in NodeMap(g.nodes) && NodeMap(g.nodes)[x].kind == ENDING }

  /** The start list names the node twice, and completing it is possible and does not end the adventure. */
  ghost predicate CanRepeat(g: Graph, x: Id) { Times(g.starts, x) >= 2 && !IsEnding(g, x) && CanBeCompleted(g, x) }

  // ---- no node beyond those ----

  /** How often a node has been completed and how often it can still be. */
  ghost predicate Counted(g: Graph, s: State, x: Id) {
    && Times(s.active, x) + Times(Finished(s.log), x) <= (if Times(g.starts, x) > 1 then Times(g.starts, x) else 1)
    && (Times(Finished(s.log), x) > 0 ==> x in s.completed && CanBeCompleted(g, x))
    && (Times(Finished(s.log), x) > 0 && IsEnding(g, x) ==> s.ending.Some? && Times(Finished(s.log), x) == 1)
  }

  lemma {:induction false} RemovedOnce(s: seq<Id>, x: Id)
    ensures multiset(RemoveFirst(s, x)) == multiset(s) - multiset{x}
  {
    if s != [] {
      assert s == [s[0]] + s[1..];
      if s[0] != x {
        RemovedOnce(s[1..], x);
        assert multiset(RemoveFirst(s, x)) == multiset{s[0]} + multiset(RemoveFirst(s[1..], x));
      }
    }
  }

  lemma {:induction false} DistinctTimes(s: seq<Id>, x: Id)
    requires Distinct(s)
    ensures Times(s, x) == if x in s then 1 else 0
  {
    if s != [] {
      assert s == [s[0]] + s[1..];
      DistinctCons(s[0], s[1..]);
      DistinctTimes(s[1..], x);
    }
  }

  lemma TimesOfNew(s: seq<Id>, newly: seq<Id>, x: Id)
    requires Distinct(newly) && forall y :: y in newly ==> y !in s
    ensures Times(s + newly, x) == if x in newly then 1 else Times(s, x)
  {
    DistinctTimes(newly, x);
    if x in newly { assert x !in multiset(s); }
  }

  lemma TimesAppend(s: seq<Id>, node: Id, x: Id)
    ensures Times(s + [node], x) == Times(s, x) + if x == node then 1 else 0
  {}

  lemma CompletedCanBe(g: Graph, s: State, node: Id, choice: string, w: World)
    requires WellFormed(g) && GoalsDeclared(g, s.milestones, s.objectives) && Complete(s, g, node, choice, w).Some?
    ensures CanBeCompleted(g, node)
  {
    hide WellFormed, Complete, NodeMap, GoalsDeclared, Opened, ChoicesOk, AllMet, RemoveFirst, Pursued;
    CompletionEffect(s, g, node, choice, w);
    var n := NodeMap(g.nodes)[node];
    PursuedIff(g, n, choice, EvidenceOf(s, w));
    if n.exclusive {
      var t :| t in n.transitions && t.choice.Some? && t.choice.value.id == choice
               && AllMet(t.conditions, EvidenceOf(s, w));
      assert Attainable(g, EvidenceOf(s, w));
    }
  }

  lemma EndingEnds(g: Graph, s: State, node: Id, choice: string, w: World)
    requires Complete(s, g, node, choice, w).Some?
    ensures Complete(s, g, node, choice, w).value.0.ending.Some? <==> IsEnding(g, node)
  {
    hide Complete, NodeMap, Opened, ChoicesOk, GatesSatisfied, RemoveFirst, Pursued;
    CompletionEffect(s, g, node, choice, w);
  }

  lemma CompleteKeepsCount(g: Graph, s: State, node: Id, choice: string, w: World, x: Id)
    requires WellFormed(g) && Inv(g, s) && GoalsDeclared(g, s.milestones, s.objectives)
    requires Counted(g, s, x) && Counted(g, s, node) && Complete(s, g, node, choice, w).Some?
    ensures Counted(g, Complete(s, g, node, choice, w).value.0, x)
  {
    hide WellFormed, Complete, Distinct, Finished, CanBeCompleted, GoalsDeclared, RemoveFirst, ChoicesOk, Region,
         NodeMap, IsEnding;
    var (s', newly) := Complete(s, g, node, choice, w).value;
    CompletionFinishes(g, s, node, choice, w);
    CompletionOpens(g, s, node, choice, w);
    CompletionLog(g, s, node, choice, w);
    CompletedCanBe(g, s, node, choice, w);
    EndingEnds(g, s, node, choice, w);
    RemovedOnce(s.active, node);
    TimesAppend(Finished(s.log), node, x);
    if s'.ending.None? { TimesOfNew(RemoveFirst(s.active, node), newly, x); }
  }

  lemma AdvanceKeepsCount(g: Graph, s: State, w: World, order: seq<Id>, x: Id)
    requires Counted(g, s, x) && Advance(s, g, w, order).Some?
    ensures Counted(g, Advance(s, g, w, order).value.0, x)
  {
    hide Distinct, Finished, Opened, KeptAll, ChoicesOk, CanBeCompleted, IsEnding, GatesSatisfied;
    if s.ending.None? {
      var (s', newly) := Advance(s, g, w, order).value;
      AdvanceEffect(s, g, w, order);
      OpenedFacts(KeptAll(g, s.selected, order), EvidenceOf(s, w), s.active, s.completed);
      TimesOfNew(s.active, newly, x);
      FinishedConcat(s.log, Reopenings(newly));
      NothingFinished(Reopenings(newly));
    }
  }

  lemma GoalKeepsCount(g: Graph, s: State, step: Step, x: Id)
    requires Counted(g, s, x) && (step.ObjectiveStep? || step.MilestoneStep?)
    ensures Counted(g, Next(g, s, step), x)
  {
    hide Finished, CanBeCompleted, IsEnding;
    FinishedConcat(s.log, [ObjectiveCompleted(step.id)]);
    NothingFinished([ObjectiveCompleted(step.id)]);
    FinishedConcat(s.log, [MilestoneReached(step.id)]);
    NothingFinished([MilestoneReached(step.id)]);
  }

  lemma SameCount(g: Graph, s: State, r: State, x: Id)
    requires Counted(g, s, x)
    requires r.active == s.active && r.completed == s.completed && r.log == s.log && r.ending == s.ending
    ensures Counted(g, r, x)
  {
    hide Finished, CanBeCompleted, IsEnding;
  }

  lemma NextKeepsCount(g: Graph, s: State, step: Step)
    requires WellFormed(g) && Inv(g, s) && GoalsDeclared(g, s.milestones, s.objectives)
    requires forall x :: Counted(g, s, x)
    ensures forall x :: Counted(g, Next(g, s, step), x)
  {
    hide WellFormed, Inv, GoalsDeclared, Complete, Ask, Advance, Counted;
    forall x ensures Counted(g, Next(g, s, step), x) {
      match step
      case CompleteStep(node, choice, w) =>
        if Complete(s, g, node, choice, w).Some? { CompleteKeepsCount(g, s, node, choice, w, x); }
      case AdvanceStep(w, order) =>
        if Advance(s, g, w, order).Some? { AdvanceKeepsCount(g, s, w, order, x); }
      case AskStep(node, choice, actor, admitted, w) =>
        AskFrame(g, s, node, choice, actor, admitted, w);
        SameCount(g, s, Next(g, s, step), x);
      case _ => GoalKeepsCount(g, s, step, x);
    }
  }

  lemma {:induction false} RunKeepsCount(g: Graph, s: State, steps: seq<Step>)
    requires WellFormed(g) && Inv(g, s) && GoalsDeclared(g, s.milestones, s.objectives) && StepsOk(g, s, steps)
    requires forall x :: Counted(g, s, x)
    ensures forall x :: Counted(g, Run(g, s, steps), x)
    decreases |steps|
  {
    hide WellFormed, Inv, GoalsDeclared, Counted, Next;
    if steps != [] {
      NextKeepsCount(g, s, steps[0]);
      NextKeepsInv(g, s, steps[0]);
      NextKeepsGoals(g, s, steps[0]);
      RunKeepsCount(g, Next(g, s, steps[0]), steps[1..]);
    }
  }

  lemma InitialCount(g: Graph, x: Id)
    ensures Counted(g, Initial(g), x)
  {
    hide CanBeCompleted, IsEnding;
    NothingFinished(Activations(g.starts));
  }

  lemma InitialGoals(g: Graph)
    ensures GoalsDeclared(g, Initial(g).milestones, Initial(g).objectives)
  {}

  lemma CountAlongRuns(g: Graph, steps: seq<Step>, x: Id)
    requires WellFormed(g) && StepsOk(g, Initial(g), steps)
    ensures Counted(g, Run(g, Initial(g), steps), x)
  {
    hide WellFormed, Inv, GoalsDeclared, Counted, Run, StepsOk;
    InitialInv(g);
    InitialGoals(g);
    forall y ensures Counted(g, Initial(g), y) { InitialCount(g, y); }
    RunKeepsCount(g, Initial(g), steps);
  }

  // ---- each of those ----

  /** Some record on the way has the goals reached that a choice waits for, and has not moved otherwise. */
  lemma GoalsReached(g: Graph, e: Evidence) returns (steps: seq<Step>)
    requires Attainable(g, e)
    ensures StepsOk(g, Initial(g), steps)
    ensures var s := Run(g, Initial(g), steps);
      && EvidenceOf(s, e.world) == e && s.active == g.starts && s.ending.None? && Finished(s.log) == []
  {
    hide StepsOk, Run, Next, Finished, Distinct, DeclaredBy;
    var a, b := ObjectiveSteps(e.objectives), MilestoneSteps(e.milestones);
    steps := a + b;
    NothingFinished(Activations(g.starts));
    ReachingObjectives(g, Initial(g), e.objectives);
    ReachingMilestones(g, Run(g, Initial(g), a), e.milestones);
    RunConcat(g, Initial(g), a, b);
  }

  /** Completing an active node that does not end the adventure, once more. */
  lemma CompletedOnceMore(g: Graph, steps: seq<Step>, x: Id, choice: string, w: World) returns (more: seq<Step>)
    requires WellFormed(g) && StepsOk(g, Initial(g), steps) && x in NodeMap(g.nodes) && !IsEnding(g, x)
    requires var s := Run(g, Initial(g), steps);
      s.ending.None? && x in s.active && ChoiceOpen(NodeMap(g.nodes)[x], choice, EvidenceOf(s, w))
    ensures more == steps + [CompleteStep(x, choice, w)] && StepsOk(g, Initial(g), more)
    ensures var s, r := Run(g, Initial(g), steps), Run(g, Initial(g), more);
      && r.ending.None? && EvidenceOf(r, w) == EvidenceOf(s, w) && Finished(r.log) == Finished(s.log) + [x]
      && Times(r.active, x) >= Times(s.active, x) - 1
  {
    hide WellFormed, StepsOk, Run, Complete, NodeMap, Finished, ChoiceOpen, IsEnding, RemoveFirst, Distinct;
    var s, step := Run(g, Initial(g), steps), CompleteStep(x, choice, w);
    CompletesIff(g, steps, x, choice, w);
    more := steps + [step];
    RunSnoc(g, Initial(g), steps, step);
    CompletionLog(g, s, x, choice, w);
    EndingEnds(g, s, x, choice, w);
    GoalsUntouched(g, s, x, choice, w);
    CompletionOpens(g, s, x, choice, w);
    RemovedOnce(s.active, x);
  }

  lemma CompletedTwice(g: Graph, x: Id, choice: string, e: Evidence) returns (steps: seq<Step>)
    requires WellFormed(g) && x in NodeMap(g.nodes) && !IsEnding(g, x) && Times(g.starts, x) >= 2 && Attainable(g, e)
    requires ChoiceOpen(NodeMap(g.nodes)[x], choice, e)
    ensures StepsOk(g, Initial(g), steps) && Finished(Run(g, Initial(g), steps).log) == [x, x]
  {
    hide WellFormed, StepsOk, Run, NodeMap, Finished, ChoiceOpen, IsEnding, GoalsDeclared;
    steps := GoalsReached(g, e);
    steps := CompletedOnceMore(g, steps, x, choice, e.world);
    steps := CompletedOnceMore(g, steps, x, choice, e.world);
  }

  function NothingKnown(): Evidence {
    Evidence(World(k => None, k => Unrecorded, k => Unrecorded, k => Unrecorded, k => None, None), [], [])
  }

  lemma RepeatsAreRun(g: Graph, x: Id) returns (steps: seq<Step>)
    requires WellFormed(g) && CanRepeat(g, x)
    ensures StepsOk(g, Initial(g), steps) && Finished(Run(g, Initial(g), steps).log) == [x, x]
  {
    hide WellFormed, StepsOk, Run, NodeMap, Finished, IsEnding, AllMet, Initial;
    var n := NodeMap(g.nodes)[x];
    if n.exclusive {
      var t, e :| t in n.transitions && t.choice.Some? && Attainable(g, e) && AllMet(t.conditions, e);
      steps := CompletedTwice(g, x, t.choice.value.id, e);
    } else {
      InitialGoals(g);
      steps := CompletedTwice(g, x, "", NothingKnown());
    }
  }

  lemma OnlyRepeatsRepeat(g: Graph, steps: seq<Step>, x: Id)
    requires WellFormed(g) && StepsOk(g, Initial(g), steps) && Times(Finished(Run(g, Initial(g), steps).log), x) >= 2
    ensures CanRepeat(g, x)
  {
    hide WellFormed, StepsOk, Run, Finished, CanBeCompleted, IsEnding, Initial, Times;
    CountAlongRuns(g, steps, x);
  }

  /** A run completes a node twice exactly if the start list names it twice, it does not end the adventure, and it can
      be completed at all: without a choice always, with choices if one of them can open. */
  lemma CompletedTwiceIff(g: Graph, x: Id)
    requires WellFormed(g)
    ensures (exists steps :: StepsOk(g, Initial(g), steps) && Times(Finished(Run(g, Initial(g), steps).log), x) >= 2)
      <==> CanRepeat(g, x)
  {
    hide WellFormed, StepsOk, Run, Finished, CanRepeat, Initial;
    forall steps | StepsOk(g, Initial(g), steps) && Times(Finished(Run(g, Initial(g), steps).log), x) >= 2
      ensures CanRepeat(g, x)
    {
      OnlyRepeatsRepeat(g, steps, x);
    }
    if CanRepeat(g, x) {
      var steps := RepeatsAreRun(g, x);
      assert Times(Finished(Run(g, Initial(g), steps).log), x) == 2;
    }
  }

  lemma RepeatedIff(s: seq<Id>)
    ensures !Distinct(s) <==> exists x :: Times(s, x) >= 2
  {
    if Distinct(s) {
      forall x ensures Times(s, x) < 2 { DistinctTimes(s, x); }
    } else {
      var i, j :| 0 <= i < j < |s| && s[i] == s[j];
      assert s == s[..i] + [s[i]] + s[i + 1..j] + [s[j]] + s[j + 1..];
      assert Times(s, s[i]) >= 2;
    }
  }

  /** The run completes each node at most once. */
  ghost predicate EachOnce(g: Graph, steps: seq<Step>) { Distinct(Finished(Run(g, Initial(g), steps).log)) }

  lemma EachOnceIff(g: Graph, steps: seq<Step>)
    ensures EachOnce(g, steps) <==> forall x :: Times(Finished(Run(g, Initial(g), steps).log), x) < 2
  {
    RepeatedIff(Finished(Run(g, Initial(g), steps).log));
  }

  lemma Pair(x: Id)
    ensures Times([x, x], x) == 2
  {}

  /** Every run completes each node at most once exactly if no node can repeat. */
  lemma NodesCompleteOnceIff(g: Graph)
    requires WellFormed(g)
    ensures (forall steps | StepsOk(g, Initial(g), steps) :: EachOnce(g, steps)) <==> forall x :: !CanRepeat(g, x)
  {
    hide WellFormed, StepsOk, Run, Finished, CanRepeat, Initial, Times, EachOnce;
    if x :| CanRepeat(g, x) {
      var steps := RepeatsAreRun(g, x);
      EachOnceIff(g, steps);
      assert Times([x, x], x) == 2 by { Pair(x); }
    } else {
      forall steps | StepsOk(g, Initial(g), steps) ensures EachOnce(g, steps) {
        EachOnceIff(g, steps);
        forall x ensures Times(Finished(Run(g, Initial(g), steps).log), x) < 2 {
          if Times(Finished(Run(g, Initial(g), steps).log), x) >= 2 { OnlyRepeatsRepeat(g, steps, x); }
        }
      }
    }
  }

  // ---- an example ----

  /** One scene that the start list names twice. */
  const TWICE: Graph :=
    Graph("g", 1, NO_SEED, Public, [], [
      Node("a", "scene", None, Public, false, "", "", [], false, [], None, None, [])], [], [], ["a", "a"])

  lemma TwiceIsWellFormed()
    ensures WellFormed(TWICE) && "a" in NodeMap(TWICE.nodes) && NodeMap(TWICE.nodes)["a"] == TWICE.nodes[0]
  {
    hide IsRef, NodeMap;
    assert |"scene"| == 5 && |ENDING| == 6;
    assert NodeIds(TWICE.nodes) == ["a"];
    assert TWICE.nodes[0] in TWICE.nodes;
    NodeMapUnique(TWICE.nodes, TWICE.nodes[0]);
  }

  lemma Started(g: Graph)
    ensures StepsOk(g, Initial(g), []) && Run(g, Initial(g), []) == Initial(g)
  {}

  /** The validator accepts it, and two completions in a row both succeed. */
  lemma SceneCompletedTwice(w: World)
    ensures WellFormed(TWICE)
    ensures var steps := [CompleteStep("a", "", w), CompleteStep("a", "", w)];
      StepsOk(TWICE, Initial(TWICE), steps) && Finished(Run(TWICE, Initial(TWICE), steps).log) == ["a", "a"]
  {
    hide WellFormed, StepsOk, Run, NodeMap, Finished;
    TwiceIsWellFormed();
    assert |"scene"| == 5 && |ENDING| == 6;
    NothingFinished(Activations(TWICE.starts));
    Started(TWICE);
    assert Times(TWICE.starts, "a") == 2;
    var one := CompletedOnceMore(TWICE, [], "a", "", w);
    var two := CompletedOnceMore(TWICE, one, "a", "", w);
    assert two == [CompleteStep("a", "", w), CompleteStep("a", "", w)];
  }
}
