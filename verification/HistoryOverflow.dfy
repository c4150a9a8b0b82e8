/** A run of the engine after which a record holds more than a hundred events. */
module HistoryOverflow {
  import opened Values
  import opened Gates
  import opened GraphModel
  import opened Progress
  import opened ProgressRuns
  import opened ProgressHistory

  const DOOR := Gate(FACT_EQUALS, "door", Str("open"))

  function PlainNode(id: Id, ts: seq<Transition>): Node {
    Node(id, "scene", None, Public, false, "", "", ts, false, [], None, None, [])
  }

  function GoalId(i: nat): Id { "g_" + Decimal(i) }

  function Goals(n: nat): seq<Goal> { seq(n, i requires 0 <= i < n => Goal(GoalId(i), "", Gm, [])) }

  function FirstGoals(n: nat): seq<Id> { seq(n, i requires 0 <= i < n => GoalId(i)) }

  /** A scene, a door to another scene, and as many goals as a graph may have. */
  function Guarded(): Graph {
    Graph("g", 1, NO_SEED, Public, [], [PlainNode("a", [Transition("b", [DOOR], None)]), PlainNode("b", [])],
          Goals(MAX_OBJECTIVES), Goals(MAX_MILESTONES), ["a"])
  }

  /** A world that knows nothing but the state of the door. */
  function Door(state: string): World {
    World(k => if k == "door" then Some(Str(state)) else None, k => Unrecorded, k => Unrecorded, k => Unrecorded,
          k => None, None)
  }

  lemma GoalIdsDiffer(n: nat)
    ensures GoalIds(Goals(n)) == FirstGoals(n) && Distinct(FirstGoals(n))
  {
    hide Decimal;
    forall i, j | 0 <= i < j < n ensures FirstGoals(n)[i] != FirstGoals(n)[j] {
      DecimalInjective(i, j);
      assert GoalId(i)[2..] == Decimal(i) && GoalId(j)[2..] == Decimal(j);
    }
  }

  lemma GoalIdOk(i: nat)
    ensures IsId(GoalId(i))
  {}

  lemma GoalsAreOk(n: nat, nodes: seq<Node>, bound: nat)
    requires n <= bound
    ensures GoalsOk(Goals(n), nodes, bound)
  {
    hide GoalId, IsId;
    GoalIdsDiffer(n);
    forall o | o in Goals(n) ensures GoalOk(o, nodes) {
      var i :| 0 <= i < n && Goals(n)[i] == o;
      GoalIdOk(i);
    }
  }

  lemma DoorGateOk()
    ensures GatesOk([DOOR])
  {
    assert |FACT_EQUALS| == 17 && |AFFECTION| == 15;
    assert FACT_EQUALS in GATE_TYPES;
  }

  lemma NodesAreOk()
    ensures NodeOk(Guarded().nodes[0], 1, []) && NodeOk(Guarded().nodes[1], 1, [])
  {
    hide IsRef, Goals, GatesOk;
    DoorGateOk();
    assert |"scene"| == 5 && |ENDING| == 6;
    assert TransitionOk(Transition("b", [DOOR], None), false);
  }

  lemma DoorLeadsSomewhere()
    ensures TargetsExist(Guarded().nodes) && NodeIds(Guarded().nodes) == ["a", "b"]
  {
    hide Goals;
    assert Guarded().nodes[1].transitions == [];
  }

  lemma GuardedIsWellFormed()
    ensures WellFormed(Guarded())
  {
    hide IsRef, Strip, NodeOk, TargetsExist, GoalsOk, Goals;
    assert "a"[0] != "b"[0];
    NodesAreOk();
    DoorLeadsSomewhere();
    GoalsAreOk(MAX_OBJECTIVES, Guarded().nodes, MAX_OBJECTIVES);
    GoalsAreOk(MAX_MILESTONES, Guarded().nodes, MAX_MILESTONES);
  }

  lemma GuardedNodes()
    ensures "a" in NodeMap(Guarded().nodes) && NodeMap(Guarded().nodes)["a"] == Guarded().nodes[0]
  {
    hide NodeMap, Goals;
    DoorLeadsSomewhere();
    assert "a"[0] != "b"[0];
    assert Guarded().nodes[0] in Guarded().nodes;
    NodeMapUnique(Guarded().nodes, Guarded().nodes[0]);
  }

  lemma DoorGate(e: Evidence)
    requires e.world.fact("door").Some?
    ensures GatesSatisfied([DOOR], e) <==> e.world.fact("door").value == Str("open")
  {
    assert GateSatisfied(DOOR, e) <==> e.world.fact("door").value == Str("open");
    assert DOOR in [DOOR];
  }

  lemma PursuedPlain(n: Node, e: Evidence)
    requires !n.exclusive
    ensures Pursued(n, "", e) == Some(n.transitions)
  {}

  lemma Marked(s: State)
    requires s == Initial(Guarded())
    ensures var s1 := MarkCompleted(s, Guarded().nodes[0], "");
      s1 == State([], ["a"], [], [], map[], [], None, s1.history, s1.log) && |s1.log| == 2
  {
    hide Goals;
    assert ["a"][1..] == [];
  }

  lemma ShutDoorOpensNothing(e: Evidence)
    requires e.world == Door("shut")
    ensures Opened([Transition("b", [DOOR], None)], e, [], ["a"]) == []
  {
    hide GatesSatisfied;
    DoorGate(e);
    assert "open"[0] != "shut"[0];
    var ts := [Transition("b", [DOOR], None)];
    assert ts[..0] == [];
  }

  lemma NothingActivated(s: State)
    ensures ActivateAll(s, []) == s
  {}

  /** The first scene is completed while the door is shut. */
  lemma CompletedBehindShutDoor(s: State)
    requires s == Initial(Guarded())
    ensures var r := Complete(s, Guarded(), "a", "", Door("shut"));
      && r.Some?
      && r.value.0 == State([], ["a"], [], [], map[], [], None, r.value.0.history, r.value.0.log)
      && |r.value.0.log| == 2
  {
    hide NodeMap, Goals, Note, Pursued, Opened, GatesSatisfied;
    var g, w := Guarded(), Door("shut");
    GuardedNodes();
    var n := g.nodes[0];
    var e := EvidenceOf(s, w);
    assert Pursued(n, "", e) == Some(n.transitions) by { PursuedPlain(n, e); }
    DoorGate(e);
    assert "open" != "shut" by { assert "open"[0] != "shut"[0]; }
    var s1 := MarkCompleted(s, n, "");
    assert s1 == State([], ["a"], [], [], map[], [], None, s1.history, s1.log) && |s1.log| == 2 by { Marked(s); }
    assert Opened(n.transitions, EvidenceOf(s1, w), [], ["a"]) == [] by { ShutDoorOpensNothing(EvidenceOf(s1, w)); }
    assert ActivateAll(s1, []) == s1 by { NothingActivated(s1); }
    assert |"scene"| == 5 && |ENDING| == 6;
  }

  /** The world advances and the door is open: one more scene, one more event. */
  lemma OpenDoorAdds(s: State)
    requires s.active == [] && s.completed == ["a"] && s.selected == map[] && s.ending.None?
    requires ChoicesValid(s, Guarded())
    ensures var r := Advance(s, Guarded(), Door("open"), ["a"]);
      r.Some? && r.value.0.history == s.history + [NodeReopened("b")]
  {
    hide NodeMap, Goals, ChoicesOk, GatesSatisfied;
    var g, e, t := Guarded(), EvidenceOf(s, Door("open")), Transition("b", [DOOR], None);
    GuardedNodes();
    DoorGate(e);
    assert KeptAll(g, map[], ["a"]) == [t] by {
      assert Kept(g, map[], "a") == [t];
      assert ["a"][..0] == [];
    }
    assert Opened([t], e, [], ["a"]) == ["b"] by {
      assert [t][..0] == [] && "a"[0] != "b"[0];
    }
  }

  /** The run: complete the first scene behind the shut door, complete 64 objectives and 34 milestones, and let the
      world advance with the door open. */
  function OverflowingRun(): seq<Step> {
    [CompleteStep("a", "", Door("shut"))] + ObjectiveSteps(FirstGoals(64)) + MilestoneSteps(FirstGoals(34))
    + [AdvanceStep(Door("open"), ["a"])]
  }

  lemma FirstStep()
    ensures var g, a := Guarded(), [CompleteStep("a", "", Door("shut"))];
      var s1 := Run(g, Initial(g), a);
      && StepsOk(g, Initial(g), a)
      && s1 == State([], ["a"], [], [], map[], [], None, s1.history, s1.log) && |s1.log| == 2
  {
    hide Guarded, Complete, Initial, StepsOk, Run;
    CompletedBehindShutDoor(Initial(Guarded()));
    OneStep(Guarded(), Initial(Guarded()), CompleteStep("a", "", Door("shut")));
  }

  lemma FewerGoals()
    ensures Elems(FirstGoals(34)) <= Elems(FirstGoals(64))
  {
    hide GoalId;
    forall x | x in FirstGoals(34) ensures x in FirstGoals(64) {
      var i :| 0 <= i < 34 && FirstGoals(34)[i] == x;
      assert FirstGoals(64)[i] == x;
    }
  }

  lemma GoalsCanBeReached(s: State)
    requires s.objectives == [] && s.milestones == []
    ensures var g, b, c := Guarded(), ObjectiveSteps(FirstGoals(64)), MilestoneSteps(FirstGoals(34));
      var t := Run(g, s, b);
      var r := Run(g, t, c);
      && StepsOk(g, s, b) && StepsOk(g, t, c)
      && r == s.(objectives := FirstGoals(64), milestones := FirstGoals(34), history := r.history, log := r.log)
      && |r.log| == |s.log| + 98
  {
    hide Run, StepsOk, GoalId, Goals;
    GoalIdsDiffer(64);
    GoalIdsDiffer(34);
    FewerGoals();
    ReachingObjectives(Guarded(), s, FirstGoals(64));
    ReachingMilestones(Guarded(), Run(Guarded(), s, ObjectiveSteps(FirstGoals(64))), FirstGoals(34));
  }

  lemma OnlyGoals()
    ensures forall step :: step in ObjectiveSteps(FirstGoals(64)) ==> !step.AdvanceStep?
    ensures forall step :: step in MilestoneSteps(FirstGoals(34)) ==> !step.AdvanceStep?
  {
    hide FirstGoals;
  }

  lemma HistoryBeforeAdvance(steps: seq<Step>)
    requires forall step :: step in steps ==> !step.AdvanceStep?
    requires StepsOk(Guarded(), Initial(Guarded()), steps)
    ensures var s := Run(Guarded(), Initial(Guarded()), steps);
      && (|s.log| >= MAX_HISTORY ==> |s.history| == MAX_HISTORY) && ChoicesValid(s, Guarded())
  {
    hide Guarded, Run, StepsOk, Initial, WellFormed, ChoicesOk, Region, Distinct;
    GuardedIsWellFormed();
    HistoryIsATail(Guarded(), steps);
    EveryRunIsSound(Guarded(), steps);
  }

  lemma LastStep(s: State)
    requires s.active == [] && s.completed == ["a"] && s.selected == map[] && s.ending.None?
    requires ChoicesValid(s, Guarded()) && |s.history| == MAX_HISTORY
    ensures var d := [AdvanceStep(Door("open"), ["a"])];
      StepsOk(Guarded(), s, d) && |Run(Guarded(), s, d).history| == MAX_HISTORY + 1
  {
    hide Guarded, Advance, Run, StepsOk, ChoicesOk;
    OpenDoorAdds(s);
    OneStep(Guarded(), s, AdvanceStep(Door("open"), ["a"]));
  }

  /** A run from a new record after which the record holds 101 events. */
  lemma AdvanceOverflows()
    ensures WellFormed(Guarded()) && StepsOk(Guarded(), Initial(Guarded()), OverflowingRun())
    ensures |Run(Guarded(), Initial(Guarded()), OverflowingRun()).history| == MAX_HISTORY + 1
  {
    hide WellFormed, Guarded, Next, StepsOk, Run, Initial, ObjectiveSteps, MilestoneSteps, FirstGoals, StepOk;
    var g, s := Guarded(), Initial(Guarded());
    var a := [CompleteStep("a", "", Door("shut"))];
    var b, c, d := ObjectiveSteps(FirstGoals(64)), MilestoneSteps(FirstGoals(34)), [AdvanceStep(Door("open"), ["a"])];
    GuardedIsWellFormed();
    FirstStep();
    var s1 := Run(g, s, a);
    GoalsCanBeReached(s1);
    var s2 := Run(g, s1, b);
    var s3 := Run(g, s2, c);
    RunConcat(g, s, a, b);
    RunConcat(g, s, a + b, c);
    RunConcat(g, s, a + b + c, d);
    OnlyGoals();
    HistoryBeforeAdvance(a + b + c);
    LastStep(s3);
  }
}
