/** Running a drafted plan.  The runs of the drafted graph and the simple paths of the plan are the same thing:
    what a run completes, in order, is a simple path from the plan's start, and every such path is some run. */
module StoryRuns {
  import opened Values
  import opened Gates
  import opened GraphModel
  import opened Progress
  import opened ProgressRuns
  import opened StoryDraft

  /** The graph that drafting the plan produces, seen as far as runs depend on it. */
  ghost predicate Drafted(p: Plan, g: Graph) {
    && ValidPlan(p) && WellFormed(g)
    && g.starts == [SceneId(IndexOf(p.scenes, p.start))]
    && |g.nodes| == |p.scenes|
    && forall i :: 0 <= i < |p.scenes| ==>
         && g.nodes[i].id == SceneId(i) && g.nodes[i].kind == "scene"
         && g.nodes[i].exclusive == (|p.scenes[i].nextIds| > 1)
         && p.scenes[i] in p.scenes && g.nodes[i].transitions == PlanTransitions(p, p.scenes[i])
  }

  lemma DraftIsDrafted(p: Plan, directory: Id, exitLabel: string, hintLabel: string)
    requires ValidPlan(p) && IsId(directory)
    ensures Drafted(p, PlanGraph(p, directory, exitLabel, hintLabel))
  {
    hide WellFormed, SceneId, Describe, IsId;
    PlanGraphWellFormed(p, directory, exitLabel, hintLabel);
    var g := PlanGraph(p, directory, exitLabel, hintLabel);
    forall i | 0 <= i < |p.scenes|
      ensures g.nodes[i] == PlanNode(p, i, exitLabel, hintLabel) && p.scenes[i] in p.scenes
    {}
  }

  /** A simple path of the plan from its start, as positions of scenes. */
  predicate PlanPath(p: Plan, path: seq<nat>) {
    && Distinct(path)
    && (forall i :: 0 <= i < |path| ==> path[i] < |p.scenes|)
    && (path != [] ==> p.start in SceneIds(p.scenes) && path[0] == IndexOf(p.scenes, p.start))
    && forall i :: 0 < i < |path| ==> PlanEdge(p, path[i - 1], path[i])
  }

  function NodesOf(path: seq<nat>): (ids: seq<Id>)
    ensures |ids| == |path| && forall i :: 0 <= i < |path| ==> ids[i] == SceneId(path[i])
  {
    seq(|path|, i requires 0 <= i < |path| => SceneId(path[i]))
  }

  /** The record has completed exactly the path, and has at most one node active: one that extends the path. */
  ghost predicate Traces(p: Plan, s: State, path: seq<nat>) {
    && PlanPath(p, path)
    && s.completed == NodesOf(path)
    && s.ending.None?
    && (s.active == [] || exists k: nat :: s.active == [SceneId(k)] && PlanPath(p, path + [k]))
  }

  lemma PathPrefix(p: Plan, path: seq<nat>, k: nat)
    requires PlanPath(p, path + [k])
    ensures PlanPath(p, path) && k < |p.scenes| && k !in path
    ensures path != [] ==> PlanEdge(p, path[|path| - 1], k)
  {
    var q := path + [k];
    assert forall i :: 0 <= i < |path| ==> path[i] == q[i];
    assert q[|path|] == k;
    if path != [] { assert PlanEdge(p, q[|path| - 1], q[|path|]); }
  }

  lemma PathExtends(p: Plan, path: seq<nat>, k: nat)
    requires PlanPath(p, path) && path != [] && PlanEdge(p, path[|path| - 1], k) && k !in path
    ensures PlanPath(p, path + [k])
  {
    var q := path + [k];
    forall i, j | 0 <= i < j < |q| ensures q[i] != q[j] {
      if j == |path| { assert q[i] in path; }
    }
  }

  lemma NodesOfMember(path: seq<nat>, k: nat)
    ensures SceneId(k) in NodesOf(path) <==> k in path
  {
    hide SceneId;
    if SceneId(k) in NodesOf(path) {
      var i :| 0 <= i < |path| && NodesOf(path)[i] == SceneId(k);
      SceneIdInjective(path[i], k);
    }
    if k in path {
      var i :| 0 <= i < |path| && path[i] == k;
      assert NodesOf(path)[i] == SceneId(k);
    }
  }

  lemma DraftedNode(p: Plan, g: Graph, k: nat)
    requires Drafted(p, g) && k < |p.scenes|
    ensures SceneId(k) in NodeMap(g.nodes) && NodeMap(g.nodes)[SceneId(k)] == g.nodes[k]
    ensures g.nodes[k].kind != ENDING
  {
    hide NodeOk, GoalsOk, StartsOk, SeedOk, TargetsExist, SceneId, ValidPlan;
    assert g.nodes[k] in g.nodes;
    NodeMapUnique(g.nodes, g.nodes[k]);
    assert |"scene"| == 5 && |ENDING| == 6;
  }

  lemma DraftedFacts(p: Plan, g: Graph, k: nat)
    requires Drafted(p, g) && k < |p.scenes|
    ensures ValidPlan(p) && WellFormed(g) && p.scenes[k] in p.scenes && k < |g.nodes|
    ensures g.nodes[k].exclusive == (|p.scenes[k].nextIds| > 1)
    ensures g.nodes[k].transitions == PlanTransitions(p, p.scenes[k])
  {
    hide WellFormed, SceneId;
  }

  lemma InitialTraces(p: Plan, g: Graph)
    requires Drafted(p, g)
    ensures Traces(p, Initial(g), [])
    ensures Initial(g).active == [SceneId(IndexOf(p.scenes, p.start))]
    ensures PlanPath(p, [IndexOf(p.scenes, p.start)])
  {
    hide WellFormed, SceneId;
    var k := IndexOf(p.scenes, p.start);
    assert [] + [k] == [k];
  }

  lemma OpensAtMostOne(ts: seq<Transition>, e: Evidence, active: seq<Id>, completed: seq<Id>)
    requires |ts| <= 1
    ensures var newly := Opened(ts, e, active, completed);
      |newly| <= 1 && (newly != [] ==> ts != [] && newly[0] == ts[0].to)
  {
    if ts != [] { assert ts[..0] == []; }
  }

  lemma PursuedAreTransitions(n: Node, choice: string, e: Evidence)
    requires Pursued(n, choice, e).Some?
    ensures forall t :: t in Pursued(n, choice, e).value ==> t in n.transitions
    ensures |n.transitions| <= 1 || n.exclusive ==> |Pursued(n, choice, e).value| <= 1
  {
  }

  /** A completion along the plan opens nothing but the scene it leads to. */
  lemma CompletionOpensOne(p: Plan, g: Graph, s: State, k: nat, choice: string, w: World)
    requires Drafted(p, g) && k < |p.scenes| && Complete(s, g, SceneId(k), choice, w).Some?
    ensures var (s', newly) := Complete(s, g, SceneId(k), choice, w).value;
      && s'.ending.None? && s'.active == RemoveFirst(s.active, SceneId(k)) + newly
      && |newly| <= 1 && (forall x :: x in newly ==> x !in s'.completed)
      && (newly != [] ==> exists m: nat :: PlanEdge(p, k, m) && newly[0] == SceneId(m))
  {
    hide WellFormed, Complete, NodeMap, ChoicesOk, SceneId, ValidPlan, Opened, RemoveFirst, PlanEdge, Pursued,
         GatesSatisfied, Distinct;
    var node := SceneId(k);
    DraftedNode(p, g, k);
    var (s', newly) := Complete(s, g, node, choice, w).value;
    CompletionEffect(s, g, node, choice, w);
    CompletionOpens(g, s, node, choice, w);
    var n, e := g.nodes[k], EvidenceOf(s, w);
    PursuedAreTransitions(n, choice, e);
    OpensAtMostOne(Pursued(n, choice, e).value, e, RemoveFirst(s.active, node), s'.completed);
    if newly != [] {
      var t :| t in n.transitions && t.to == newly[0];
      assert p.scenes[k] in p.scenes;
      var m := PlanTarget(p, k, t);
    }
  }

  /** A record that has completed a path and opened a scene that continues it. */
  lemma TracesFurther(p: Plan, s: State, path: seq<nat>, k: nat)
    requires PlanPath(p, path + [k]) && s.completed == NodesOf(path) + [SceneId(k)] && s.ending.None?
    requires |s.active| <= 1 && forall x :: x in s.active ==> x !in s.completed
    requires s.active != [] ==> exists m: nat :: PlanEdge(p, k, m) && s.active[0] == SceneId(m)
    ensures Traces(p, s, path + [k])
  {
    hide SceneId, PlanEdge, PlanPath;
    assert s.completed == NodesOf(path + [k]);
    if s.active != [] {
      var m: nat :| PlanEdge(p, k, m) && s.active[0] == SceneId(m);
      assert s.active == [SceneId(m)] && s.active[0] in s.active;
      NodesOfMember(path + [k], m);
      PathExtends(p, path + [k], m);
    }
  }

  lemma CompletionExtendsTrace(p: Plan, g: Graph, s: State, path: seq<nat>, node: Id, choice: string, w: World)
    requires Drafted(p, g) && Traces(p, s, path) && Complete(s, g, node, choice, w).Some?
    ensures exists k: nat :: node == SceneId(k) && Traces(p, Complete(s, g, node, choice, w).value.0, path + [k])
  {
    hide WellFormed, Complete, NodeMap, ChoicesOk, SceneId, ValidPlan, PlanEdge, PlanPath, Drafted;
    var (s', newly) := Complete(s, g, node, choice, w).value;
    CompletionFinishes(g, s, node, choice, w);
    var k: nat :| s.active == [SceneId(k)] && PlanPath(p, path + [k]);
    PathPrefix(p, path, k);
    NodesOfMember(path, k);
    CompletionOpensOne(p, g, s, k, choice, w);
    assert RemoveFirst([SceneId(k)], SceneId(k)) == [];
    TracesFurther(p, s', path, k);
  }

  lemma KeptUngated(p: Plan, g: Graph, selected: map<Id, Id>, path: seq<nat>, i: nat, t: Transition)
    requires Drafted(p, g) && PlanPath(p, path) && i < |path| && t in Kept(g, selected, NodesOf(path)[i])
    ensures t.conditions == []
  {
    hide WellFormed, NodeMap, SceneId, ValidPlan, PlanEdge, Kept;
    DraftedNode(p, g, path[i]);
    KeptAreTransitions(g, selected, SceneId(path[i]));
    assert p.scenes[path[i]] in p.scenes;
    var m := PlanTarget(p, path[i], t);
  }

  /** Looking at gates again opens nothing: every transition of a completed scene was followed when it completed. */
  lemma AdvanceOpensNothing(p: Plan, g: Graph, s: State, path: seq<nat>, w: World, order: seq<Id>)
    requires Drafted(p, g) && Traces(p, s, path) && Followed(g, s) && Elems(order) == Elems(s.completed)
    requires Advance(s, g, w, order).Some?
    ensures var s' := Advance(s, g, w, order).value.0;
      s'.active == s.active && s' == s.(history := s'.history, log := s'.log)
  {
    hide WellFormed, NodeMap, ChoicesOk, SceneId, ValidPlan, PlanEdge, Drafted, Kept, KeptAll, Opened, Advance,
         PlanPath;
    AdvanceEffect(s, g, w, order);
    var newly := Advance(s, g, w, order).value.1;
    var ts := KeptAll(g, s.selected, order);
    OpenedFacts(ts, EvidenceOf(s, w), s.active, s.completed);
    KeptAllFrom(g, s.selected, order);
    if newly != [] {
      assert newly[0] in newly;
      var t :| t in ts && t.to == newly[0] && GatesSatisfied(t.conditions, EvidenceOf(s, w));
      var n :| n in order && t in Kept(g, s.selected, n);
      assert n in Elems(order);
      var i :| 0 <= i < |path| && NodesOf(path)[i] == n;
      KeptUngated(p, g, s.selected, path, i, t);
    }
  }

  lemma NextTraces(p: Plan, g: Graph, s: State, path: seq<nat>, step: Step)
    requires Drafted(p, g) && Traces(p, s, path) && Followed(g, s) && StepOk(s, step)
    ensures exists q :: Traces(p, Next(g, s, step), q)
  {
    hide Complete, Advance, Ask, SceneId, Drafted, PlanPath, Followed;
    match step
    case CompleteStep(node, choice, w) =>
      if Complete(s, g, node, choice, w).Some? {
        CompletionExtendsTrace(p, g, s, path, node, choice, w);
        var k: nat :| node == SceneId(k) && Traces(p, Complete(s, g, node, choice, w).value.0, path + [k]);
        assert Traces(p, Next(g, s, step), path + [k]);
      } else {
        assert Traces(p, Next(g, s, step), path);
      }
    case AdvanceStep(w, order) =>
      if Advance(s, g, w, order).Some? { AdvanceOpensNothing(p, g, s, path, w, order); }
      assert Traces(p, Next(g, s, step), path);
    case AskStep(node, choice, actor, admitted, w) =>
      AskFrame(g, s, node, choice, actor, admitted, w);
      assert Traces(p, Next(g, s, step), path);
    case _ => assert Traces(p, Next(g, s, step), path);
  }

  lemma {:induction false} RunTraces(p: Plan, g: Graph, s: State, path: seq<nat>, steps: seq<Step>)
    requires Drafted(p, g) && Traces(p, s, path) && Followed(g, s) && StepsOk(g, s, steps)
    ensures exists q :: Traces(p, Run(g, s, steps), q)
    decreases |steps|
  {
    hide Next, Traces, Followed, WellFormed;
    if steps != [] {
      NextTraces(p, g, s, path, steps[0]);
      NextKeepsFollowed(g, s, steps[0]);
      var q :| Traces(p, Next(g, s, steps[0]), q);
      RunTraces(p, g, Next(g, s, steps[0]), q, steps[1..]);
      assert Run(g, s, steps) == Run(g, Next(g, s, steps[0]), steps[1..]);
    } else {
      assert Traces(p, Run(g, s, steps), path);
    }
  }

  /** On a drafted plan, every run keeps at most one node active, never ends, and has completed, in order, a simple
      path of the plan from its start. */
  lemma RunsFollowThePlan(p: Plan, directory: Id, exitLabel: string, hintLabel: string, steps: seq<Step>)
    requires ValidPlan(p) && IsId(directory)
    requires var g := PlanGraph(p, directory, exitLabel, hintLabel); StepsOk(g, Initial(g), steps)
    ensures var g := PlanGraph(p, directory, exitLabel, hintLabel);
      var s := Run(g, Initial(g), steps);
      |s.active| <= 1 && s.ending.None? && exists path :: PlanPath(p, path) && s.completed == NodesOf(path)
  {
    hide PlanGraph, SceneId, WellFormed, PlanPath, IsId, ValidPlan, Run, Drafted, Initial, StepsOk;
    var g := PlanGraph(p, directory, exitLabel, hintLabel);
    DraftIsDrafted(p, directory, exitLabel, hintLabel);
    InitialTraces(p, g);
    RunTraces(p, g, Initial(g), [], steps);
  }

  // ---- every simple path of the plan is a run ----

  /** The choice that completes scene `j` towards scene `k`. */
  function ChoiceTowards(p: Plan, j: nat, k: nat): string
    requires j < |p.scenes|
  {
    if |p.scenes[j].nextIds| > 1 then ChoiceIdOf(SceneId(k)) else ""
  }

  lemma FoundChoiceIs(p: Plan, s: Scene, t: Transition, m: nat)
    requires ValidPlan(p) && s in p.scenes && t in PlanTransitions(p, s) && t.to == SceneId(m) && |s.nextIds| > 1
    ensures t.choice.Some? && t.choice.value.id == ChoiceIdOf(SceneId(m))
  {
    var j :| 0 <= j < |s.nextIds| && PlanTransitions(p, s)[j] == t;
    assert s.nextIds[j] in s.nextIds;
  }

  /** Completing scene `j` with the choice for `k` follows a transition to `k`. */
  lemma TowardsIsPursued(p: Plan, g: Graph, j: nat, k: nat, e: Evidence)
    requires Drafted(p, g) && PlanEdge(p, j, k)
    ensures var r := Pursued(g.nodes[j], ChoiceTowards(p, j, k), e);
      r.Some? && |r.value| == 1 && r.value[0].to == SceneId(k) && r.value[0].conditions == []
  {
    hide WellFormed, SceneId, Distinct, Drafted, ValidPlan, GatesSatisfied, ChoiceIdOf, PlanTransition;
    DraftedFacts(p, g, j);
    var n, s := g.nodes[j], p.scenes[j];
    var t := PlanEdgeIsDrafted(p, j, k);
    NoGates(e);
    if n.exclusive {
      var choice := ChoiceTowards(p, j, k);
      FoundChoiceIs(p, s, t, k);
      var found := FindChoice(n.transitions, choice).value;
      var m := PlanTarget(p, j, found);
      FoundChoiceIs(p, s, found, m);
      SceneIdInjective(m, k);
      assert GatesSatisfied(found.conditions, e);
    } else {
      var m := PlanTarget(p, j, t);
      assert n.transitions == [t];
    }
  }

  /** An active node whose pursuit is clear can be completed. */
  lemma PursuedCompletes(g: Graph, s: State, node: Id, choice: string, w: World)
    requires ChoicesValid(s, g) && s.ending.None? && node in NodeMap(g.nodes) && node in s.active
    requires Pursued(NodeMap(g.nodes)[node], choice, EvidenceOf(s, w)).Some?
    ensures Complete(s, g, node, choice, w).Some?
  {
    hide NodeMap, ChoicesOk, Pursued, MarkCompleted, Opened, ActivateAll;
  }

  lemma OpensTheTarget(ts: seq<Transition>, e: Evidence, completed: seq<Id>)
    requires |ts| == 1 && ts[0].conditions == [] && ts[0].to !in completed
    ensures Opened(ts, e, [], completed) == [ts[0].to]
  {
    assert ts[..0] == [];
  }

  lemma InvChoices(g: Graph, s: State)
    requires Inv(g, s)
    ensures ChoicesValid(s, g)
  {
    hide ChoicesOk, Distinct, Region;
  }

  lemma CompleteTowards(p: Plan, g: Graph, s: State, path: seq<nat>, j: nat, k: nat, w: World)
    requires Drafted(p, g) && Inv(g, s) && s.ending.None? && s.completed == NodesOf(path) && s.active == [SceneId(j)]
    requires j < |p.scenes| && j !in path && PlanEdge(p, j, k) && k !in path + [j]
    ensures var r := Complete(s, g, SceneId(j), ChoiceTowards(p, j, k), w);
      r.Some? && r.value.0.active == [SceneId(k)]
  {
    hide WellFormed, SceneId, NodeMap, Inv, ChoicesOk, Drafted, PlanEdge, ValidPlan, Pursued, ChoiceTowards, Complete;
    DraftedNode(p, g, j);
    DraftedFacts(p, g, j);
    TowardsIsPursued(p, g, j, k, EvidenceOf(s, w));
    InvChoices(g, s);
    var choice := ChoiceTowards(p, j, k);
    PursuedCompletes(g, s, SceneId(j), choice, w);
    CompletionEffect(s, g, SceneId(j), choice, w);
    var (s', newly) := Complete(s, g, SceneId(j), choice, w).value;
    assert RemoveFirst([SceneId(j)], SceneId(j)) == [];
    var ts := Pursued(g.nodes[j], choice, EvidenceOf(s, w)).value;
    NodesOfMember(path, j);
    assert s'.completed == NodesOf(path + [j]);
    NodesOfMember(path + [j], k);
    OpensTheTarget(ts, EvidenceOf(s, w), s'.completed);
  }

  lemma StartFacts(p: Plan, g: Graph)
    requires Drafted(p, g)
    ensures WellFormed(g) && ValidPlan(p) && p.start in SceneIds(p.scenes)
    ensures Traces(p, Initial(g), []) && Initial(g).active == [SceneId(IndexOf(p.scenes, p.start))]
  {
    hide WellFormed, SceneId, Traces;
    InitialTraces(p, g);
  }

  lemma NoSteps(g: Graph)
    ensures StepsOk(g, Initial(g), []) && Run(g, Initial(g), []) == Initial(g)
  {
  }

  lemma FirstIsStart(p: Plan, k: nat)
    requires PlanPath(p, [k])
    ensures p.start in SceneIds(p.scenes) && k == IndexOf(p.scenes, p.start)
  {
    assert [k][0] == k;
  }

  lemma TraceFacts(p: Plan, s: State, path: seq<nat>)
    requires Traces(p, s, path)
    ensures s.ending.None? && s.completed == NodesOf(path) && PlanPath(p, path)
  {
  }

  lemma CompleteStepOk(s: State, node: Id, choice: string, w: World)
    ensures StepOk(s, CompleteStep(node, choice, w))
  {
  }

  lemma CompletionReachesPath(p: Plan, g: Graph, s: State, path: seq<nat>, j: nat, choice: string, w: World)
    requires Drafted(p, g) && Traces(p, s, path) && s.active == [SceneId(j)]
    requires Complete(s, g, SceneId(j), choice, w).Some?
    ensures Next(g, s, CompleteStep(SceneId(j), choice, w)) == Complete(s, g, SceneId(j), choice, w).value.0
    ensures Traces(p, Complete(s, g, SceneId(j), choice, w).value.0, path + [j])
  {
    hide SceneId, Complete, Traces, Drafted;
    CompletionExtendsTrace(p, g, s, path, SceneId(j), choice, w);
    var k: nat :| SceneId(j) == SceneId(k) && Traces(p, Complete(s, g, SceneId(j), choice, w).value.0, path + [k]);
    SceneIdInjective(j, k);
  }

  /** Some run completes the path and has the given extension of it active. */
  lemma {:induction false} PathCanBeRun(p: Plan, g: Graph, path: seq<nat>, k: nat, w: World) returns (steps: seq<Step>)
    requires Drafted(p, g) && PlanPath(p, path + [k])
    ensures StepsOk(g, Initial(g), steps)
    ensures var s := Run(g, Initial(g), steps); Inv(g, s) && Traces(p, s, path) && s.active == [SceneId(k)]
    decreases |path|
  {
    hide SceneId, PlanEdge, WellFormed, Inv, Next, Drafted, Complete, NodesOf, PlanPath, Traces, ChoiceTowards, StepsOk,
         Run, ValidPlan, IndexOf;
    StartFacts(p, g);
    PathPrefix(p, path, k);
    if path == [] {
      steps := [];
      NoSteps(g);
      EveryRunIsSound(g, []);
      assert path + [k] == [k];
      FirstIsStart(p, k);
    } else {
      var q, j := path[..|path| - 1], path[|path| - 1];
      assert path == q + [j];
      PathPrefix(p, q, j);
      var before := PathCanBeRun(p, g, q, j, w);
      var s := Run(g, Initial(g), before);
      TraceFacts(p, s, q);
      CompleteTowards(p, g, s, q, j, k, w);
      var choice := ChoiceTowards(p, j, k);
      CompletionReachesPath(p, g, s, q, j, choice, w);
      var step := CompleteStep(SceneId(j), choice, w);
      CompleteStepOk(s, SceneId(j), choice, w);
      RunSnoc(g, Initial(g), before, step);
      steps := before + [step];
      EveryRunIsSound(g, steps);
    }
  }

  /** A scene can always be completed: without a choice, or with its first declared one. */
  lemma CanComplete(p: Plan, g: Graph, s: State, j: nat, w: World) returns (choice: string)
    requires Drafted(p, g) && Inv(g, s) && s.ending.None? && j < |p.scenes| && SceneId(j) in s.active
    ensures Complete(s, g, SceneId(j), choice, w).Some?
  {
    hide WellFormed, NodeMap, ChoicesOk, FindChoice, Inv, IndexOf, ValidPlan, Complete, Drafted;
    DraftedNode(p, g, j);
    InvChoices(g, s);
    DraftedFacts(p, g, j);
    if |p.scenes[j].nextIds| > 1 {
      var target := p.scenes[j].nextIds[0];
      assert target in p.scenes[j].nextIds;
      var k := IndexOf(p.scenes, target);
      choice := ChoiceTowards(p, j, k);
      TowardsIsPursued(p, g, j, k, EvidenceOf(s, w));
    } else {
      choice := "";
    }
    PursuedCompletes(g, s, SceneId(j), choice, w);
  }

  lemma PathIsRun(p: Plan, g: Graph, path: seq<nat>, w: World) returns (steps: seq<Step>)
    requires Drafted(p, g) && PlanPath(p, path)
    ensures StepsOk(g, Initial(g), steps) && Run(g, Initial(g), steps).completed == NodesOf(path)
  {
    hide SceneId, Inv, Next, PlanEdge, Drafted, Complete, PlanPath, Traces, StepsOk, Run, NodesOf;
    if path == [] {
      steps := [];
      NoSteps(g);
      StartFacts(p, g);
      TraceFacts(p, Initial(g), []);
    } else {
      var q, j := path[..|path| - 1], path[|path| - 1];
      assert path == q + [j];
      PathPrefix(p, q, j);
      var before := PathCanBeRun(p, g, q, j, w);
      var s := Run(g, Initial(g), before);
      TraceFacts(p, s, q);
      assert SceneId(j) in s.active;
      var choice := CanComplete(p, g, s, j, w);
      CompletionReachesPath(p, g, s, q, j, choice, w);
      var step := CompleteStep(SceneId(j), choice, w);
      CompleteStepOk(s, SceneId(j), choice, w);
      RunSnoc(g, Initial(g), before, step);
      steps := before + [step];
      TraceFacts(p, Run(g, Initial(g), steps), path);
    }
  }

  /** Every simple path of the plan from its start is what some run of the draft completes, in that order. */
  lemma EveryPlanPathIsARun(p: Plan, directory: Id, exitLabel: string, hintLabel: string, path: seq<nat>, w: World)
    requires ValidPlan(p) && IsId(directory) && PlanPath(p, path)
    ensures var g := PlanGraph(p, directory, exitLabel, hintLabel);
      exists steps :: StepsOk(g, Initial(g), steps) && Run(g, Initial(g), steps).completed == NodesOf(path)
  {
    var g := PlanGraph(p, directory, exitLabel, hintLabel);
    DraftIsDrafted(p, directory, exitLabel, hintLabel);
    var steps := PathIsRun(p, g, path, w);
  }
}
