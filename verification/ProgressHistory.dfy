/** The recent history that a progress record keeps of the full trace of its events. */
module ProgressHistory {
  import opened Values
  import opened Gates
  import opened GraphModel
  import opened Progress
  import opened ProgressRuns

  /** The record keeps exactly the last hundred events. */
  ghost predicate Windowed(s: State) { s.history == LastN(s.log, MAX_HISTORY) }

  /** The record keeps a tail of the trace, at least a hundred events long or the whole trace. */
  ghost predicate Tail(s: State) {
    && |s.history| <= |s.log| && s.history == s.log[|s.log| - |s.history|..]
    && (|s.history| >= MAX_HISTORY || s.history == s.log)
  }

  /** A completion is told in this order: the node, its choice if it asked for one, and then the ending or the nodes
      that it opens. */
  lemma CompletionIsTold(g: Graph, s: State, node: Id, choice: string, w: World)
    requires Complete(s, g, node, choice, w).Some?
    ensures var (s', newly) := Complete(s, g, node, choice, w).value;
      s'.log == s.log + [NodeCompleted(node)]
        + (if IsExclusive(g, node) then [ChoiceSelected(node, choice)] else [])
        + (if s'.ending.Some? then [EndingReached(node)]
           else seq(|newly|, i requires 0 <= i < |newly| => NodeActivated(newly[i])))
  {
    hide ChoicesOk, Pursued, Opened, NoteAll, RemoveFirst, WithoutNode;
    var newly := Complete(s, g, node, choice, w).value.1;
    var s1 := MarkCompleted(s, NodeMap(g.nodes)[node], choice);
    NoteAllFrame(s1, Activations(newly));
    assert Activations(newly) == seq(|newly|, i requires 0 <= i < |newly| => NodeActivated(newly[i]));
  }

  lemma EndedAdvanceTellsNothing(g: Graph, s: State, w: World, order: seq<Id>)
    requires s.ending.Some? && Advance(s, g, w, order).Some?
    ensures var s' := Advance(s, g, w, order).value.0; s'.log == s.log && s'.completed == s.completed
  {
    hide ChoicesOk, Opened, KeptAll;
  }

  /** The other steps tell what they do, and a refused one tells nothing. */
  lemma OtherStepsAreTold(g: Graph, s: State, step: Step)
    requires !step.CompleteStep?
    ensures var s' := Next(g, s, step);
      match step
      case ObjectiveStep(id) =>
        if id in GoalIds(g.objectives) && id !in s.objectives
        then s'.log == s.log + [ObjectiveCompleted(id)] && s'.objectives == s.objectives + [id]
        else s' == s
      case MilestoneStep(id) =>
        if id in GoalIds(g.milestones) && id !in s.milestones
        then s'.log == s.log + [MilestoneReached(id)] && s'.milestones == s.milestones + [id]
        else s' == s
      case AdvanceStep(w, order) =>
        && s'.completed == s.completed
        && (if s.ending.Some? then s'.log == s.log
            else
              && s.active <= s'.active
              && s'.log == s.log + Map((id: Id) => NodeReopened(id), s'.active[|s.active|..]))
      case _ => s'.log == s.log
  {
    hide ChoicesOk, Opened, KeptAll, Ask, Advance;
    match step
    case AdvanceStep(w, order) =>
      if Advance(s, g, w, order).Some? {
        if s.ending.None? { AdvanceEffect(s, g, w, order); } else { EndedAdvanceTellsNothing(g, s, w, order); }
      }
    case AskStep(node, choice, actor, admitted, w) => AskFrame(g, s, node, choice, actor, admitted, w);
    case _ =>
  }

  lemma NoteWindows(s: State, e: Event)
    requires Tail(s)
    ensures Windowed(Note(s, e)) && Tail(Note(s, e))
  {
  }

  lemma {:induction false} NoteAllTail(s: State, es: seq<Event>)
    requires Tail(s)
    ensures Tail(NoteAll(s, es)) && (es != [] || Windowed(s) ==> Windowed(NoteAll(s, es)))
    decreases |es|
  {
    if es != [] {
      NoteAllTail(s, es[..|es| - 1]);
      NoteWindows(NoteAll(s, es[..|es| - 1]), es[|es| - 1]);
    }
  }

  lemma SameTail(s: State, r: State)
    requires s.history == r.history && s.log == r.log
    ensures Tail(s) == Tail(r) && Windowed(s) == Windowed(r)
  {
  }

  lemma MarkingWindows(s: State, n: Node, choice: string)
    requires Tail(s)
    ensures Windowed(MarkCompleted(s, n, choice)) && Tail(MarkCompleted(s, n, choice))
  {
    hide Note, RemoveFirst, WithoutNode, Tail, Windowed;
    var s1 := s.(active := RemoveFirst(s.active, n.id),
                 completed := if n.id in s.completed then s.completed else s.completed + [n.id]);
    SameTail(s, s1);
    NoteWindows(s1, NodeCompleted(n.id));
    var s2 := Note(s1, NodeCompleted(n.id));
    if n.exclusive {
      var s3 := s2.(selected := s2.selected[n.id := choice]);
      SameTail(s2, s3);
      NoteWindows(s3, ChoiceSelected(n.id, choice));
      SameTail(Note(s3, ChoiceSelected(n.id, choice)), MarkCompleted(s, n, choice));
    }
  }

  /** Every successful completion restores the window, whatever tail the record held before. */
  lemma CompletionWindows(g: Graph, s: State, node: Id, choice: string, w: World)
    requires Tail(s) && Complete(s, g, node, choice, w).Some?
    ensures var s' := Complete(s, g, node, choice, w).value.0; Windowed(s') && Tail(s')
  {
    hide ChoicesOk, Pursued, Opened, GatesSatisfied, NodeMap, NoteAll, Note, Activations, Tail, Windowed, MarkCompleted;
    var n := NodeMap(g.nodes)[node];
    var (s', newly) := Complete(s, g, node, choice, w).value;
    MarkingWindows(s, n, choice);
    var s1 := MarkCompleted(s, n, choice);
    if n.kind == ENDING {
      var s2 := s1.(ending := Some(node), active := [], requests := []);
      SameTail(s1, s2);
      NoteWindows(s2, EndingReached(node));
    } else {
      NoteAllTail(s1, Activations(newly));
      SameTail(NoteAll(s1, Activations(newly)), s');
    }
  }

  lemma TailGrows(s: State, r: State, es: seq<Event>)
    requires Tail(s) && r.history == s.history + es && r.log == s.log + es
    ensures Tail(r)
    ensures Windowed(r) <==> |r.history| <= MAX_HISTORY
  {
    assert r.history == r.log[|r.log| - |r.history|..];
  }

  /** The window has room for the nodes that the world as it is now opens behind the completed ones. */
  ghost predicate HasRoom(g: Graph, s: State, w: World, order: seq<Id>) {
    |s.history| + |Opened(KeptAll(g, s.selected, order), EvidenceOf(s, w), s.active, s.completed)| <= MAX_HISTORY
  }

  /** A world advance appends without trimming: afterwards the record keeps the window exactly if there was room. */
  lemma AdvanceWindow(g: Graph, s: State, w: World, order: seq<Id>)
    requires Tail(s) && s.ending.None? && Advance(s, g, w, order).Some?
    ensures var (s', newly) := Advance(s, g, w, order).value;
      Tail(s') && |s'.history| == |s.history| + |newly| && (Windowed(s') <==> HasRoom(g, s, w, order))
  {
    hide Opened, KeptAll, ChoicesOk, Advance, Tail, Windowed;
    AdvanceEffect(s, g, w, order);
    var (s', newly) := Advance(s, g, w, order).value;
    assert |Reopenings(newly)| == |newly|;
    TailGrows(s, s', Reopenings(newly));
  }

  lemma AdvanceKeepsTail(g: Graph, s: State, w: World, order: seq<Id>)
    requires Tail(s)
    ensures Tail(Next(g, s, AdvanceStep(w, order)))
  {
    hide ChoicesOk, KeptAll, Opened;
    if s.ending.None? && Advance(s, g, w, order).Some? {
      AdvanceEffect(s, g, w, order);
      TailGrows(s, Advance(s, g, w, order).value.0, Reopenings(Advance(s, g, w, order).value.1));
    }
  }

  lemma NextKeepsTail(g: Graph, s: State, step: Step)
    requires Tail(s)
    ensures Tail(Next(g, s, step))
    ensures Windowed(s) && !step.AdvanceStep? ==> Windowed(Next(g, s, step))
  {
    hide Complete, Ask, Advance, Tail, Windowed;
    match step
    case CompleteStep(node, choice, w) =>
      if Complete(s, g, node, choice, w).Some? { CompletionWindows(g, s, node, choice, w); }
    case AdvanceStep(w, order) => AdvanceKeepsTail(g, s, w, order);
    case AskStep(node, choice, actor, admitted, w) =>
      AskFrame(g, s, node, choice, actor, admitted, w);
      SameTail(s, Next(g, s, step));
    case ObjectiveStep(id) =>
      SameTail(s, s.(objectives := s.objectives + [id]));
      NoteWindows(s.(objectives := s.objectives + [id]), ObjectiveCompleted(id));
    case MilestoneStep(id) =>
      SameTail(s, s.(milestones := s.milestones + [id]));
      NoteWindows(s.(milestones := s.milestones + [id]), MilestoneReached(id));
  }

  lemma {:induction false} RunKeepsTail(g: Graph, s: State, steps: seq<Step>)
    requires Tail(s)
    ensures Tail(Run(g, s, steps))
    ensures Windowed(s) && (forall step :: step in steps ==> !step.AdvanceStep?) ==> Windowed(Run(g, s, steps))
    decreases |steps|
  {
    hide Tail, Windowed, Next;
    if steps != [] {
      NextKeepsTail(g, s, steps[0]);
      RunKeepsTail(g, Next(g, s, steps[0]), steps[1..]);
    }
  }

  /** Along every run the history is a faithful tail of the trace; without world advances it is exactly the
      last hundred events. */
  lemma HistoryIsATail(g: Graph, steps: seq<Step>)
    requires WellFormed(g)
    ensures Tail(Run(g, Initial(g), steps))
    ensures (forall step :: step in steps ==> !step.AdvanceStep?) ==> Windowed(Run(g, Initial(g), steps))
  {
    hide NodeOk, GoalsOk, SeedOk, TargetsExist;
    RunKeepsTail(g, Initial(g), steps);
  }

  /** An advance needs room unless the adventure has ended or the saved choices make the engine refuse it. */
  ghost predicate Room(g: Graph, s: State, step: Step) {
    step.AdvanceStep? && s.ending.None? && ChoicesValid(s, g) ==> HasRoom(g, s, step.world, step.order)
  }

  lemma AdvanceRefusedIff(g: Graph, s: State, w: World, order: seq<Id>)
    ensures Advance(s, g, w, order).Some? <==> ChoicesValid(s, g)
    ensures !(s.ending.None? && ChoicesValid(s, g)) ==>
              var t := Next(g, s, AdvanceStep(w, order)); t.history == s.history && t.log == s.log
  {
    hide ChoicesOk;
  }

  lemma NextWindow(g: Graph, s: State, step: Step)
    requires Tail(s) && Windowed(s)
    ensures Windowed(Next(g, s, step)) <==> Room(g, s, step)
  {
    hide Tail, Windowed, HasRoom, ChoicesOk, Opened, KeptAll;
    if step.AdvanceStep? {
      AdvanceRefusedIff(g, s, step.world, step.order);
      if ChoicesValid(s, g) && s.ending.None? {
        AdvanceWindow(g, s, step.world, step.order);
      } else {
        SameTail(s, Next(g, s, step));
      }
    } else {
      NextKeepsTail(g, s, step);
    }
  }

  lemma StepAfterPrefix(g: Graph, s: State, steps: seq<Step>, k: nat)
    requires k < |steps|
    ensures Run(g, s, steps[..k + 1]) == Next(g, Run(g, s, steps[..k]), steps[k])
  {
    hide Next;
    assert steps[..k + 1] == steps[..k] + [steps[k]];
    RunConcat(g, s, steps[..k], [steps[k]]);
    OneStep(g, Run(g, s, steps[..k]), steps[k]);
  }

  lemma NothingRun(g: Graph, s: State, steps: seq<Step>)
    ensures Run(g, s, steps[..0]) == s
  {}

  /** While every advance had room, the record keeps the window. */
  lemma {:induction false} WindowWhileRoom(g: Graph, s: State, steps: seq<Step>, k: nat)
    requires Tail(s) && Windowed(s) && k <= |steps|
    requires forall i :: 0 <= i < k ==> Room(g, Run(g, s, steps[..i]), steps[i])
    ensures Windowed(Run(g, s, steps[..k]))
  {
    hide Tail, Windowed, Room, Next, Run;
    if k > 0 {
      WindowWhileRoom(g, s, steps, k - 1);
      RunKeepsTail(g, s, steps[..k - 1]);
      NextWindow(g, Run(g, s, steps[..k - 1]), steps[k - 1]);
      StepAfterPrefix(g, s, steps, k - 1);
    } else {
      NothingRun(g, s, steps);
    }
  }

  lemma InitialWindow(g: Graph)
    requires WellFormed(g)
    ensures Tail(Initial(g)) && Windowed(Initial(g))
  {
    hide NodeOk, GoalsOk, SeedOk, TargetsExist;
  }

  /** Along a run the record keeps the last hundred events after every step exactly if every advance on the way has room
      for what it opens. */
  lemma AlwaysWindowedIff(g: Graph, steps: seq<Step>)
    requires WellFormed(g)
    ensures (forall k :: 0 <= k <= |steps| ==> Windowed(Run(g, Initial(g), steps[..k])))
      <==> (forall k :: 0 <= k < |steps| ==> Room(g, Run(g, Initial(g), steps[..k]), steps[k]))
  {
    hide WellFormed, Initial, Tail, Windowed, Room, Next, Run;
    var s := Initial(g);
    InitialWindow(g);
    if forall k :: 0 <= k <= |steps| ==> Windowed(Run(g, s, steps[..k])) {
      forall k | 0 <= k < |steps| ensures Room(g, Run(g, s, steps[..k]), steps[k]) {
        RunKeepsTail(g, s, steps[..k]);
        NextWindow(g, Run(g, s, steps[..k]), steps[k]);
        StepAfterPrefix(g, s, steps, k);
      }
    }
    if forall k :: 0 <= k < |steps| ==> Room(g, Run(g, s, steps[..k]), steps[k]) {
      forall k | 0 <= k <= |steps| ensures Windowed(Run(g, s, steps[..k])) { WindowWhileRoom(g, s, steps, k); }
    }
  }

  // ---- how far the history can outgrow its bound ----

  /** Every event above the hundredth belongs to a node that is active or completed. */
  ghost predicate Bounded(s: State) { |s.history| <= MAX_HISTORY + |Elems(s.active) + Elems(s.completed)| }

  lemma NotedIsShort(s: State, e: Event)
    ensures |Note(s, e).history| <= MAX_HISTORY
  {}

  lemma ShortIsBounded(s: State)
    requires |s.history| <= MAX_HISTORY
    ensures Bounded(s)
  {}

  lemma MarkingIsShort(s: State, n: Node, choice: string)
    ensures |MarkCompleted(s, n, choice).history| <= MAX_HISTORY
  {
    hide RemoveFirst, WithoutNode;
  }

  lemma NotingIsShort(s: State, es: seq<Event>)
    requires |s.history| <= MAX_HISTORY
    ensures |NoteAll(s, es).history| <= MAX_HISTORY
  {}

  /** After a completion the history is within the bound again. */
  lemma CompletionIsShort(g: Graph, s: State, node: Id, choice: string, w: World)
    requires Complete(s, g, node, choice, w).Some?
    ensures |Complete(s, g, node, choice, w).value.0.history| <= MAX_HISTORY
  {
    hide ChoicesOk, Pursued, Opened, GatesSatisfied, NodeMap, NoteAll, Note, Activations, MarkCompleted;
    var n := NodeMap(g.nodes)[node];
    var (s', newly) := Complete(s, g, node, choice, w).value;
    var s1 := MarkCompleted(s, n, choice);
    MarkingIsShort(s, n, choice);
    if n.kind == ENDING {
      NotedIsShort(s1.(ending := Some(node), active := [], requests := []), EndingReached(node));
    } else {
      NotingIsShort(s1, Activations(newly));
    }
  }

  lemma NewOnesCount(active: seq<Id>, completed: seq<Id>, newly: seq<Id>)
    requires forall x :: x in newly ==> x !in active && x !in completed
    ensures |Elems(active + newly) + Elems(completed)| == |Elems(active) + Elems(completed)| + |Elems(newly)|
  {
    var before := Elems(active) + Elems(completed);
    assert Elems(active + newly) + Elems(completed) == before + Elems(newly);
    assert before !! Elems(newly);
  }

  lemma AdvanceKeepsBounded(g: Graph, s: State, w: World, order: seq<Id>)
    requires Bounded(s) && s.ending.None? && Advance(s, g, w, order).Some?
    ensures Bounded(Advance(s, g, w, order).value.0)
  {
    hide Opened, KeptAll, ChoicesOk, Advance, Distinct, GatesSatisfied;
    var (s', newly) := Advance(s, g, w, order).value;
    AdvanceEffect(s, g, w, order);
    OpenedFacts(KeptAll(g, s.selected, order), EvidenceOf(s, w), s.active, s.completed);
    DistinctSize(newly);
    assert |Reopenings(newly)| == |newly|;
    NewOnesCount(s.active, s.completed, newly);
  }

  lemma EndedAdvance(g: Graph, s: State, w: World, order: seq<Id>)
    requires s.ending.Some? && s.active == []
    ensures var s' := Next(g, s, AdvanceStep(w, order));
      s'.active == s.active && s'.completed == s.completed && s'.history == s.history
  {
    hide ChoicesOk;
  }

  lemma NextKeepsBounded(g: Graph, s: State, step: Step)
    requires Bounded(s) && (s.ending.Some? ==> s.active == [])
    ensures Bounded(Next(g, s, step))
  {
    hide Complete, Ask, Advance, Elems;
    match step
    case CompleteStep(node, choice, w) =>
      if Complete(s, g, node, choice, w).Some? {
        CompletionIsShort(g, s, node, choice, w);
        ShortIsBounded(Next(g, s, step));
      }
    case AdvanceStep(w, order) =>
      if s.ending.None? {
        if Advance(s, g, w, order).Some? { AdvanceKeepsBounded(g, s, w, order); }
      } else {
        EndedAdvance(g, s, w, order);
      }
    case AskStep(node, choice, actor, admitted, w) => AskFrame(g, s, node, choice, actor, admitted, w);
    case ObjectiveStep(_) =>
    case MilestoneStep(_) =>
  }

  lemma {:induction false} RunKeepsBounded(g: Graph, s: State, steps: seq<Step>)
    requires WellFormed(g) && Inv(g, s) && Bounded(s) && StepsOk(g, s, steps)
    ensures Bounded(Run(g, s, steps))
    decreases |steps|
  {
    hide WellFormed, Bounded, Next, ChoicesOk, Region, Distinct;
    if steps != [] {
      NextKeepsBounded(g, s, steps[0]);
      NextKeepsInv(g, s, steps[0]);
      RunKeepsBounded(g, Next(g, s, steps[0]), steps[1..]);
    }
  }

  lemma FewStarts(g: Graph)
    requires WellFormed(g)
    ensures |Initial(g).history| <= MAX_HISTORY
  {
    hide NodeOk, GoalsOk, SeedOk, TargetsExist, Distinct;
  }

  /** Along every run the history outgrows its hundred events by no more than one event per node. */
  lemma HistoryIsBounded(g: Graph, steps: seq<Step>)
    requires WellFormed(g) && StepsOk(g, Initial(g), steps)
    ensures |Run(g, Initial(g), steps).history| <= MAX_HISTORY + |g.nodes|
  {
    hide WellFormed, StepsOk, Run, Distinct, ChoicesOk, Region, NodeMap, NodeIds, Initial;
    var s := Run(g, Initial(g), steps);
    InitialInv(g);
    FewStarts(g);
    ShortIsBounded(Initial(g));
    RunKeepsBounded(g, Initial(g), steps);
    EveryRunIsSound(g, steps);
    RegionIsNodes(g);
    var seen := Elems(s.active) + Elems(s.completed);
    assert seen <= NodeMap(g.nodes).Keys;
    SubsetSize(seen, NodeMap(g.nodes).Keys);
    DistinctSize(NodeIds(g.nodes));
  }
}
