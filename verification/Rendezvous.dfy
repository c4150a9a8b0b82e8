/** The host-star rendezvous room as interleaved steps.

    Handlers of different peers run concurrently and may be suspended while a message is being sent.  Each method of
    `Room` is one uninterrupted stretch of a handler: registering a socket, the checks at the head of a relay, the
    update after the relayed message has been sent, and the clean-up when a connection ends.  Between the two halves
    of a relay anything may happen to the other peers. */
module Rendezvous {
  import opened Values

  type Peer = string
  type Edge = (Peer, Peer)

  datatype Kind = Offer | Answer | Ice | IceComplete | Complete

  /** A relay whose message is being sent: what the handler will do when it resumes. */
  datatype Relay = Relay(kind: Kind, target: Peer)

  /** The last three fields only keep count: how many connections each peer has had, which connection of its target a
      pending relay was addressed to, and between which connections each recorded edge was reported. */
  datatype State = State(
    host: Peer, tokens: set<Peer>, sockets: set<Peer>, completed: set<Edge>, finished: bool, relaying: map<Peer, Relay>,
    sessions: map<Peer, nat>, addressed: map<Peer, nat>, stamps: map<Edge, (nat, nat)>)

  predicate Neighbors(s: State, a: Peer, b: Peer) {
    a in s.tokens && b in s.tokens && a != b && (a == s.host || b == s.host)
  }

  /** Both directions of every host-guest link. */
  function AllEdges(s: State): set<Edge> {
    set a, b | a in s.tokens && b in s.tokens && Neighbors(s, a, b) :: (a, b)
  }

  function SessionOf(s: State, p: Peer): nat { if p in s.sessions then s.sessions[p] else 0 }

  function AddressedBy(s: State, p: Peer): nat { if p in s.addressed then s.addressed[p] else 0 }

  // ---- the steps ----

  /** A peer presents its token.  `expired` is the clock's verdict. */
  function Registered(s: State, p: Peer, expired: bool): Option<State> {
    if p !in s.tokens || s.finished || expired || p in s.sockets then None
    else Some(s.(sockets := s.sockets + {p}, sessions := s.sessions[p := SessionOf(s, p) + 1]))
  }

  /** The checks at the head of a relay.  A peer's messages are handled one at a time. */
  function RelayBegun(s: State, p: Peer, kind: Kind, target: Peer): Option<State> {
    if p !in s.sockets || p in s.relaying then None
    else if !Neighbors(s, p, target) || target !in s.sockets || (kind.Offer? && p != s.host)
            || (kind.Answer? && p == s.host) then None
    else Some(s.(relaying := s.relaying[p := Relay(kind, target)], addressed := s.addressed[p := SessionOf(s, target)]))
  }

  /** The message has been sent; a completion report is recorded and, if it was the last one, the room finishes. */
  function RelayFinished(s: State, p: Peer): Option<State> {
    if p !in s.relaying then None
    else
      var r := s.relaying[p];
      var s1 := s.(relaying := s.relaying - {p});
      if !r.kind.Complete? then Some(s1)
      else
        var e := (p, r.target);
        Some(s1.(completed := s1.completed + {e},
                 stamps := s1.stamps[e := (SessionOf(s, p), AddressedBy(s, p))],
                 finished := s1.finished || |s1.completed + {e}| == 2 * (|s1.tokens| - 1)))
  }

  function WithoutPeer(edges: set<Edge>, p: Peer): set<Edge> { set e | e in edges && e.0 != p && e.1 != p }

  /** The connection ends, possibly in the middle of a relay. */
  function Left(s: State, p: Peer): Option<State> {
    if p !in s.sockets then None
    else
      var s1 := s.(sockets := s.sockets - {p}, relaying := s.relaying - {p});
      Some(if s.finished then s1 else s1.(completed := WithoutPeer(s.completed, p)))
  }

  datatype Step =
    | RegisterStep(peer: Peer, expired: bool)
    | BeginStep(peer: Peer, kind: Kind, target: Peer)
    | FinishStep(peer: Peer)
    | LeaveStep(peer: Peer)

  function Next(s: State, step: Step): State {
    var r := match step
      case RegisterStep(p, expired) => Registered(s, p, expired)
      case BeginStep(p, kind, target) => RelayBegun(s, p, kind, target)
      case FinishStep(p) => RelayFinished(s, p)
      case LeaveStep(p) => Left(s, p);
    if r.Some? then r.value else s
  }

  function Run(s: State, steps: seq<Step>): State
    decreases |steps|
  {
    if steps == [] then s else Run(Next(s, steps[0]), steps[1..])
  }

  /** A new room: the host and its invited guests, nobody connected. */
  function NewRoom(host: Peer, guests: set<Peer>): State {
    State(host, guests + {host}, {}, {}, false, map[], map[], map[], map[])
  }

  // ---- what a step can change ----

  /** A peer gets in by registering with a known token while the room is open and not expired, and out by leaving. */
  lemma SocketChanges(s: State, step: Step)
    ensures var t := Next(s, step);
      && t.host == s.host && t.tokens == s.tokens && (s.finished ==> t.finished)
      && (forall p :: p in t.sockets && p !in s.sockets <==>
            step == RegisterStep(p, false) && p in s.tokens && !s.finished && p !in s.sockets)
      && (forall p :: p in s.sockets && p !in t.sockets <==> step == LeaveStep(p) && p in s.sockets)
  {
    hide WithoutPeer, Neighbors;
  }

  /** A relay starts between two connected neighbours, offers only from the host and answers only from guests, and ends
      by finishing or leaving. */
  lemma RelayChanges(s: State, step: Step)
    ensures var t := Next(s, step);
      && (forall p :: p in t.relaying && p !in s.relaying ==>
            && step == BeginStep(p, t.relaying[p].kind, t.relaying[p].target)
            && p in s.sockets && t.relaying[p].target in s.sockets && Neighbors(s, p, t.relaying[p].target)
            && (t.relaying[p].kind.Offer? ==> p == s.host) && (t.relaying[p].kind.Answer? ==> p != s.host))
      && (forall p :: p in s.relaying && p !in t.relaying ==> step == FinishStep(p) || step == LeaveStep(p))
      && (forall p :: p in s.relaying && p in t.relaying ==> t.relaying[p] == s.relaying[p])
  {
    hide WithoutPeer, Neighbors;
  }

  /** An edge is recorded by finishing a completion report, and dropped by the departure of one of its ends from an open
      room. */
  lemma EdgeChanges(s: State, step: Step)
    ensures var t := Next(s, step);
      && (forall e :: e in t.completed && e !in s.completed ==>
            step == FinishStep(e.0) && e.0 in s.relaying && s.relaying[e.0] == Relay(Complete, e.1))
      && (forall e :: e in s.completed && e !in t.completed ==>
            (step == LeaveStep(e.0) || step == LeaveStep(e.1)) && !s.finished)
  {
    hide Neighbors;
  }

  // ---- the room ----

  class Room {
    const host: Peer
    const tokens: set<Peer>
    var sockets: set<Peer>
    var completed: set<Edge>
    var finished: bool
    var relaying: map<Peer, Relay>
    ghost var sessions: map<Peer, nat>
    ghost var addressed: map<Peer, nat>
    ghost var stamps: map<Edge, (nat, nat)>

    ghost function Value(): State
      reads this
    {
      State(host, tokens, sockets, completed, finished, relaying, sessions, addressed, stamps)
    }

    constructor (host: Peer, guests: set<Peer>)
      ensures Value() == NewRoom(host, guests)
    {
      this.host, tokens := host, guests + {host};
      sockets, completed, finished, relaying := {}, {}, false, map[];
      sessions, addressed, stamps := map[], map[], map[];
    }

    predicate IsNeighbor(a: Peer, b: Peer) { a in tokens && b in tokens && a != b && (a == host || b == host) }

    method Register(p: Peer, expired: bool) returns (ok: bool)
      modifies this
      ensures var spec := Registered(old(Value()), p, expired);
        ok == spec.Some? && Value() == if ok then spec.value else old(Value())
    {
      if p !in tokens || finished || expired || p in sockets { return false; }
      sockets := sockets + {p};
      sessions := sessions[p := SessionOf(Value(), p) + 1];
      return true;
    }

    method BeginRelay(p: Peer, kind: Kind, target: Peer) returns (ok: bool)
      modifies this
      ensures var spec := RelayBegun(old(Value()), p, kind, target);
        ok == spec.Some? && Value() == if ok then spec.value else old(Value())
    {
      if p !in sockets || p in relaying { return false; }
      if !IsNeighbor(p, target) || target !in sockets { return false; }
      if (kind.Offer? && p != host) || (kind.Answer? && p == host) { return false; }
      addressed := addressed[p := SessionOf(Value(), target)];
      relaying := relaying[p := Relay(kind, target)];
      return true;
    }

    method FinishRelay(p: Peer) returns (ok: bool)
      modifies this
      ensures var spec := RelayFinished(old(Value()), p);
        ok == spec.Some? && Value() == if ok then spec.value else old(Value())
    {
      if p !in relaying { return false; }
      var r := relaying[p];
      relaying := relaying - {p};
      if r.kind.Complete? {
        completed := completed + {(p, r.target)};
        stamps := stamps[(p, r.target) := (SessionOf(Value(), p), AddressedBy(Value(), p))];
        if |completed| == 2 * (|tokens| - 1) {
          finished := true;
        }
      }
      return true;
    }

    method Leave(p: Peer) returns (ok: bool)
      modifies this
      ensures var spec := Left(old(Value()), p);
        ok == spec.Some? && Value() == if ok then spec.value else old(Value())
    {
      if p !in sockets { return false; }
      sockets, relaying := sockets - {p}, relaying - {p};
      if !finished {
        completed := WithoutPeer(completed, p);
      }
      return true;
    }
  }

  // ---- what every interleaving keeps ----

  /** Recorded edges join the host and a guest.  While the room is open their senders are connected.  A peer in the
      middle of a relay is connected and addresses a neighbour; offers come from the host and answers from guests.  A
      finished room has every edge. */
  predicate Inv(s: State) {
    && s.host in s.tokens && s.sockets <= s.tokens
    && s.completed <= AllEdges(s)
    && (forall p :: p in s.relaying ==>
          && p in s.sockets && p in s.addressed && Neighbors(s, p, s.relaying[p].target)
          && (s.relaying[p].kind.Offer? ==> p == s.host) && (s.relaying[p].kind.Answer? ==> p != s.host))
    && (!s.finished ==> forall e :: e in s.completed ==> e.0 in s.sockets)
    && (s.finished ==> s.completed == AllEdges(s))
  }

  lemma {:induction false} PairSize(h: Peer, guests: set<Peer>)
    ensures |set b | b in guests :: (h, b)| == |guests|
    ensures |set a | a in guests :: (a, h)| == |guests|
  {
    if g :| g in guests {
      var rest := guests - {g};
      PairSize(h, rest);
      assert (set b | b in guests :: (h, b)) == (set b | b in rest :: (h, b)) + {(h, g)};
      assert (set a | a in guests :: (a, h)) == (set a | a in rest :: (a, h)) + {(g, h)};
    }
  }

  lemma EdgeCount(s: State)
    requires s.host in s.tokens
    ensures |AllEdges(s)| == 2 * (|s.tokens| - 1)
  {
    var guests := s.tokens - {s.host};
    var out := set b | b in guests :: (s.host, b);
    var back := set a | a in guests :: (a, s.host);
    assert AllEdges(s) == out + back;
    assert out * back == {};
    PairSize(s.host, guests);
    assert s.tokens == guests + {s.host};
  }

  lemma SameEdges(s: State, t: State)
    requires t.host == s.host && t.tokens == s.tokens
    ensures AllEdges(t) == AllEdges(s)
  {
    assert forall a, b :: Neighbors(t, a, b) <==> Neighbors(s, a, b);
  }

  lemma FinishKeepsInv(s: State, p: Peer)
    requires Inv(s)
    ensures RelayFinished(s, p).Some? ==>
      Inv(RelayFinished(s, p).value) && (s.finished ==> RelayFinished(s, p).value.finished)
  {
    if RelayFinished(s, p).Some? {
      SameEdges(s, RelayFinished(s, p).value);
      if s.relaying[p].kind.Complete? {
        EdgeCount(s);
        SubsetSize(s.completed + {(p, s.relaying[p].target)}, AllEdges(s));
      }
    }
  }

  lemma NextKeepsInv(s: State, step: Step)
    requires Inv(s)
    ensures Inv(Next(s, step)) && AllEdges(Next(s, step)) == AllEdges(s)
    ensures s.finished ==> Next(s, step).finished && Next(s, step).sockets <= s.sockets
  {
    SameEdges(s, Next(s, step));
    if step.FinishStep? {
      FinishKeepsInv(s, step.peer);
    } else {
      assert Inv(Next(s, step));
    }
  }

  lemma {:induction false} RunKeepsInv(s: State, steps: seq<Step>)
    requires Inv(s)
    ensures Inv(Run(s, steps)) && AllEdges(Run(s, steps)) == AllEdges(s)
    ensures s.finished ==> Run(s, steps).finished && Run(s, steps).sockets <= s.sockets
    decreases |steps|
  {
    hide Inv, Next, AllEdges;
    if steps != [] {
      NextKeepsInv(s, steps[0]);
      RunKeepsInv(Next(s, steps[0]), steps[1..]);
    }
  }

  /** Along every interleaving, whatever disconnects happen while messages are in flight: recorded edges join the host
      and a guest, their senders are connected until the room finishes, and a finished room stays finished, keeps every
      edge and admits nobody any more. */
  lemma EveryRunIsSound(host: Peer, guests: set<Peer>, steps: seq<Step>, more: seq<Step>)
    ensures var s := Run(NewRoom(host, guests), steps);
      && Inv(s)
      && (s.finished ==>
            && Run(s, more).finished && Run(s, more).completed == AllEdges(s)
            && Run(s, more).sockets <= s.sockets)
  {
    RunKeepsInv(NewRoom(host, guests), steps);
    RunKeepsInv(Run(NewRoom(host, guests), steps), more);
  }

  /** The step finishes a completion report. */
  predicate Reports(s: State, step: Step) {
    step.FinishStep? && step.peer in s.relaying && s.relaying[step.peer].kind.Complete?
  }

  function Reported(s: State, step: Step): Edge
    requires Reports(s, step)
  {
    (step.peer, s.relaying[step.peer].target)
  }

  lemma AnotherPeer(s: State, p: Peer) returns (q: Peer)
    requires s.host in s.tokens && |s.tokens| > 1 && p in s.tokens
    ensures Neighbors(s, p, q)
  {
    if p != s.host { return s.host; }
    if forall x :: x in s.tokens ==> x == s.host { SubsetSize(s.tokens, {s.host}); }
    q :| q in s.tokens && q != s.host;
  }

  /** The count test is exact: a step finishes an open room if and only if it records the last missing edge, and then
      every peer of the room is connected at that very step. */
  lemma FinishesExactlyWhenComplete(s: State, step: Step)
    requires Inv(s) && !s.finished
    ensures Next(s, step).finished <==> Reports(s, step) && s.completed + {Reported(s, step)} == AllEdges(s)
    ensures Next(s, step).finished ==> Next(s, step).sockets == s.tokens
  {
    if Reports(s, step) {
      EdgeCount(s);
      SubsetSize(s.completed + {Reported(s, step)}, AllEdges(s));
      if Next(s, step).finished {
        assert {step.peer, s.relaying[step.peer].target} <= s.tokens;
        SubsetSize({step.peer, s.relaying[step.peer].target}, s.tokens);
        forall p | p in s.tokens ensures p in s.sockets {
          var q := AnotherPeer(s, p);
          assert (p, q) in AllEdges(s);
        }
      }
    }
  }

  // ---- reports and reconnections ----

  /** The edge was reported between the connections that its two ends have now. */
  predicate Current(s: State, e: Edge) {
    e.0 in s.sockets && e.1 in s.sockets && e in s.stamps && s.stamps[e] == (SessionOf(s, e.0), SessionOf(s, e.1))
  }

  predicate AllCurrent(s: State) { forall e :: e in s.completed ==> Current(s, e) }

  /** The target of a pending relay is no longer on the connection that the relay's message went to. */
  predicate TargetMoved(s: State, p: Peer)
    requires p in s.relaying
  {
    var target := s.relaying[p].target;
    target !in s.sockets || AddressedBy(s, p) != SessionOf(s, target)
  }

  lemma ReportIsCurrentIff(s: State, step: Step)
    requires Inv(s) && AllCurrent(s) && Reports(s, step)
    ensures AllCurrent(Next(s, step)) <==> !TargetMoved(s, step.peer)
  {
    hide AllEdges;
    var t, e := Next(s, step), Reported(s, step);
    assert t.completed == s.completed + {e};
    assert Current(t, e) <==> !TargetMoved(s, step.peer);
    forall d | d in s.completed && d != e ensures Current(t, d) { assert Current(s, d); }
  }

  lemma OtherStepsKeepCurrent(s: State, step: Step)
    requires Inv(s) && !s.finished && AllCurrent(s) && !Reports(s, step)
    ensures AllCurrent(Next(s, step))
  {
    hide AllEdges;
    forall e | e in Next(s, step).completed ensures Current(Next(s, step), e) { assert Current(s, e); }
  }

  /** Clearing a departed peer's edges is meant to leave only reports about present connections.  It does so at every
      step except one: a completion report that resumes after its target has gone or reconnected is still recorded. */
  lemma ReportsStayCurrentIff(s: State, step: Step)
    requires Inv(s) && !s.finished && AllCurrent(s)
    ensures AllCurrent(Next(s, step)) <==> !(Reports(s, step) && TargetMoved(s, step.peer))
  {
    if Reports(s, step) { ReportIsCurrentIff(s, step); } else { OtherStepsKeepCurrent(s, step); }
  }

  function BeforeReport(): seq<Step> {
    [RegisterStep("h", false), RegisterStep("p", false), BeginStep("h", Complete, "p"), LeaveStep("p")]
  }

  function AfterReport(): seq<Step> {
    [RegisterStep("p", false), FinishStep("h"), BeginStep("p", Complete, "h"), FinishStep("p")]
  }

  function RoomAfterDrop(): State {
    State("h", {"p", "h"}, {"h"}, {}, false, map["h" := Relay(Complete, "p")], map["h" := 1, "p" := 1],
          map["h" := 1], map[])
  }

  lemma GuestReconnects()
    ensures var t := BeforeReport();
      Next(Next(Next(Next(NewRoom("h", {"p"}), t[0]), t[1]), t[2]), t[3]) == RoomAfterDrop()
  {
    hide AllEdges, Run;
    assert "h"[0] != "p"[0];
    var t, s0 := BeforeReport(), NewRoom("h", {"p"});
    var s2 := Next(Next(s0, t[0]), t[1]);
    assert s2.sockets == {"h", "p"} && s2.sessions == map["h" := 1, "p" := 1] && s2.relaying == map[];
    var s4 := Next(Next(s2, t[2]), t[3]);
    assert s4.sockets == {"h"} && s4.relaying == map["h" := Relay(Complete, "p")] && s4.completed == {};
  }

  function RoomAfterStaleReport(): State {
    State("h", {"p", "h"}, {"h", "p"}, {("h", "p")}, false, map[], map["h" := 1, "p" := 2],
          map["h" := 1], map[("h", "p") := (1, 1)])
  }

  lemma HostReports()
    ensures var t := AfterReport(); Next(Next(RoomAfterDrop(), t[0]), t[1]) == RoomAfterStaleReport()
  {
    hide AllEdges, Run;
    assert "h"[0] != "p"[0];
    var t := AfterReport();
    var s1 := Next(RoomAfterDrop(), t[0]);
    assert s1.sockets == {"h", "p"} && s1.sessions == map["h" := 1, "p" := 2];
    var s2 := Next(s1, t[1]);
    assert s2.completed == {("h", "p")} && s2.relaying == map[];
    assert |s2.completed| == 1 && |s2.tokens| == 2;
  }

  function RoomBeforeLastReport(): State {
    RoomAfterStaleReport().(relaying := map["p" := Relay(Complete, "h")], addressed := map["h" := 1, "p" := 1])
  }

  lemma GuestBegins()
    ensures Next(RoomAfterStaleReport(), AfterReport()[2]) == RoomBeforeLastReport()
  {
    assert "h"[0] != "p"[0];
    assert Neighbors(RoomAfterStaleReport(), "p", "h");
  }

  lemma GuestFinishes()
    ensures var s := Next(RoomBeforeLastReport(), AfterReport()[3]);
      s.finished && ("h", "p") in s.completed && !Current(s, ("h", "p"))
  {
    assert "h"[0] != "p"[0];
    var s := Next(RoomBeforeLastReport(), AfterReport()[3]);
    assert s.completed == {("h", "p"), ("p", "h")} && |s.completed| == 2 && |s.tokens| == 2;
  }

  lemma GuestReports()
    ensures var t := AfterReport(); var s := Next(Next(RoomAfterStaleReport(), t[2]), t[3]);
      s.finished && ("h", "p") in s.completed && !Current(s, ("h", "p"))
  {
    hide Next, Current, RoomAfterStaleReport, RoomBeforeLastReport;
    GuestBegins();
    GuestFinishes();
  }

  lemma StaleReportIsRecorded()
    ensures var t := AfterReport(); var s := Next(Next(Next(Next(RoomAfterDrop(), t[0]), t[1]), t[2]), t[3]);
      s.finished && ("h", "p") in s.completed && !Current(s, ("h", "p"))
  {
    hide Next, Run, AllEdges, RoomAfterDrop, RoomAfterStaleReport;
    HostReports();
    GuestReports();
  }

  lemma {:induction false} RunAppend(s: State, a: seq<Step>, b: seq<Step>)
    ensures Run(s, a + b) == Run(Run(s, a), b)
    decreases |a|
  {
    hide Next;
    if a == [] {
      assert a + b == b;
    } else {
      assert (a + b)[1..] == a[1..] + b;
      RunAppend(Next(s, a[0]), a[1..], b);
    }
  }

  lemma RunCons(s: State, t: seq<Step>)
    requires t != []
    ensures Run(s, t) == Run(Next(s, t[0]), t[1..])
  {}

  lemma RunFour(s: State, t: seq<Step>)
    requires |t| == 4
    ensures Run(s, t) == Next(Next(Next(Next(s, t[0]), t[1]), t[2]), t[3])
  {
    hide Next;
    assert t[1..][1..] == t[2..] && t[2..][1..] == t[3..] && t[3..][1..] == [];
    var s1 := Next(s, t[0]);
    RunCons(s, t);
    RunCons(s1, t[1..]);
    RunCons(Next(s1, t[1]), t[2..]);
    RunCons(Next(Next(s1, t[1]), t[2]), t[3..]);
  }

  /** Such a run, and it finishes the room: the host's report was addressed to the guest's first connection, and the
      second connection is the one that completes. */
  lemma StaleReportFinishesRoom()
    ensures var s := Run(NewRoom("h", {"p"}), BeforeReport() + AfterReport());
      s.finished && ("h", "p") in s.completed && !Current(s, ("h", "p"))
  {
    hide Run;
    RunAppend(NewRoom("h", {"p"}), BeforeReport(), AfterReport());
    GuestReconnects();
    RunFour(NewRoom("h", {"p"}), BeforeReport());
    RunFour(Run(NewRoom("h", {"p"}), BeforeReport()), AfterReport());
    StaleReportIsRecorded();
  }
}
