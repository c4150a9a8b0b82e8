/** Structured transition conditions: a closed list of assertion kinds, never an expression language. */
module Gates {
  import opened Values

  const FACT_EQUALS := "world.fact_equals"
  const ENTITY_STATUS := "world.entity_status"
  const RELATION_STATUS := "world.relation_status"
  const PROCESS_STATUS := "world.process_status"
  const MILESTONE := "adventure.milestone"
  const OBJECTIVE_STATUS := "adventure.objective_status"
  const AFFECTION := "affection.score"
  const RULES_OUTCOME := "rules.outcome"
  const RULES_LEVEL := "rules.party_level"
  const RULES_ITEM := "rules.item_possession"

  const GATE_TYPES := [FACT_EQUALS, ENTITY_STATUS, RELATION_STATUS, PROCESS_STATUS, MILESTONE,
                       OBJECTIVE_STATUS, AFFECTION, RULES_OUTCOME, RULES_LEVEL, RULES_ITEM]

  const MAX_GATES_PER_TRANSITION := 8

  /** `subject` is the fact key of a fact gate and the id of every other gate. */
  datatype Gate = Gate(kind: string, subject: string, value: Json)

  predicate GateOk(g: Gate) {
    && g.kind in GATE_TYPES
    && g.subject != ""
    && (g.kind == AFFECTION ==> g.value.Int? && -100 <= g.value.n <= 100)
  }

  predicate GatesOk(gates: seq<Gate>) {
    |gates| <= MAX_GATES_PER_TRANSITION && forall g :: g in gates ==> GateOk(g)
  }

  function SubjectKey(kind: string): Key { if kind == FACT_EQUALS then KKey else KId }

  function ReadGate(raw: Json, show: Show): Option<Gate> {
    if !raw.Obj? then None
    else
      var kind := Text(Get(raw.fields, KType, Null), show);
      if kind !in GATE_TYPES || !(raw.fields.Keys <= {KType, KKey, KValue, KId}) then None
      else
        var gate := Gate(kind, Text(Get(raw.fields, SubjectKey(kind), Null), show), Get(raw.fields, KValue, Null));
        if GateOk(gate) then Some(gate) else None
  }

  function EncodeGate(g: Gate): Json {
    Obj(map[KType := Str(g.kind), KValue := g.value, SubjectKey(g.kind) := Str(g.subject)])
  }

  function ReadGates(raw: Json, show: Show): Option<seq<Gate>> {
    if raw.Null? then Some([])
    else if !raw.Arr? || |raw.items| > MAX_GATES_PER_TRANSITION then None
    else ReadAll(item => ReadGate(item, show), raw.items)
  }

  function EncodeGates(gates: seq<Gate>): Json { Arr(Map(EncodeGate, gates)) }

  lemma ReadGatesOk(raw: Json, show: Show)
    ensures ReadGates(raw, show).Some? ==> GatesOk(ReadGates(raw, show).value)
  {
    var r := ReadGates(raw, show);
    if r.Some? && raw.Arr? {
      forall g | g in r.value ensures GateOk(g) {
        var i :| 0 <= i < |r.value| && r.value[i] == g;
        assert ReadGate(raw.items[i], show) == Some(g);
      }
    }
  }

  lemma GateRoundTrip(g: Gate, show: Show)
    requires GateOk(g)
    ensures ReadGate(EncodeGate(g), show) == Some(g)
  {
    assert g.kind != "";
    assert EncodeGate(g).fields.Keys == {KType, KValue, SubjectKey(g.kind)};
  }

  lemma GatesRoundTrip(gates: seq<Gate>, show: Show)
    requires GatesOk(gates)
    ensures ReadGates(EncodeGates(gates), show) == Some(gates)
  {
    hide GateOk, ReadGate, EncodeGate;
    var raw := EncodeGates(gates);
    forall i | 0 <= i < |gates| ensures ReadGate(raw.items[i], show) == Some(gates[i]) {
      assert gates[i] in gates;
      GateRoundTrip(gates[i], show);
    }
    var r := ReadGates(raw, show);
    assert r.Some? && r.value == gates;
  }

  // ---- evaluation ----

  /** What the world knows of an entity, relation or process; a record need not have a status. */
  datatype Standing = Unrecorded | NoStatus | Status(value: Json)

  /** What a gate may read: world facts and statuses, affection scores, and the rules adapter
      (absent when no ruleset is bound; a `None` answer stands for an adapter that raised). */
  datatype World = World(
    fact: string -> Option<Json>,
    entity: string -> Standing,
    relation: string -> Standing,
    process: string -> Standing,
    affection: string -> Option<int>,
    rules: Option<(string, string, Json) -> Option<bool>>)

  /** Everything a gate can see: the world plus the objectives and milestones reached so far. */
  datatype Evidence = Evidence(world: World, milestones: seq<Id>, objectives: seq<Id>)

  /** `record is not None and record.get("status") == expected`. */
  predicate StatusIs(standing: Standing, expected: Json) {
    match standing
    case Unrecorded => false
    case NoStatus => PyEq(Null, expected)
    case Status(value) => PyEq(value, expected)
  }

  predicate GateSatisfied(g: Gate, e: Evidence) {
    if g.kind == FACT_EQUALS then
      PyEq((var v := e.world.fact(g.subject); if v.Some? then v.value else Null), g.value)
    else if g.kind == ENTITY_STATUS then StatusIs(e.world.entity(g.subject), g.value)
    else if g.kind == RELATION_STATUS then StatusIs(e.world.relation(g.subject), g.value)
    else if g.kind == PROCESS_STATUS then StatusIs(e.world.process(g.subject), g.value)
    else if g.kind == MILESTONE then g.subject in e.milestones
    else if g.kind == OBJECTIVE_STATUS then
      g.value == Str(if g.subject in e.objectives then "completed" else "active")
    else if g.kind == AFFECTION then
      var score := e.world.affection(g.subject);
      score.Some? && g.value.Int? && score.value >= g.value.n
    else if g.kind in [RULES_OUTCOME, RULES_LEVEL, RULES_ITEM] then
      e.world.rules.Some? && e.world.rules.value(g.kind, g.subject, g.value) == Some(true)
    else false
  }

  predicate GatesSatisfied(gates: seq<Gate>, e: Evidence) {
    forall g :: g in gates ==> GateSatisfied(g, e)
  }

  // ---- what the kinds of gates ask for ----

  /** The record is there, and its status, or null if it has none, equals the value. */
  predicate Stands(standing: Standing, value: Json) {
    || (standing.Status? && PyEq(standing.value, value))
    || (standing.NoStatus? && PyEq(Null, value))
  }

  /** What a condition asks of the world and of the goals reached so far. */
  predicate Met(g: Gate, e: Evidence) {
    var w := e.world;
    || (g.kind == "world.fact_equals" && w.fact(g.subject).Some? && PyEq(w.fact(g.subject).value, g.value))
    || (g.kind == "world.fact_equals" && w.fact(g.subject).None? && PyEq(Null, g.value))
    || (g.kind == "world.entity_status" && Stands(w.entity(g.subject), g.value))
    || (g.kind == "world.relation_status" && Stands(w.relation(g.subject), g.value))
    || (g.kind == "world.process_status" && Stands(w.process(g.subject), g.value))
    || (g.kind == "adventure.milestone" && g.subject in e.milestones)
    || (g.kind == "adventure.objective_status" && g.subject in e.objectives && g.value == Str("completed"))
    || (g.kind == "adventure.objective_status" && g.subject !in e.objectives && g.value == Str("active"))
    || (g.kind == "affection.score" && w.affection(g.subject).Some? && g.value.Int?
        && g.value.n <= w.affection(g.subject).value)
    || ((g.kind == "rules.outcome" || g.kind == "rules.party_level" || g.kind == "rules.item_possession")
        && w.rules.Some? && w.rules.value(g.kind, g.subject, g.value) == Some(true))
  }

  /** Every condition of the list is met. */
  predicate AllMet(gates: seq<Gate>, e: Evidence) {
    forall i :: 0 <= i < |gates| ==> Met(gates[i], e)
  }

  lemma GateTypesDiffer()
    ensures Distinct(GATE_TYPES)
  {
    assert RULES_OUTCOME[0] == RULES_LEVEL[0] == RULES_ITEM[0] == 'r' && MILESTONE[0] == OBJECTIVE_STATUS[0] == 'a';
    assert |MILESTONE| == 19 && |OBJECTIVE_STATUS| == 26 && AFFECTION[1] == 'f' && MILESTONE[1] == 'd';
    assert ENTITY_STATUS[0] == RELATION_STATUS[0] == PROCESS_STATUS[0] == FACT_EQUALS[0] == 'w' && AFFECTION[0] == 'a';
    assert |ENTITY_STATUS| == 19 && |RELATION_STATUS| == 21 && |PROCESS_STATUS| == 20 && |FACT_EQUALS| == 17;
  }

  lemma SatisfiedIffMet(g: Gate, e: Evidence)
    ensures GateSatisfied(g, e) <==> Met(g, e)
  {
    GateTypesDiffer();
  }

  /** A list of gates is open exactly if every one of its conditions is met. */
  lemma OpenIffAllMet(gates: seq<Gate>, e: Evidence)
    ensures GatesSatisfied(gates, e) <==> AllMet(gates, e)
  {
    hide GateSatisfied, Met;
    forall i | 0 <= i < |gates| ensures GateSatisfied(gates[i], e) <==> Met(gates[i], e) {
      SatisfiedIffMet(gates[i], e);
    }
    if GatesSatisfied(gates, e) {
      forall i | 0 <= i < |gates| ensures Met(gates[i], e) { assert gates[i] in gates; }
    }
  }

  /** The objectives and milestones that a graph declares. */
  datatype Declared = Declared(milestones: set<Id>, objectives: set<Id>)

  predicate NoStanding(standing: Standing) { !standing.Status? }

  /** The gate asks about something of which nothing is known: an unknown fact, a record that is not there or has no
      status, an unknown score, an adapter without an answer, or a goal that the graph does not declare. */
  predicate EvidenceMissing(g: Gate, w: World, d: Declared) {
    || (g.kind == FACT_EQUALS && w.fact(g.subject).None?)
    || (g.kind == ENTITY_STATUS && NoStanding(w.entity(g.subject)))
    || (g.kind == RELATION_STATUS && NoStanding(w.relation(g.subject)))
    || (g.kind == PROCESS_STATUS && NoStanding(w.process(g.subject)))
    || (g.kind == MILESTONE && g.subject !in d.milestones)
    || (g.kind == OBJECTIVE_STATUS && g.subject !in d.objectives)
    || (g.kind == AFFECTION && w.affection(g.subject).None?)
    || (g.kind in [RULES_OUTCOME, RULES_LEVEL, RULES_ITEM]
        && (w.rules.None? || w.rules.value(g.kind, g.subject, g.value).None?))
  }

  /** The gate asks for the status of a record that is there and has none. */
  predicate RecordWithoutStatus(g: Gate, w: World) {
    || (g.kind == ENTITY_STATUS && w.entity(g.subject).NoStatus?)
    || (g.kind == RELATION_STATUS && w.relation(g.subject).NoStatus?)
    || (g.kind == PROCESS_STATUS && w.process(g.subject).NoStatus?)
  }

  /** The ways in which "not known" passes for evidence: a fact gate or, on a record without a status, a status gate
      that expects null; and an objective gate that expects "active". */
  predicate TakesSilenceForEvidence(g: Gate, w: World) {
    || (g.kind == FACT_EQUALS && g.value == Null)
    || (RecordWithoutStatus(g, w) && g.value == Null)
    || (g.kind == OBJECTIVE_STATUS && g.value == Str("active"))
  }

  /** The design says missing evidence never opens a gate.  It opens exactly those that take silence for evidence. */
  lemma MissingEvidenceOpensIff(g: Gate, e: Evidence, d: Declared)
    requires EvidenceMissing(g, e.world, d)
    requires Elems(e.milestones) <= d.milestones && Elems(e.objectives) <= d.objectives
    ensures GateSatisfied(g, e) <==> TakesSilenceForEvidence(g, e.world)
  {
    GateTypesDiffer();
    if g.kind == MILESTONE { assert g.subject in e.milestones ==> g.subject in Elems(e.milestones); }
    if g.kind == OBJECTIVE_STATUS { assert g.subject in e.objectives ==> g.subject in Elems(e.objectives); }
  }

  /** A concrete package gate with that defect: a fact gate written without `value` is accepted,
      and it opens in a world that knows nothing. */
  lemma UnknownFactOpensGateWithoutValue(show: Show, w: World, d: Declared)
    requires forall k :: w.fact(k).None?
    ensures var raw := Obj(map[KType := Str(FACT_EQUALS), KKey := Str("gate.open")]);
            && ReadGate(raw, show).Some?
            && EvidenceMissing(ReadGate(raw, show).value, w, d)
            && GatesSatisfied([ReadGate(raw, show).value], Evidence(w, [], []))
  {
    var raw := Obj(map[KType := Str(FACT_EQUALS), KKey := Str("gate.open")]);
    assert FACT_EQUALS != "" && FACT_EQUALS in GATE_TYPES;
    assert |AFFECTION| == 15 && |FACT_EQUALS| == 17;
    assert ReadGate(raw, show) == Some(Gate(FACT_EQUALS, "gate.open", Null));
  }

  /** Another: a status gate written without `value` is accepted, and it opens on a record that has no status. */
  lemma StatuslessRecordOpensGate(show: Show, w: World, d: Declared)
    requires w.entity("ghost").NoStatus?
    ensures var raw := Obj(map[KType := Str(ENTITY_STATUS), KId := Str("ghost")]);
            && ReadGate(raw, show).Some?
            && EvidenceMissing(ReadGate(raw, show).value, w, d)
            && GatesSatisfied([ReadGate(raw, show).value], Evidence(w, [], []))
  {
    var raw := Obj(map[KType := Str(ENTITY_STATUS), KId := Str("ghost")]);
    assert ENTITY_STATUS != "" && ENTITY_STATUS in GATE_TYPES;
    assert |AFFECTION| == 15 && |ENTITY_STATUS| == 19 && |FACT_EQUALS| == 17;
    assert ReadGate(raw, show) == Some(Gate(ENTITY_STATUS, "ghost", Null));
  }

  lemma ObjectiveGateReads(w: World)
    ensures GateSatisfied(Gate(OBJECTIVE_STATUS, "ghost", Str("active")), Evidence(w, [], []))
  {
    assert |AFFECTION| == 15 && |OBJECTIVE_STATUS| == 26 && |FACT_EQUALS| == 17 && |MILESTONE| == 19;
    assert |ENTITY_STATUS| == 19 && |RELATION_STATUS| == 21 && |PROCESS_STATUS| == 20;
  }

  /** A third: a gate on an objective that nobody declares is accepted, and it opens in every world. */
  lemma UndeclaredObjectiveOpensGate(show: Show, w: World, d: Declared)
    requires "ghost" !in d.objectives
    ensures var raw := Obj(map[KType := Str(OBJECTIVE_STATUS), KId := Str("ghost"), KValue := Str("active")]);
            && ReadGate(raw, show).Some?
            && EvidenceMissing(ReadGate(raw, show).value, w, d)
            && GatesSatisfied([ReadGate(raw, show).value], Evidence(w, [], []))
  {
    var raw := Obj(map[KType := Str(OBJECTIVE_STATUS), KId := Str("ghost"), KValue := Str("active")]);
    assert OBJECTIVE_STATUS != "" && OBJECTIVE_STATUS in GATE_TYPES;
    assert |AFFECTION| == 15 && |OBJECTIVE_STATUS| == 26 && |FACT_EQUALS| == 17;
    assert raw.fields.Keys == {KType, KId, KValue};
    assert ReadGate(raw, show) == Some(Gate(OBJECTIVE_STATUS, "ghost", Str("active")));
    ObjectiveGateReads(w);
  }
}
