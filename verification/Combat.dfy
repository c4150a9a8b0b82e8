/** Settling a round's attacks from their checks, with a cache on each action that makes a retry harmless. */
module Combat {
  import opened Values
  import opened Characters

  datatype Check = Check(
    id: string, actor: string, kind: string, opponent: string, succeeded: bool, critical: bool)

  datatype Request = Request(id: string, actor: string, kind: string, opponent: string)

  /** One settled attack; `damage` is what the round's record reports. */
  datatype Outcome = Outcome(
    attacker: string, target: string, checkId: string, damage: int, hpBefore: int, hpAfter: int, critical: bool)

  datatype Cache = NoCache | Unreadable | Cached(outcome: Outcome)

  datatype Action = Action(actor: string, request: Option<Request>, cache: Cache)

  datatype State = State(
    players: map<string, Sheet>, npcs: map<string, Sheet>, queue: seq<Action>, checks: seq<Check>,
    records: seq<Outcome>)

  /** `downed`: the rules have death saves.  `narrative`: attacks never cost hit points. */
  datatype Rules = Rules(downed: bool, narrative: bool, round: int)

  // ---- the authoritative check ----

  predicate Answers(c: Check, r: Request) { c.id == r.id && c.actor == r.actor && c.kind == "attack" }

  predicate AttackRequest(a: Action) {
    a.request.Some? && a.request.value.id != "" && a.request.value.actor == a.actor && a.request.value.kind == "attack"
  }

  predicate SoleAnswer(checks: seq<Check>, r: Request, i: int)
    requires 0 <= i < |checks|
  {
    Answers(checks[i], r) && forall j :: 0 <= j < |checks| && j != i ==> !Answers(checks[j], r)
  }

  lemma {:induction false} SoleMatch(checks: seq<Check>, r: Request)
    ensures var found := Filter((c: Check) => Answers(c, r), checks);
      && (forall i :: 0 <= i < |checks| && SoleAnswer(checks, r, i) ==> found == [checks[i]])
      && (|found| == 1 ==> exists i :: 0 <= i < |checks| && SoleAnswer(checks, r, i))
      && (found == [] ==> forall j :: 0 <= j < |checks| ==> !Answers(checks[j], r))
      && ((forall j :: 0 <= j < |checks| ==> !Answers(checks[j], r)) ==> found == [])
  {
    if checks != [] {
      var keep := (c: Check) => Answers(c, r);
      var rest := checks[1..];
      SoleMatch(rest, r);
      var found, others := Filter(keep, checks), Filter(keep, rest);
      forall i | 0 <= i < |checks| && SoleAnswer(checks, r, i) ensures found == [checks[i]] {
        if i == 0 {
          forall j | 0 <= j < |rest| ensures !Answers(rest[j], r) { assert rest[j] == checks[j + 1]; }
        } else {
          assert SoleAnswer(rest, r, i - 1);
        }
      }
      if |found| == 1 {
        if Answers(checks[0], r) {
          assert others == [];
          assert SoleAnswer(checks, r, 0);
        } else {
          var i :| 0 <= i < |rest| && SoleAnswer(rest, r, i);
          assert SoleAnswer(checks, r, i + 1);
        }
      }
    }
  }

  /** The one check that answers the action's request; none when several do or when they disagree on the opponent. */
  function AuthoritativeCheck(checks: seq<Check>, a: Action): (r: Option<Check>)
    ensures r.Some? ==> AttackRequest(a) && exists i | 0 <= i < |checks| ::
              SoleAnswer(checks, a.request.value, i) && checks[i] == r.value
              && checks[i].opponent == a.request.value.opponent
    ensures r.None? ==> !AttackRequest(a) || forall i | 0 <= i < |checks| ::
              !(SoleAnswer(checks, a.request.value, i) && checks[i].opponent == a.request.value.opponent)
  {
    if !AttackRequest(a) then None
    else
      var request := a.request.value;
      var found := Filter((c: Check) => Answers(c, request), checks);
      SoleMatch(checks, request);
      if |found| == 1 && found[0].opponent == request.opponent then Some(found[0]) else None
  }

  // ---- targets ----

  predicate NamesNpc(s: State, ref: string) {
    ref !in s.players && |ref| >= 4 && ref[..4] == "npc:" && ref[4..] in s.npcs
  }

  predicate IsTarget(s: State, ref: string) { ref in s.players || NamesNpc(s, ref) }

  function SheetOf(s: State, ref: string): Sheet
    requires IsTarget(s, ref)
  {
    if ref in s.players then s.players[ref] else s.npcs[ref[4..]]
  }

  function WithSheet(s: State, ref: string, c: Sheet): State
    requires IsTarget(s, ref)
  {
    if ref in s.players then s.(players := s.players[ref := c]) else s.(npcs := s.npcs[ref[4..] := c])
  }

  // ---- one attack ----

  /** The sheet after the blow, and the outcome. */
  function Struck(c: Sheet, isPlayer: bool, check: Check, amount: nat, rules: Rules): (Sheet, Outcome) {
    var damage := if rules.narrative || !check.succeeded then 0 else amount;
    var after := if damage == 0 then c.hp else Max(0, c.hp - damage);
    var reported := if c.hp <= 0 then damage else c.hp - after;
    var hurt := if damage == 0 then c else WithHp(c, after, if c.maxHp.Some? then c.maxHp.value else c.hp);
    var down := if isPlayer && rules.downed then Downed(hurt) else hurt;
    var failed :=
      if Unconscious(c) && rules.downed && check.succeeded && reported > 0
      then WithFailures(down, if check.critical then 2 else 1, rules.round) else down;
    (failed, Outcome(check.actor, check.opponent, check.id, reported, c.hp, after, check.critical))
  }

  predicate Records(records: seq<Outcome>, id: string) { exists r :: r in records && r.checkId == id }

  function RecordOnce(records: seq<Outcome>, told: Option<Outcome>): seq<Outcome> {
    if told.None? || Records(records, told.value.checkId) then records else records + [told.value]
  }

  /** The check under which the action may be settled now. */
  function Facing(s: State, a: Action): Option<Check> {
    if a.actor !in s.players || !Able(s.players[a.actor]) then None
    else
      var check :- AuthoritativeCheck(s.checks, a);
      if IsTarget(s, check.opponent) then Some(check) else None
  }

  predicate Fits(o: Outcome, check: Check, actor: string) {
    o.checkId == check.id && o.attacker == actor && o.target == check.opponent
  }

  datatype Settled = Settled(state: State, told: Option<Outcome>)

  /** Settles the i-th action; `amount` is the damage its dice, weapon and armour come to. */
  function Settle(s: State, i: nat, rules: Rules, amount: nat): (r: Settled)
    requires i < |s.queue|
    ensures |r.state.queue| == |s.queue|
  {
    var a := s.queue[i];
    var facing := Facing(s, a);
    if facing.None? then Settled(s, None)
    else
      var check := facing.value;
      match a.cache
      case Unreadable => Settled(s, None)
      case Cached(o) =>
        if Fits(o, check, a.actor) then Settled(s.(records := RecordOnce(s.records, Some(o))), Some(o))
        else Settled(s, None)
      case NoCache =>
        var (sheet, o) := Struck(SheetOf(s, check.opponent), check.opponent in s.players, check, amount, rules);
        Settled(WithSheet(s, check.opponent, sheet).(
                  queue := s.queue[i := a.(cache := Cached(o))], records := RecordOnce(s.records, Some(o))), Some(o))
  }

  datatype Round = Round(state: State, told: seq<Option<Outcome>>)

  /** The first n actions, in order. */
  function Pass(s: State, n: nat, rules: Rules, amounts: nat -> nat): (r: Round)
    requires n <= |s.queue|
    ensures |r.state.queue| == |s.queue| && |r.told| == n
  {
    if n == 0 then Round(s, [])
    else
      var before := Pass(s, n - 1, rules, amounts);
      var now := Settle(before.state, n - 1, rules, amounts(n - 1));
      Round(now.state, before.told + [now.told])
  }

  function Resolved(s: State, rules: Rules, amounts: nat -> nat): Round { Pass(s, |s.queue|, rules, amounts) }

  function Somes<T>(xs: seq<Option<T>>): seq<T> {
    if xs == [] then []
    else Somes(xs[..|xs| - 1]) + (if xs[|xs| - 1].Some? then [xs[|xs| - 1].value] else [])
  }

  // ---- the instance ----

  class Instance {
    var players: map<string, Sheet>
    var npcs: map<string, Sheet>
    var queue: seq<Action>
    var checks: seq<Check>
    var records: seq<Outcome>

    ghost function Value(): State
      reads this
    {
      State(players, npcs, queue, checks, records)
    }

    constructor (s: State)
      ensures Value() == s
    {
      players, npcs, queue, checks, records := s.players, s.npcs, s.queue, s.checks, s.records;
    }

    /** Keeps the record unless its check is already recorded. */
    method RecordResult(o: Outcome)
      modifies this`records
      ensures records == RecordOnce(old(records), Some(o))
    {
      var i := 0;
      while i < |records|
        invariant 0 <= i <= |records| && records == old(records)
        invariant forall j :: 0 <= j < i ==> records[j].checkId != o.checkId
      {
        if records[i].checkId == o.checkId { return; }
        i := i + 1;
      }
      records := records + [o];
    }

    /** Strikes the target in place and caches the outcome on the action. */
    method Attack(i: nat, check: Check, amount: nat, rules: Rules) returns (o: Outcome)
      requires i < |queue| && Facing(Value(), queue[i]) == Some(check) && queue[i].cache.NoCache?
      modifies this`players, this`npcs, this`queue
      ensures
        var (sheet, result) := Struck(SheetOf(old(Value()), check.opponent), check.opponent in old(players), check,
                                            amount, rules);
        && o == result
        && Value() == WithSheet(old(Value()), check.opponent, sheet).(
             queue := old(queue)[i := old(queue)[i].(cache := Cached(o))])
    {
      var ref, isPlayer := check.opponent, check.opponent in players;
      var target := if isPlayer then players[ref] else npcs[ref[4..]];
      var unconscious, before := Unconscious(target), target.hp;
      var damage := if rules.narrative || !check.succeeded then 0 else amount;
      var after := before;
      if damage > 0 {
        after := Max(0, before - damage);
        target := WithHp(target, after, if target.maxHp.Some? then target.maxHp.value else before);
      }
      var reported := if before <= 0 then damage else before - after;
      if isPlayer && rules.downed {
        target := Downed(target);
      }
      if unconscious && rules.downed && check.succeeded && reported > 0 {
        target := WithFailures(target, if check.critical then 2 else 1, rules.round);
      }
      o := Outcome(check.actor, ref, check.id, reported, before, after, check.critical);
      if isPlayer {
        players := players[ref := target];
      } else {
        npcs := npcs[ref[4..] := target];
      }
      queue := queue[i := queue[i].(cache := Cached(o))];
    }

    /** Settles every action of the queue and returns what is to be told, in order. */
    method ResolveCombat(rules: Rules, amounts: nat -> nat) returns (results: seq<Outcome>)
      modifies this
      ensures var round := Resolved(old(Value()), rules, amounts);
        Value() == round.state && results == Somes(round.told)
    {
      hide Struck, Facing, WithSheet, RecordOnce, AuthoritativeCheck;
      results := [];
      ghost var told: seq<Option<Outcome>> := [];
      for i := 0 to |queue|
        invariant |queue| == |old(queue)|
        invariant Round(Value(), told) == Pass(old(Value()), i, rules, amounts)
        invariant results == Somes(told)
      {
        ghost var now := Settle(Value(), i, rules, amounts(i));
        var a := queue[i];
        var facing := Facing(State(players, npcs, queue, checks, records), a);
        var result := None;
        if facing.Some? {
          match a.cache
          case Unreadable =>
          case Cached(o) =>
            if Fits(o, facing.value, a.actor) { result := Some(o); }
          case NoCache =>
            var o := Attack(i, facing.value, amounts(i), rules);
            result := Some(o);
        }
        if result.Some? {
          RecordResult(result.value);
          results := results + [result.value];
        }
        assert now == Settled(Value(), result);
        assert (told + [result])[..|told|] == told;
        told := told + [result];
      }
    }
  }

  // ---- a retry changes nothing ----

  /** The blow never brings anyone back. */
  lemma BlowsDisable(c: Sheet, isPlayer: bool, check: Check, amount: nat, rules: Rules)
    ensures Able(Struck(c, isPlayer, check, amount, rules).0) ==> Able(c)
  {}

  /** Somebody able to act is felled by a blow exactly if they are a player, the rules have death saves and no hit
      points are left; then they start a fresh count.  Somebody unconscious counts a failure, or two on a critical hit,
      exactly if the blow succeeded and did damage under those rules. */
  lemma BlowsFellIff(c: Sheet, isPlayer: bool, check: Check, amount: nat, rules: Rules)
    ensures var (d, o) := Struck(c, isPlayer, check, amount, rules);
      && (Able(c) ==> (Able(d) <==> !(isPlayer && rules.downed && d.hp <= 0)))
      && (Able(c) && !Able(d) ==> d.status == "downed" && d.saves == Some(FRESH_SAVES) && !d.deceased)
      && (Unconscious(c) && !c.deceased ==>
            (d.deceased || Failed(d) != Failed(c) <==>
             rules.downed && check.succeeded && !rules.narrative && o.damage > 0))
      && (Unconscious(c) && !c.deceased && 0 <= Failed(c) < 3 && !d.deceased && Failed(d) != Failed(c) ==>
            Failed(d) == Failed(c) + if check.critical then 2 else 1)
  {
    assert |"stable"| == 6 && |"downed"| == 6 && "stable"[0] != "downed"[0] && |""| == 0;
  }

  predicate CanAct(s: State, p: string) { p in s.players && Able(s.players[p]) }

  /** What no settling of another action touches. */
  ghost predicate Follows(s: State, t: State) {
    && t.checks == s.checks && t.players.Keys == s.players.Keys && t.npcs.Keys == s.npcs.Keys
    && (forall p :: CanAct(t, p) ==> CanAct(s, p))
    && s.records <= t.records
  }

  lemma SettleFollows(s: State, i: nat, rules: Rules, amount: nat)
    requires i < |s.queue|
    ensures var t := Settle(s, i, rules, amount).state;
      && Follows(s, t)
      && (forall j :: 0 <= j < |s.queue| && j != i ==> t.queue[j] == s.queue[j])
      && t.queue[i].(cache := NoCache) == s.queue[i].(cache := NoCache)
  {
    hide AuthoritativeCheck, Struck, Able;
    var a, t := s.queue[i], Settle(s, i, rules, amount).state;
    var facing := Facing(s, a);
    if facing.Some? && a.cache.NoCache? {
      var ref := facing.value.opponent;
      BlowsDisable(SheetOf(s, ref), ref in s.players, facing.value, amount, rules);
    }
  }

  /** What a later pass tells about an action that this one has dealt with. */
  function ToldAgain(s: State, told: Option<Outcome>): Option<Outcome> {
    if told.Some? && CanAct(s, told.value.attacker) then told else None
  }

  /** The action is dealt with: settling it again touches nobody and tells `ToldAgain`. */
  predicate Inert(s: State, a: Action, told: Option<Outcome>) {
    var facing := Facing(s, a);
    && (told.Some? ==> told.value.attacker == a.actor && Records(s.records, told.value.checkId))
    && (facing.Some? ==>
          && !a.cache.NoCache?
          && (told.Some? ==> a.cache == Cached(told.value) && Fits(told.value, facing.value, a.actor))
          && (told.None? ==> a.cache.Cached? ==> !Fits(a.cache.outcome, facing.value, a.actor)))
    && (facing.None? ==> ToldAgain(s, told).None?)
  }

  lemma FacingFollows(s: State, t: State, a: Action)
    requires Follows(s, t)
    ensures Facing(t, a) == if CanAct(t, a.actor) then Facing(s, a) else None
  {
    hide AuthoritativeCheck, Able;
    assert forall ref :: IsTarget(t, ref) <==> IsTarget(s, ref);
    if CanAct(t, a.actor) { assert CanAct(s, a.actor); }
  }

  lemma RecordsFollow(s: State, t: State, id: string)
    requires Follows(s, t) && Records(s.records, id)
    ensures Records(t.records, id)
  {
    var r :| r in s.records && r.checkId == id;
    assert r in t.records;
  }

  lemma FacingNeedsActor(s: State, a: Action)
    ensures Facing(s, a).Some? ==> CanAct(s, a.actor)
    ensures Facing(s, a).Some? ==>
              && Facing(s, a) == AuthoritativeCheck(s.checks, a)
              && IsTarget(s, Facing(s, a).value.opponent) && Facing(s, a).value.actor == a.actor
  {}

  lemma InertFollows(s: State, t: State, a: Action, told: Option<Outcome>)
    requires Follows(s, t) && Inert(s, a, told)
    ensures Inert(t, a, told)
  {
    hide Able, Records, AuthoritativeCheck, Facing;
    FacingFollows(s, t, a);
    if told.Some? { RecordsFollow(s, t, told.value.checkId); }
    FacingNeedsActor(s, a);
  }

  lemma RecordOnceRecords(records: seq<Outcome>, o: Outcome)
    ensures Records(RecordOnce(records, Some(o)), o.checkId)
  {
    if !Records(records, o.checkId) { assert (records + [o])[|records|] == o; }
  }

  lemma FacingIgnoresCache(s: State, a: Action, b: Action)
    requires a.(cache := NoCache) == b.(cache := NoCache)
    ensures Facing(s, a) == Facing(s, b)
  {}

  lemma StruckNames(s: State, a: Action, amount: nat, rules: Rules)
    ensures var facing := Facing(s, a); facing.Some? ==>
      var check := facing.value;
      Fits(Struck(SheetOf(s, check.opponent), check.opponent in s.players, check, amount, rules).1, check, a.actor)
  {
    hide AuthoritativeCheck, Able;
  }

  lemma SettleMakesInert(s: State, i: nat, rules: Rules, amount: nat)
    requires i < |s.queue|
    ensures var r := Settle(s, i, rules, amount); Inert(r.state, r.state.queue[i], r.told)
  {
    hide AuthoritativeCheck, Struck, Able, Records, Facing, RecordOnce;
    var a, r := s.queue[i], Settle(s, i, rules, amount);
    SettleFollows(s, i, rules, amount);
    FacingFollows(s, r.state, r.state.queue[i]);
    FacingIgnoresCache(s, a, r.state.queue[i]);
    FacingNeedsActor(s, a);
    StruckNames(s, a, amount, rules);
    if r.told.Some? { RecordOnceRecords(s.records, r.told.value); }
  }

  /** Along a pass: everything before n is dealt with, everything from n on has its original cache. */
  lemma {:induction false} PassMakesInert(s: State, n: nat, rules: Rules, amounts: nat -> nat)
    requires n <= |s.queue|
    ensures var r := Pass(s, n, rules, amounts);
      && Follows(s, r.state)
      && (forall i :: 0 <= i < n ==> Inert(r.state, r.state.queue[i], r.told[i]))
      && (forall i :: n <= i < |s.queue| ==> r.state.queue[i] == s.queue[i])
  {
    hide Settle, Inert, CanAct;
    if n > 0 {
      PassMakesInert(s, n - 1, rules, amounts);
      var before := Pass(s, n - 1, rules, amounts);
      SettleFollows(before.state, n - 1, rules, amounts(n - 1));
      SettleMakesInert(before.state, n - 1, rules, amounts(n - 1));
      var now := Settle(before.state, n - 1, rules, amounts(n - 1));
      forall i | 0 <= i < n - 1 ensures Inert(now.state, now.state.queue[i], before.told[i]) {
        InertFollows(before.state, now.state, before.state.queue[i], before.told[i]);
      }
    }
  }

  function RecordAll(records: seq<Outcome>, told: seq<Option<Outcome>>): seq<Outcome> {
    if told == [] then records else RecordOnce(RecordAll(records, told[..|told| - 1]), told[|told| - 1])
  }

  lemma SettleInert(s: State, i: nat, rules: Rules, amount: nat, told: Option<Outcome>, records: seq<Outcome>)
    requires i < |s.queue| && Inert(s, s.queue[i], told)
    ensures Settle(s.(records := records), i, rules, amount)
      == Settled(s.(records := RecordOnce(records, ToldAgain(s, told))), ToldAgain(s, told))
  {
    hide AuthoritativeCheck, Struck, Able, Records;
    var a, t := s.queue[i], s.(records := records);
    assert Facing(t, a) == Facing(s, a);
    FacingNeedsActor(s, a);
  }

  lemma PassNothing(s: State, rules: Rules, amounts: nat -> nat)
    ensures Pass(s, 0, rules, amounts) == Round(s, [])
  {}

  lemma PassStep(s: State, n: nat, rules: Rules, amounts: nat -> nat)
    requires n < |s.queue|
    ensures var before := Pass(s, n, rules, amounts);
      var now := Settle(before.state, n, rules, amounts(n));
      Pass(s, n + 1, rules, amounts) == Round(now.state, before.told + [now.told])
  {}

  lemma RecordNothing(records: seq<Outcome>)
    ensures RecordAll(records, []) == records
  {}

  /** One more action of such a pass. */
  lemma PassOneMoreInert(
    t: State, n: nat, rules: Rules, amounts: nat -> nat, told: Option<Outcome>, records: seq<Outcome>, before: Round)
    requires n < |t.queue| && Inert(t, t.queue[n], told)
    requires before == Pass(t.(records := records), n, rules, amounts)
    requires before.state == t.(records := RecordAll(records, before.told))
    ensures var r := Pass(t.(records := records), n + 1, rules, amounts);
      && r.state == t.(records := RecordAll(records, r.told))
      && r.told == before.told + [ToldAgain(t, told)]
  {
    hide Settle, Inert, ToldAgain, RecordOnce, Pass;
    SettleInert(t, n, rules, amounts(n), told, before.state.records);
    PassStep(t.(records := records), n, rules, amounts);
    var r := Pass(t.(records := records), n + 1, rules, amounts);
    assert r.told[..n] == before.told;
  }

  lemma {:induction false} PassOverInert(
    t: State, n: nat, rules: Rules, amounts: nat -> nat, told: seq<Option<Outcome>>, records: seq<Outcome>)
    requires n <= |t.queue| == |told|
    requires forall i :: 0 <= i < |told| ==> Inert(t, t.queue[i], told[i])
    ensures var r := Pass(t.(records := records), n, rules, amounts);
      && r.state == t.(records := RecordAll(records, r.told))
      && (forall i :: 0 <= i < n ==> r.told[i] == ToldAgain(t, told[i]))
  {
    hide Settle, Inert, ToldAgain, RecordAll, Pass;
    if n > 0 {
      PassOverInert(t, n - 1, rules, amounts, told, records);
      var before := Pass(t.(records := records), n - 1, rules, amounts);
      PassOneMoreInert(t, n - 1, rules, amounts, told[n - 1], records, before);
    } else {
      PassNothing(t.(records := records), rules, amounts);
      RecordNothing(records);
    }
  }

  /** Retrying a settled round, with any dice, under any rules and whatever became of the records, costs nobody a hit
      point and rerolls nothing.  It tells again exactly the attacks whose attackers can still act, and records those
      of them that are not on record. */
  lemma RetryIsHarmless(
    s: State, rules: Rules, amounts: nat -> nat, rules2: Rules, again: nat -> nat, records: seq<Outcome>)
    ensures var first := Resolved(s, rules, amounts);
      var retry := Resolved(first.state.(records := records), rules2, again);
      && retry.state == first.state.(records := RecordAll(records, retry.told))
      && |retry.told| == |first.told|
      && forall i :: 0 <= i < |first.told| ==> retry.told[i] == ToldAgain(first.state, first.told[i])
  {
    hide Inert, Follows, Pass;
    PassMakesInert(s, |s.queue|, rules, amounts);
    var first := Resolved(s, rules, amounts);
    PassOverInert(first.state, |s.queue|, rules2, again, first.told, records);
  }

  lemma {:induction false} RecordAllKnown(records: seq<Outcome>, told: seq<Option<Outcome>>)
    requires forall i :: 0 <= i < |told| && told[i].Some? ==> Records(records, told[i].value.checkId)
    ensures RecordAll(records, told) == records
  {
    hide Records;
    if told != [] { RecordAllKnown(records, told[..|told| - 1]); }
  }

  /** With its records kept, a second resolution leaves the whole instance exactly as it was. */
  lemma SecondResolutionIsIdle(s: State, rules: Rules, amounts: nat -> nat, rules2: Rules, again: nat -> nat)
    ensures var first := Resolved(s, rules, amounts); Resolved(first.state, rules2, again).state == first.state
  {
    hide Pass, Follows, Records, CanAct;
    var first := Resolved(s, rules, amounts);
    RetryIsHarmless(s, rules, amounts, rules2, again, first.state.records);
    PassMakesInert(s, |s.queue|, rules, amounts);
    var retry := Resolved(first.state, rules2, again);
    assert first.state.(records := first.state.records) == first.state;
    forall i | 0 <= i < |retry.told| && retry.told[i].Some?
      ensures Records(first.state.records, retry.told[i].value.checkId)
    {
      assert Inert(first.state, first.state.queue[i], first.told[i]);
    }
    RecordAllKnown(first.state.records, retry.told);
  }

  /** The retry tells the same story if and only if every attacker it told about can still act. */
  lemma SameStoryIff(s: State, rules: Rules, amounts: nat -> nat, rules2: Rules, again: nat -> nat)
    ensures var first := Resolved(s, rules, amounts);
      Resolved(first.state, rules2, again).told == first.told
      <==> forall o :: Some(o) in first.told ==> CanAct(first.state, o.attacker)
  {
    hide Pass, CanAct;
    var first := Resolved(s, rules, amounts);
    RetryIsHarmless(s, rules, amounts, rules2, again, first.state.records);
    assert first.state.(records := first.state.records) == first.state;
    var retry := Resolved(first.state, rules2, again);
    if retry.told == first.told {
      forall o | Some(o) in first.told ensures CanAct(first.state, o.attacker) {
        var i :| 0 <= i < |first.told| && first.told[i] == Some(o);
        assert ToldAgain(first.state, first.told[i]) == Some(o);
      }
    } else if forall o :: Some(o) in first.told ==> CanAct(first.state, o.attacker) {
      forall i | 0 <= i < |first.told| ensures retry.told[i] == first.told[i] {
        if first.told[i].Some? { assert Some(first.told[i].value) in first.told; }
      }
    }
  }

  /** A duel in which the first attacker is then felled: the retry no longer tells the first attack. */
  function Duel(): State {
    State(map["a" := Sheet(5, Some(5), "", None, false, None), "b" := Sheet(5, Some(5), "", None, false, None)], map[],
          [Action("a", Some(Request("1", "a", "attack", "b")), NoCache),
           Action("b", Some(Request("2", "b", "attack", "a")), NoCache)],
          [Check("1", "a", "attack", "b", true, false), Check("2", "b", "attack", "a", true, false)], [])
  }

  function DuelDamage(): nat -> nat { i => if i == 0 then 1 else 9 }

  lemma DuelStarts()
    ensures var r := Settle(Duel(), 0, Rules(true, false, 1), 1);
      && r.told == Some(Outcome("a", "b", "1", 1, 5, 4, false))
      && r.state.checks == Duel().checks && r.state.queue[1] == Duel().queue[1]
      && "a" in r.state.players && r.state.players["a"] == Sheet(5, Some(5), "", None, false, None)
      && "b" in r.state.players && r.state.players["b"] == Sheet(4, Some(5), "", None, false, None)
  {
    hide AuthoritativeCheck;
    var s, a := Duel(), Duel().queue[0];
    assert "a"[0] != "b"[0] && "1"[0] != "2"[0];
    assert SoleAnswer(s.checks, a.request.value, 0);
    assert AuthoritativeCheck(s.checks, a) == Some(s.checks[0]);
  }

  lemma DuelEnds(s: State)
    requires s.checks == Duel().checks && |s.queue| == 2 && s.queue[1] == Duel().queue[1]
    requires "a" in s.players && "b" in s.players && Able(s.players["b"])
    requires s.players["a"] == Sheet(5, Some(5), "", None, false, None)
    ensures !CanAct(Settle(s, 1, Rules(true, false, 1), 9).state, "a")
  {
    hide AuthoritativeCheck;
    var a := s.queue[1];
    assert "a"[0] != "b"[0] && "1"[0] != "2"[0];
    assert SoleAnswer(s.checks, a.request.value, 1);
    assert AuthoritativeCheck(s.checks, a) == Some(s.checks[1]);
  }

  lemma RetryForgetsTheFelled()
    ensures var rules := Rules(true, false, 1);
      var first := Resolved(Duel(), rules, DuelDamage());
      && first.told[0].Some? && Resolved(first.state, rules, DuelDamage()).told[0].None?
  {
    hide Settle, CanAct;
    var s, rules, amounts := Duel(), Rules(true, false, 1), DuelDamage();
    DuelStarts();
    var one, first := Pass(s, 1, rules, amounts), Pass(s, 2, rules, amounts);
    assert one == Round(Settle(s, 0, rules, 1).state, [Settle(s, 0, rules, 1).told]);
    assert "a"[0] != "b"[0];
    DuelEnds(one.state);
    assert first.state == Settle(one.state, 1, rules, 9).state && first.told[0] == one.told[0];
    RetryIsHarmless(s, rules, amounts, rules, amounts, first.state.records);
    assert first.state.(records := first.state.records) == first.state;
  }
}
