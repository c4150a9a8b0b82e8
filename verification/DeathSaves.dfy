/** One death save per unconscious character and round, with a cache that replays it.

    The source keeps the counters of a sheet in a record of their own, and the cache is filled after that record has
    been changed in place; the classes keep it as an object so that this sharing is part of the model. */
module DeathSaves {
  import opened Values
  import opened Characters

  datatype Event = Wake | Dead | Stable | Success | Failure | FailureDouble

  datatype Before = Before(status: string, saves: Option<Saves>)

  /** A cached save.  Entries of old games have no `before` or no hit points. */
  datatype Entry = Entry(
    roll: int, event: Event, before: Option<Before>, status: string, saves: Option<Saves>, deceased: bool,
    hp: Option<int>)

  // ---- one save ----

  function Counted(saves: Saves, roll: int): Saves {
    if roll >= 20 then saves
    else if roll <= 1 then saves.(failure := saves.failure + 2)
    else if roll >= 10 then saves.(success := saves.success + 1)
    else saves.(failure := saves.failure + 1)
  }

  function EventOf(counted: Saves, roll: int): Event {
    if roll >= 20 then Wake
    else if counted.failure >= 3 then Dead
    else if counted.success >= 3 then Stable
    else if roll <= 1 then FailureDouble
    else if roll >= 10 then Success
    else Failure
  }

  function CountersOf(c: Sheet): Saves { if c.saves.Some? then c.saves.value else FRESH_SAVES }

  /** The event of a roll on this sheet. */
  function Thrown(c: Sheet, roll: int): Event { EventOf(Counted(CountersOf(c), roll), roll) }

  /** The sheet after the roll. */
  function Rolled(c: Sheet, roll: int, round: int): Sheet {
    match Thrown(c, roll)
    case Wake => WithHp(c, 1, if c.maxHp.Some? then c.maxHp.value else 1).(status := "", saves := None)
    case Dead => MarkedDead(c.(status := "", saves := None), round)
    case Stable => c.(status := "stable", saves := None)
    case _ => c.(saves := Some(Counted(CountersOf(c), roll)))
  }

  /** What is cached for a roll: the counters "before" it are read after they were changed in place. */
  function EntryFor(c: Sheet, roll: int, round: int): Entry {
    var after := Rolled(c, roll, round);
    Entry(roll, Thrown(c, roll),
          Some(Before(c.status, if c.saves.None? then None else Some(Counted(c.saves.value, roll)))),
          after.status, after.saves, after.deceased, Some(after.hp))
  }

  predicate Matches(c: Sheet, e: Entry) {
    e.before.Some? && c.status == e.before.value.status && c.saves == e.before.value.saves
  }

  /** A cached save is applied again where the sheet looks as it did before the roll. */
  function Replayed(c: Sheet, e: Entry): Sheet {
    if !Matches(c, e) then c
    else c.(status := e.status, saves := e.saves, deceased := e.deceased, hp := if e.hp.Some? then e.hp.value else c.hp)
  }

  datatype Turn = Turn(sheet: Sheet, entry: Option<Entry>)

  function OneSave(c: Sheet, cached: Option<Entry>, roll: int, round: int): Turn {
    if cached.Some? then Turn(Replayed(c, cached.value), cached)
    else if c.deceased || c.status != "downed" then Turn(c, None)
    else Turn(Rolled(c, roll, round), Some(EntryFor(c, roll, round)))
  }

  // ---- in place ----

  class Counters {
    var success: int
    var failure: int

    function Value(): Saves
      reads this
    {
      Saves(success, failure)
    }

    constructor (s: Saves)
      ensures Value() == s
    {
      success, failure := s.success, s.failure;
    }
  }

  class Character {
    var hp: int
    var maxHp: Option<int>
    var status: string
    var saves: Counters?
    var deceased: bool
    var deathRound: Option<int>

    function SavedCounts(): Option<Saves>
      reads this, saves
    {
      if saves == null then None else Some(saves.Value())
    }

    ghost function Value(): Sheet
      reads this, saves
    {
      Sheet(hp, maxHp, status, SavedCounts(), deceased, deathRound)
    }

    constructor (c: Sheet)
      ensures Value() == c && (saves == null || fresh(saves))
    {
      hp, maxHp, status, deceased, deathRound := c.hp, c.maxHp, c.status, c.deceased, c.deathRound;
      new;
      saves := null;
      if c.saves.Some? { saves := new Counters(c.saves.value); }
    }

    /** Applies a roll, changing the sheet's counters in place. */
    method ApplyDeathSave(roll: int, round: int) returns (event: Event)
      modifies this, saves
      ensures Value() == Rolled(old(Value()), roll, round) && event == Thrown(old(Value()), roll)
      ensures saves == null || saves == old(saves) || fresh(saves)
      ensures old(saves) != null ==> old(saves).Value() == Counted(old(saves.Value()), roll)
    {
      var counters := saves;
      if counters == null {
        counters := new Counters(FRESH_SAVES);
        saves := counters;
      }
      if roll >= 20 {
        var top := if maxHp.Some? then maxHp.value else 1;
        hp, maxHp := Max(0, Min(Max(0, top), 1)), Some(Max(0, top));
        status, saves := "", null;
        return Wake;
      }
      if roll <= 1 {
        counters.failure := counters.failure + 2;
        event := FailureDouble;
      } else if roll >= 10 {
        counters.success := counters.success + 1;
        event := Success;
      } else {
        counters.failure := counters.failure + 1;
        event := Failure;
      }
      if counters.failure >= 3 {
        status, saves := "", null;
        if !deceased { deceased, deathRound := true, Some(round); }
        return Dead;
      }
      if counters.success >= 3 {
        status, saves := "stable", null;
        return Stable;
      }
    }

    /** One character's turn in the round's saves. */
    method Settle(cached: Option<Entry>, roll: int, round: int) returns (entry: Option<Entry>)
      modifies this, saves
      ensures Turn(Value(), entry) == OneSave(old(Value()), cached, roll, round)
      ensures saves == null || saves == old(saves) || fresh(saves)
    {
      entry := cached;
      if cached.Some? {
        var e := cached.value;
        if e.before.Some? && status == e.before.value.status && SavedCounts() == e.before.value.saves {
          status := e.status;
          if e.saves.Some? {
            saves := new Counters(e.saves.value);
          } else {
            saves := null;
          }
          deceased := e.deceased;
          if e.hp.Some? { hp := e.hp.value; }
        }
      } else if !deceased && status == "downed" {
        var before, beforeStatus := saves, status;
        var event := ApplyDeathSave(roll, round);
        var counts := if before == null then None else Some(before.Value());
        entry := Some(
          Entry(roll, event, Some(Before(beforeStatus, counts)), status, SavedCounts(), deceased, Some(hp)));
      }
    }
  }

  /** The cache of one round. */
  type Cache = map<string, Entry>

  function Lookup(cache: Cache, uid: string): Option<Entry> { if uid in cache then Some(cache[uid]) else None }

  /** What the round does to one player's sheet and cache entry. */
  function TurnOf(c: Sheet, cache: Cache, uid: string, rolls: string -> int, round: int): Turn {
    OneSave(c, Lookup(cache, uid), rolls(uid), round)
  }

  function CacheAfter(
    uids: seq<string>, sheets: seq<Sheet>, cache: Cache, rolls: string -> int, round: int, n: nat): Cache
    requires n <= |uids| == |sheets|
  {
    if n == 0 then cache
    else
      var c := CacheAfter(uids, sheets, cache, rolls, round, n - 1);
      var turn := TurnOf(sheets[n - 1], cache, uids[n - 1], rolls, round);
      if turn.entry.Some? then c[uids[n - 1] := turn.entry.value] else c
  }

  function RoundOf(
    uids: seq<string>, sheets: seq<Sheet>, cache: Cache, declared: bool, rolls: string -> int, round: int)
    : (seq<Sheet>, Cache)
    requires |uids| == |sheets|
  {
    if !declared then (sheets, cache)
    else
      (seq(|sheets|, i requires 0 <= i < |sheets| => TurnOf(sheets[i], cache, uids[i], rolls, round).sheet),
       CacheAfter(uids, sheets, cache, rolls, round, |uids|))
  }

  lemma CachedStays(c: Sheet, cache: Cache, uid: string, rolls: string -> int, round: int)
    ensures uid in cache ==> TurnOf(c, cache, uid, rolls, round).entry == Some(cache[uid])
  {}

  lemma {:induction false} CacheAfterKeeps(
    uids: seq<string>, sheets: seq<Sheet>, cache: Cache, rolls: string -> int, round: int, n: nat)
    requires n <= |uids| == |sheets| && Distinct(uids)
    ensures var after := CacheAfter(uids, sheets, cache, rolls, round, n);
      && (forall i :: n <= i < |uids| ==> Lookup(after, uids[i]) == Lookup(cache, uids[i]))
      && (forall i :: 0 <= i < n ==> Lookup(after, uids[i]) == TurnOf(sheets[i], cache, uids[i], rolls, round).entry)
      && (forall uid :: uid in cache ==> uid in after && after[uid] == cache[uid])
      && (forall uid :: uid in after ==> uid in cache || uid in uids)
  {
    hide OneSave;
    if n > 0 {
      CacheAfterKeeps(uids, sheets, cache, rolls, round, n - 1);
      CachedStays(sheets[n - 1], cache, uids[n - 1], rolls, round);
    }
  }

  lemma CacheAfterStep(
    uids: seq<string>, sheets: seq<Sheet>, cache: Cache, rolls: string -> int, round: int, n: nat)
    requires n < |uids| == |sheets|
    ensures CacheAfter(uids, sheets, cache, rolls, round, 0) == cache
    ensures var turn := TurnOf(sheets[n], cache, uids[n], rolls, round);
      var c := CacheAfter(uids, sheets, cache, rolls, round, n);
      CacheAfter(uids, sheets, cache, rolls, round, n + 1)
        == if turn.entry.Some? then c[uids[n] := turn.entry.value] else c
  {}

  lemma RoundOfAt(
    uids: seq<string>, sheets: seq<Sheet>, cache: Cache, declared: bool, rolls: string -> int, round: int)
    requires |uids| == |sheets|
    ensures CacheAfter(uids, sheets, cache, rolls, round, 0) == cache
    ensures var r := RoundOf(uids, sheets, cache, declared, rolls, round);
      && |r.0| == |sheets|
      && (!declared ==> r == (sheets, cache))
      && (declared ==>
            && r.1 == CacheAfter(uids, sheets, cache, rolls, round, |uids|)
            && forall i :: 0 <= i < |sheets| ==> r.0[i] == TurnOf(sheets[i], cache, uids[i], rolls, round).sheet)
  {}

  /** The players of a game and the caches of its rounds. */
  class Table {
    const uids: seq<string>
    const sheets: seq<Character>
    var caches: map<int, Cache>

    constructor (uids: seq<string>, sheets: seq<Character>)
      ensures this.uids == uids && this.sheets == sheets && caches == map[]
    {
      this.uids, this.sheets, caches := uids, sheets, map[];
    }

    /** One sheet per player, nothing shared between sheets. */
    ghost predicate Valid()
      reads this, sheets
    {
      && |uids| == |sheets| && Distinct(uids) && Distinct(sheets)
      && forall i, j :: 0 <= i < j < |sheets| && sheets[i].saves != null ==> sheets[i].saves != sheets[j].saves
    }

    ghost function AllCounters(): set<Counters>
      reads this, sheets
    {
      set c | c in sheets && c.saves != null :: c.saves
    }

    function CacheOf(round: int): Cache
      reads this
    {
      if round in caches then caches[round] else map[]
    }

    ghost function Sheets(): (r: seq<Sheet>)
      reads this, sheets, AllCounters()
      ensures |r| == |sheets| && forall i :: 0 <= i < |sheets| ==> r[i] == sheets[i].Value()
    {
      seq(|sheets|, i requires 0 <= i < |sheets| reads this, sheets, AllCounters() => sheets[i].Value())
    }

    /** One player's turn; no other sheet changes. */
    method SettleAt(i: nat, cached: Option<Entry>, roll: int, round: int) returns (entry: Option<Entry>)
      requires Valid() && i < |sheets|
      modifies sheets[i], sheets[i].saves
      ensures Valid()
      ensures Turn(sheets[i].Value(), entry) == OneSave(old(sheets[i].Value()), cached, roll, round)
      ensures forall j :: 0 <= j < |sheets| && j != i ==>
                sheets[j].saves == old(sheets[j].saves) && sheets[j].Value() == old(sheets[j].Value())
      ensures sheets[i].saves == null || sheets[i].saves == old(sheets[i].saves) || fresh(sheets[i].saves)
    {
      hide OneSave;
      entry := sheets[i].Settle(cached, roll, round);
    }

    method ResolveRound(declared: bool, rolls: string -> int, round: int)
      requires Valid()
      modifies this`caches, sheets, AllCounters()
      ensures Valid()
      ensures (Sheets(), CacheOf(round)) == RoundOf(uids, old(Sheets()), old(CacheOf(round)), declared, rolls, round)
      ensures forall r :: r != round ==> CacheOf(r) == old(CacheOf(r))
    {
      hide OneSave, CacheAfter, RoundOf, Character.Value;
      RoundOfAt(uids, Sheets(), CacheOf(round), declared, rolls, round);
      ghost var spec := RoundOf(uids, Sheets(), CacheOf(round), declared, rolls, round);
      if !declared { return; }
      var cache := CacheOf(round);
      ghost var counters := AllCounters();
      for i := 0 to |uids|
        invariant Valid() && caches == old(caches)
        invariant forall j :: 0 <= j < |sheets| && sheets[j].saves != null ==>
          sheets[j].saves in counters || fresh(sheets[j].saves)
        invariant forall j :: i <= j < |sheets| ==> sheets[j].Value() == old(sheets[j].Value())
        invariant forall j :: 0 <= j < i ==> sheets[j].Value() == spec.0[j]
        invariant cache == CacheAfter(uids, old(Sheets()), old(CacheOf(round)), rolls, round, i)
      {
        var uid := uids[i];
        CacheAfterKeeps(uids, old(Sheets()), old(CacheOf(round)), rolls, round, i);
        CacheAfterStep(uids, old(Sheets()), old(CacheOf(round)), rolls, round, i);
        var entry := SettleAt(i, Lookup(cache, uid), rolls(uid), round);
        if entry.Some? { cache := cache[uid := entry.value]; }
      }
      caches := caches[round := cache];
      assert Sheets() == spec.0;
    }
  }

  // ---- replaying a round ----

  lemma RoundAt(
    uids: seq<string>, sheets: seq<Sheet>, cache: Cache, declared: bool, rolls: string -> int, round: int, i: nat)
    requires i < |uids| == |sheets| && Distinct(uids)
    ensures var r := RoundOf(uids, sheets, cache, declared, rolls, round);
      && |r.0| == |sheets|
      && (!declared ==> r.0[i] == sheets[i])
      && (declared ==> Turn(r.0[i], Lookup(r.1, uids[i])) == TurnOf(sheets[i], cache, uids[i], rolls, round))
  {
    hide OneSave;
    CacheAfterKeeps(uids, sheets, cache, rolls, round, |uids|);
  }

  lemma TurnTwice(c: Sheet, cached: Option<Entry>, roll: int, roll2: int, round: int)
    ensures var first := OneSave(c, cached, roll, round); OneSave(first.sheet, first.entry, roll2, round) == first
  {
    hide Thrown, CountersOf;
  }

  lemma SameCache(uids: seq<string>, sheets: seq<Sheet>, cache: Cache, rolls: string -> int, round: int)
    requires |uids| == |sheets| && Distinct(uids)
    requires forall i :: 0 <= i < |uids| ==>
               TurnOf(sheets[i], cache, uids[i], rolls, round).entry == Lookup(cache, uids[i])
    ensures CacheAfter(uids, sheets, cache, rolls, round, |uids|) == cache
  {
    hide OneSave, CacheAfter;
    CacheAfterKeeps(uids, sheets, cache, rolls, round, |uids|);
    var after := CacheAfter(uids, sheets, cache, rolls, round, |uids|);
    forall uid | uid in after ensures uid in cache {
      if uid in uids {
        var i :| 0 <= i < |uids| && uids[i] == uid;
        assert Lookup(after, uids[i]) == Lookup(cache, uids[i]);
      }
    }
  }

  /** With the sheets kept, running the round again changes nothing, whatever the dice. */
  lemma SecondRunIsIdle(
    uids: seq<string>, sheets: seq<Sheet>, cache: Cache, declared: bool, rolls: string -> int, rolls2: string -> int,
    round: int)
    requires |uids| == |sheets| && Distinct(uids)
    ensures var first := RoundOf(uids, sheets, cache, declared, rolls, round);
      RoundOf(uids, first.0, first.1, declared, rolls2, round) == first
  {
    hide OneSave, CacheAfter;
    if declared {
      var first := RoundOf(uids, sheets, cache, declared, rolls, round);
      var second := RoundOf(uids, first.0, first.1, declared, rolls2, round);
      forall i | 0 <= i < |sheets|
        ensures second.0[i] == first.0[i]
        ensures TurnOf(first.0[i], first.1, uids[i], rolls2, round).entry == Lookup(first.1, uids[i])
      {
        RoundAt(uids, sheets, cache, declared, rolls, round, i);
        RoundAt(uids, first.0, first.1, declared, rolls2, round, i);
        TurnTwice(sheets[i], Lookup(cache, uids[i]), rolls(uids[i]), rolls2(uids[i]), round);
      }
      assert second.0 == first.0;
      SameCache(uids, first.0, first.1, rolls2, round);
    }
  }

  /** Runs of the same round over sheets that anything may have changed in between. */
  function CacheAfterRuns(
    uids: seq<string>, runs: seq<seq<Sheet>>, cache: Cache, rolls: nat -> string -> int, round: int): Cache
    requires forall k :: 0 <= k < |runs| ==> |runs[k]| == |uids|
  {
    if runs == [] then cache
    else
      var k := |runs| - 1;
      RoundOf(uids, runs[k], CacheAfterRuns(uids, runs[..k], cache, rolls, round), true, rolls(k), round).1
  }

  /** A character's roll, once made, stands for the whole round: nothing replaces it. */
  lemma {:induction false} OneRollPerRound(
    uids: seq<string>, runs: seq<seq<Sheet>>, cache: Cache, rolls: nat -> string -> int, round: int, uid: string)
    requires (forall k :: 0 <= k < |runs| ==> |runs[k]| == |uids|) && Distinct(uids) && uid in cache
    ensures var after := CacheAfterRuns(uids, runs, cache, rolls, round); uid in after && after[uid] == cache[uid]
  {
    hide OneSave, CacheAfter;
    if runs != [] {
      var k := |runs| - 1;
      OneRollPerRound(uids, runs[..k], cache, rolls, round, uid);
      CacheAfterKeeps(uids, runs[k], CacheAfterRuns(uids, runs[..k], cache, rolls, round), rolls(k), round, |uids|);
    }
  }

  /** What a replay is meant to reproduce. */
  predicate SameCondition(a: Sheet, b: Sheet) {
    a.status == b.status && a.saves == b.saves && a.deceased == b.deceased && a.hp == b.hp
  }

  /** The character makes a save in this run. */
  predicate Saving(c: Sheet, cache: Cache, uid: string) { uid !in cache && !c.deceased && c.status == "downed" }

  lemma ReplayAfterFullRollback(c: Sheet, roll: int, round: int)
    requires c.status == "downed" && !c.deceased
    ensures SameCondition(Replayed(c, EntryFor(c, roll, round)), Rolled(c, roll, round))
      <==> roll >= 20 || c.saves.None?
  {
    assert |"stable"| == 6 && |"downed"| == 6 && "stable"[0] != "downed"[0];
  }

  /** With the sheets put back as they were and the cache kept, running the round again gives a character the same
      outcome if and only if the roll woke them or their sheet had no counters before: otherwise the cached counters
      are the changed ones, and the replay is refused. */
  lemma RestoredSheetsReplayIff(
    uids: seq<string>, sheets: seq<Sheet>, cache: Cache, rolls: string -> int, rolls2: string -> int, round: int,
    i: nat)
    requires i < |uids| == |sheets| && Distinct(uids) && Saving(sheets[i], cache, uids[i])
    ensures var first := RoundOf(uids, sheets, cache, true, rolls, round);
      SameCondition(RoundOf(uids, sheets, first.1, true, rolls2, round).0[i], first.0[i])
      <==> rolls(uids[i]) >= 20 || sheets[i].saves.None?
  {
    hide Rolled, EntryFor, Replayed, CacheAfter;
    var first := RoundOf(uids, sheets, cache, true, rolls, round);
    RoundAt(uids, sheets, cache, true, rolls, round, i);
    RoundAt(uids, sheets, first.1, true, rolls2, round, i);
    ReplayAfterFullRollback(sheets[i], rolls(uids[i]), round);
  }

  /** The player snapshot puts these fields of a sheet back, but not the counters. */
  function RolledBack(now: Sheet, earlier: Sheet): Sheet {
    now.(hp := earlier.hp, maxHp := earlier.maxHp, status := earlier.status, deceased := earlier.deceased,
         deathRound := earlier.deathRound)
  }

  lemma ReplayAfterSnapshot(c: Sheet, roll: int, round: int)
    requires c.status == "downed" && !c.deceased
    ensures var rolled := Rolled(c, roll, round);
      SameCondition(Replayed(RolledBack(rolled, c), EntryFor(c, roll, round)), rolled)
      <==> c.saves.None? || !(Thrown(c, roll).Wake? || Thrown(c, roll).Dead? || Thrown(c, roll).Stable?)
  {
    assert |"stable"| == 6 && |"downed"| == 6 && "stable"[0] != "downed"[0];
  }

  /** With the sheets rolled back by the player snapshot, the outcome is given again if and only if it left the
      character still making saves, or the sheet had no counters before.  A death, an awakening or a stabilisation
      that ended a count is lost, and the cache also keeps the character from rolling again. */
  lemma SnapshotReplayIff(
    uids: seq<string>, sheets: seq<Sheet>, cache: Cache, rolls: string -> int, rolls2: string -> int, round: int,
    back: seq<Sheet>, i: nat)
    requires i < |uids| == |sheets| == |back| && Distinct(uids) && Saving(sheets[i], cache, uids[i])
    requires back[i] == RolledBack(RoundOf(uids, sheets, cache, true, rolls, round).0[i], sheets[i])
    ensures var first := RoundOf(uids, sheets, cache, true, rolls, round);
      var event := Thrown(sheets[i], rolls(uids[i]));
      SameCondition(RoundOf(uids, back, first.1, true, rolls2, round).0[i], first.0[i])
      <==> sheets[i].saves.None? || !(event.Wake? || event.Dead? || event.Stable?)
  {
    hide Rolled, EntryFor, Replayed, CacheAfter, RolledBack;
    var first := RoundOf(uids, sheets, cache, true, rolls, round);
    RoundAt(uids, sheets, cache, true, rolls, round, i);
    RoundAt(uids, back, first.1, true, rolls2, round, i);
    ReplayAfterSnapshot(sheets[i], rolls(uids[i]), round);
  }

  // ---- examples ----

  /** An unconscious character with these counters. */
  function Dying(successes: int, failures: int): Sheet {
    Sheet(0, Some(9), "downed", Some(Saves(successes, failures)), false, None)
  }

  /** A first success; then the sheet is put back, and the replay is refused: the success is gone. */
  lemma RestoredSheetLosesSuccess()
    ensures var first := RoundOf(["p"], [Dying(0, 0)], map[], true, p => 12, 1);
      var second := RoundOf(["p"], [Dying(0, 0)], first.1, true, p => 12, 1);
      && first.0[0].saves == Some(Saves(1, 0)) && second.0[0].saves == Some(Saves(0, 0))
  {
    hide CacheAfter;
    var rolls: string -> int := p => 12;
    assert Distinct(["p"]);
    var first := RoundOf(["p"], [Dying(0, 0)], map[], true, rolls, 1);
    RoundAt(["p"], [Dying(0, 0)], map[], true, rolls, 1, 0);
    RoundAt(["p"], [Dying(0, 0)], first.1, true, rolls, 1, 0);
    assert |"stable"| == 6 && |"downed"| == 6 && "stable"[0] != "downed"[0];
  }

  /** A third failure kills; then the player snapshot is put back, and the replay is refused: the character is alive,
      dying, and without a save for the rest of the round. */
  lemma SnapshotUndoesDeath()
    ensures var first := RoundOf(["p"], [Dying(0, 2)], map[], true, p => 5, 1);
      var second := RoundOf(["p"], [RolledBack(first.0[0], Dying(0, 2))], first.1, true, p => 5, 1);
      && first.0[0].deceased
      && !second.0[0].deceased && second.0[0].status == "downed" && second.0[0].saves.None?
  {
    hide CacheAfter;
    var rolls: string -> int := p => 5;
    assert Distinct(["p"]);
    var first := RoundOf(["p"], [Dying(0, 2)], map[], true, rolls, 1);
    RoundAt(["p"], [Dying(0, 2)], map[], true, rolls, 1, 0);
    RoundAt(["p"], [RolledBack(first.0[0], Dying(0, 2))], first.1, true, rolls, 1, 0);
    assert |"stable"| == 6 && |"downed"| == 6 && "stable"[0] != "downed"[0];
  }

  // ---- several saves in a row ----

  /** A character's saves over several rounds, as long as they last. */
  function AfterRolls(c: Sheet, rolls: seq<int>, round: int): Sheet {
    if rolls == [] then c
    else
      var d := AfterRolls(c, rolls[..|rolls| - 1], round);
      if d.deceased || d.status != "downed" then d else Rolled(d, rolls[|rolls| - 1], round)
  }

  predicate StillSaving(c: Sheet) { c.status == "downed" && !c.deceased }

  function Successes(rolls: seq<int>): nat {
    if rolls == [] then 0
    else Successes(rolls[..|rolls| - 1]) + if 10 <= rolls[|rolls| - 1] then 1 else 0
  }

  /** A one counts twice. */
  function Failures(rolls: seq<int>): nat {
    if rolls == [] then 0
    else
      var r := rolls[|rolls| - 1];
      Failures(rolls[..|rolls| - 1]) + if r <= 1 then 2 else if r < 10 then 1 else 0
  }

  lemma TallyGrows(rolls: seq<int>)
    requires rolls != []
    ensures var rest := rolls[..|rolls| - 1];
      && Successes(rest) <= Successes(rolls) && Failures(rest) <= Failures(rolls)
      && ((forall i :: 0 <= i < |rolls| ==> rolls[i] < 20) <==>
            (forall i :: 0 <= i < |rest| ==> rest[i] < 20) && rolls[|rolls| - 1] < 20)
  {}

  /** What one roll does, whatever the counters stand at: a twenty wakes with one hit point, if the maximum allows one;
      a third failure kills before a third success stabilises; any other roll is only counted. */
  lemma RollDecides(c: Sheet, roll: int, round: int)
    ensures var d, before := Rolled(c, roll, round), if c.saves.Some? then c.saves.value else Saves(0, 0);
      var failures := before.failure + if roll <= 1 then 2 else if roll <= 9 then 1 else 0;
      var successes := before.success + if 10 <= roll <= 19 then 1 else 0;
      && (roll >= 20 ==>
            && d.hp == (if c.maxHp.Some? && c.maxHp.value < 1 then 0 else 1)
            && d.status == "" && d.saves == None && d.deceased == c.deceased)
      && (roll < 20 ==> d.hp == c.hp)
      && (roll < 20 && failures >= 3 ==>
            && d.deceased && d.status == "" && d.saves == None && (!c.deceased ==> d.deathRound == Some(round)))
      && (roll < 20 && failures < 3 && successes >= 3 ==>
            d.status == "stable" && d.saves == None && d.deceased == c.deceased)
      && (roll < 20 && failures < 3 && successes < 3 ==>
            d.status == c.status && d.saves == Some(Saves(successes, failures)) && d.deceased == c.deceased)
  {}

  /** How a run of saves stands: the counters are the tally of the rolls, nobody goes on saving past a twenty, a third
      success or a third failure, and whoever stopped saving woke, stabilised or died by exactly that. */
  lemma {:induction false} SavesTally(c: Sheet, rolls: seq<int>, round: int)
    requires StillSaving(c) && c.saves == Some(FRESH_SAVES)
    ensures var d := AfterRolls(c, rolls, round);
      && (StillSaving(d) <==>
            Successes(rolls) < 3 && Failures(rolls) < 3 && forall i :: 0 <= i < |rolls| ==> rolls[i] < 20)
      && (StillSaving(d) ==> d.saves == Some(Saves(Successes(rolls), Failures(rolls))) && d.hp == c.hp)
      && (!StillSaving(d) ==>
            && d.saves.None?
            && (d.deceased || d.status == "stable"
                || (d.status == "" && d.hp == if c.maxHp.Some? && c.maxHp.value < 1 then 0 else 1)))
      && (StillSaving(d) ==> d.maxHp == c.maxHp)
      && (d.deceased ==> Failures(rolls) >= 3)
      && (d.status == "stable" ==> Successes(rolls) >= 3)
  {
    assert |"stable"| == 6 && |"downed"| == 6 && "stable"[0] != "downed"[0] && |""| == 0;
    if rolls != [] {
      SavesTally(c, rolls[..|rolls| - 1], round);
      TallyGrows(rolls);
    }
  }

  lemma {:induction false} EveryRollCounts(rolls: seq<int>)
    ensures Successes(rolls) + Failures(rolls) >= |rolls|
  {
    if rolls != [] { EveryRollCounts(rolls[..|rolls| - 1]); }
  }

  /** Five rolls always decide. */
  lemma FiveRollsDecide(c: Sheet, rolls: seq<int>, round: int)
    requires StillSaving(c) && c.saves == Some(FRESH_SAVES) && |rolls| >= 5
    ensures !StillSaving(AfterRolls(c, rolls, round))
  {
    hide AfterRolls;
    SavesTally(c, rolls, round);
    EveryRollCounts(rolls);
  }
}
