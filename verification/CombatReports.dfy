/** What a round's combat reports say about hit points, and which of them are recorded. */
module CombatReports {
  import opened Values
  import opened Characters
  import opened Combat

  // ---- one blow ----

  predicate Damages(check: Check, amount: nat, rules: Rules) { !rules.narrative && check.succeeded && amount > 0 }

  /** The most hit points the sheet may hold after a blow. */
  function Cap(c: Sheet): int { Max(0, if c.maxHp.Some? then c.maxHp.value else c.hp) }

  /** Nobody has more hit points than their maximum allows. */
  predicate Bounded(c: Sheet) { c.hp <= Cap(c) || c.hp <= 0 }

  /** A blow on somebody without hit points is reported in full, although nothing is left to lose. */
  function Overstated(c: Sheet, check: Check, amount: nat, rules: Rules): nat {
    if Damages(check, amount, rules) && c.hp <= 0 then amount - c.hp else 0
  }

  /** A blow on a sheet above its maximum also takes what is above, and does not report it. */
  function Trimmed(c: Sheet, check: Check, amount: nat, rules: Rules): nat {
    if Damages(check, amount, rules) && c.hp > 0 then Max(0, Max(0, c.hp - amount) - Cap(c)) else 0
  }

  /** What one blow takes: nothing unless it does damage, else the amount down to zero, within what the sheet may hold.
      The report names the two, their check, the hit points before and after, and what was there to lose. */
  lemma BlowTakes(c: Sheet, isPlayer: bool, check: Check, amount: nat, rules: Rules)
    ensures var (hurt, o) := Struck(c, isPlayer, check, amount, rules);
      && o.attacker == check.actor && o.target == check.opponent
      && o.checkId == check.id && o.critical == check.critical && o.hpBefore == c.hp
      && (!Damages(check, amount, rules) ==> hurt.hp == o.hpAfter == c.hp && o.damage == 0)
      && (Damages(check, amount, rules) ==>
            && o.hpAfter == (if amount < c.hp then c.hp - amount else 0)
            && hurt.hp == (if c.maxHp.Some? then Min(o.hpAfter, Max(0, c.maxHp.value)) else o.hpAfter)
            && o.damage == (if 0 < c.hp <= amount then c.hp else amount))
  {}

  /** One blow, on any sheet: the report is the loss, plus what it overstates, less what it trims. */
  lemma BlowAccount(c: Sheet, isPlayer: bool, check: Check, amount: nat, rules: Rules)
    ensures var (hurt, o) := Struck(c, isPlayer, check, amount, rules);
      && o.damage == c.hp - hurt.hp + Overstated(c, check, amount, rules) - Trimmed(c, check, amount, rules)
      && o.hpBefore == c.hp
      && (o.hpAfter == c.hp - o.damage <==> Overstated(c, check, amount, rules) == 0)
      && (Bounded(c) ==> Bounded(hurt) && Trimmed(c, check, amount, rules) == 0)
  {}

  /** The report of a blow is the loss of hit points exactly if the blow does no damage, or it lands on somebody who has
      hit points left and not more of them than the maximum allows after it. */
  lemma BlowIsReportedIff(c: Sheet, isPlayer: bool, check: Check, amount: nat, rules: Rules)
    ensures var (hurt, o) := Struck(c, isPlayer, check, amount, rules);
      c.hp - hurt.hp == o.damage
      <==> !Damages(check, amount, rules)
           || (c.hp > 0 && (c.maxHp.Some? ==> c.hp - amount <= Max(0, c.maxHp.value)))
  {}

  // ---- one action ----

  /** The check under which the action strikes the target for the first time now. */
  function AttackOn(s: State, i: nat, ref: string): (r: Option<Check>)
    requires i < |s.queue|
    ensures r.Some? ==> IsTarget(s, ref)
  {
    var facing := Facing(s, s.queue[i]);
    if s.queue[i].cache.NoCache? && facing.Some? && facing.value.opponent == ref then facing else None
  }

  lemma OtherSheets(s: State, ref: string, c: Sheet, other: string)
    requires IsTarget(s, ref) && IsTarget(s, other)
    ensures IsTarget(WithSheet(s, ref, c), other)
    ensures SheetOf(WithSheet(s, ref, c), other) == if other == ref then c else SheetOf(s, other)
  {
    if NamesNpc(s, ref) && NamesNpc(s, other) && ref[4..] == other[4..] {
      assert ref == ref[..4] + ref[4..] && other == other[..4] + other[4..];
    }
  }

  lemma SettleAccount(s: State, i: nat, rules: Rules, amount: nat, ref: string)
    requires i < |s.queue| && IsTarget(s, ref)
    ensures var r, hit := Settle(s, i, rules, amount), AttackOn(s, i, ref);
      && IsTarget(r.state, ref)
      && (hit.Some? <==> s.queue[i].cache.NoCache? && r.told.Some? && r.told.value.target == ref)
      && (hit.None? ==> SheetOf(r.state, ref) == SheetOf(s, ref))
      && (hit.Some? ==>
            var c, o := SheetOf(s, ref), r.told.value;
            && o.damage == c.hp - SheetOf(r.state, ref).hp
                 + Overstated(c, hit.value, amount, rules) - Trimmed(c, hit.value, amount, rules)
            && o.hpBefore == c.hp
            && (o.hpAfter == c.hp - o.damage <==> Overstated(c, hit.value, amount, rules) == 0)
            && (Bounded(c) ==> Bounded(SheetOf(r.state, ref)) && Trimmed(c, hit.value, amount, rules) == 0))
  {
    hide AuthoritativeCheck, Struck, Able, Bounded, Facing, RecordOnce, Overstated, Trimmed;
    var a, facing := s.queue[i], Facing(s, s.queue[i]);
    FacingNeedsActor(s, a);
    if facing.Some? && a.cache.NoCache? {
      var check := facing.value;
      var target := SheetOf(s, check.opponent);
      BlowAccount(target, check.opponent in s.players, check, amount, rules);
      StruckNames(s, a, amount, rules);
      OtherSheets(s, check.opponent, Struck(target, check.opponent in s.players, check, amount, rules).0, ref);
    }
  }

  // ---- a pass ----

  /** What a pass has overstated and trimmed on a target. */
  datatype Account = Account(overstated: nat, trimmed: nat)

  /** Reckoned from the target's sheet before each attack. */
  function AccountOf(s: State, n: nat, rules: Rules, amounts: nat -> nat, ref: string): Account
    requires n <= |s.queue|
  {
    if n == 0 then Account(0, 0)
    else
      var sum, b := AccountOf(s, n - 1, rules, amounts, ref), Pass(s, n - 1, rules, amounts).state;
      var hit := AttackOn(b, n - 1, ref);
      if hit.None? then sum
      else
        Account(sum.overstated + Overstated(SheetOf(b, ref), hit.value, amounts(n - 1), rules),
                sum.trimmed + Trimmed(SheetOf(b, ref), hit.value, amounts(n - 1), rules))
  }

  /** The i-th action does damage to a target that has no hit points left. */
  predicate StrikesFallen(s: State, i: nat, rules: Rules, amounts: nat -> nat, ref: string)
    requires i < |s.queue|
  {
    var b := Pass(s, i, rules, amounts).state;
    var hit := AttackOn(b, i, ref);
    hit.Some? && Damages(hit.value, amounts(i), rules) && SheetOf(b, ref).hp <= 0
  }

  /** The damage reported on a target by the attacks settled in this pass. */
  function Reported(s: State, told: seq<Option<Outcome>>, ref: string): int
    requires |told| <= |s.queue|
  {
    if told == [] then 0
    else
      var k := |told| - 1;
      var counts := s.queue[k].cache.NoCache? && told[k].Some? && told[k].value.target == ref;
      Reported(s, told[..k], ref) + if counts then told[k].value.damage else 0
  }

  lemma ReportedGrows(s: State, told: seq<Option<Outcome>>, last: Option<Outcome>, ref: string)
    requires |told| < |s.queue|
    ensures Reported(s, told + [last], ref) == Reported(s, told, ref)
      + (if s.queue[|told|].cache.NoCache? && last.Some? && last.value.target == ref then last.value.damage else 0)
  {
    assert (told + [last])[..|told|] == told;
  }

  lemma NothingReported(s: State, ref: string)
    ensures Reported(s, [], ref) == 0
  {}

  /** What one more action adds to the reports on a target. */
  lemma SettleReports(
    s: State, told: seq<Option<Outcome>>, b: State, i: nat, rules: Rules, amount: nat, ref: string)
    requires |told| == i < |s.queue| == |b.queue| && b.queue[i] == s.queue[i] && IsTarget(b, ref)
    ensures var r, hit, c := Settle(b, i, rules, amount), AttackOn(b, i, ref), SheetOf(b, ref);
      && IsTarget(r.state, ref)
      && Reported(s, told + [r.told], ref) == Reported(s, told, ref) + c.hp - SheetOf(r.state, ref).hp
         + (if hit.Some? then Overstated(c, hit.value, amount, rules) - Trimmed(c, hit.value, amount, rules) else 0)
      && (Bounded(c) ==> Bounded(SheetOf(r.state, ref)))
      && (Bounded(c) && hit.Some? ==> Trimmed(c, hit.value, amount, rules) == 0)
  {
    hide Settle, SheetOf, IsTarget, Reported, Bounded, Overstated, Trimmed, AttackOn;
    SettleAccount(b, i, rules, amount, ref);
    ReportedGrows(s, told, Settle(b, i, rules, amount).told, ref);
  }

  /** After any part of a round, for any target: its reports are its loss of hit points, plus what they overstate, less
      what they trim. */
  lemma {:induction false} PassAccount(s: State, n: nat, rules: Rules, amounts: nat -> nat, ref: string)
    requires n <= |s.queue| && IsTarget(s, ref)
    ensures var r, account := Pass(s, n, rules, amounts), AccountOf(s, n, rules, amounts, ref);
      && IsTarget(r.state, ref)
      && Reported(s, r.told, ref)
         == SheetOf(s, ref).hp - SheetOf(r.state, ref).hp + account.overstated - account.trimmed
      && (Bounded(SheetOf(s, ref)) ==> Bounded(SheetOf(r.state, ref)) && account.trimmed == 0)
  {
    hide Settle, SheetOf, IsTarget, Follows, Inert, Reported, Bounded, Overstated, Trimmed, AttackOn;
    if n > 0 {
      PassAccount(s, n - 1, rules, amounts, ref);
      PassMakesInert(s, n - 1, rules, amounts);
      var before := Pass(s, n - 1, rules, amounts);
      SettleReports(s, before.told, before.state, n - 1, rules, amounts(n - 1), ref);
    } else {
      NothingReported(s, ref);
    }
  }

  /** What a round's reports on a target add up to is its loss of hit points exactly if they overstate as much as they
      trim. */
  lemma ReportsAddUpIff(s: State, rules: Rules, amounts: nat -> nat, ref: string)
    requires IsTarget(s, ref)
    ensures var r, account := Resolved(s, rules, amounts), AccountOf(s, |s.queue|, rules, amounts, ref);
      && IsTarget(r.state, ref)
      && (Reported(s, r.told, ref) == SheetOf(s, ref).hp - SheetOf(r.state, ref).hp
          <==> account.overstated == account.trimmed)
  {
    hide Pass, Reported, AccountOf;
    PassAccount(s, |s.queue|, rules, amounts, ref);
  }

  lemma EmptyAccount(s: State, rules: Rules, amounts: nat -> nat, ref: string)
    ensures AccountOf(s, 0, rules, amounts, ref) == Account(0, 0)
  {}

  lemma OverstatedStep(s: State, n: nat, rules: Rules, amounts: nat -> nat, ref: string)
    requires n < |s.queue|
    ensures AccountOf(s, n + 1, rules, amounts, ref).overstated == 0
      <==> AccountOf(s, n, rules, amounts, ref).overstated == 0 && !StrikesFallen(s, n, rules, amounts, ref)
  {
    hide Pass, AttackOn, SheetOf;
  }

  lemma {:induction false} OverstatedIff(s: State, n: nat, rules: Rules, amounts: nat -> nat, ref: string)
    requires n <= |s.queue|
    ensures AccountOf(s, n, rules, amounts, ref).overstated == 0
      <==> forall i :: 0 <= i < n ==> !StrikesFallen(s, i, rules, amounts, ref)
  {
    hide Pass, StrikesFallen, AccountOf;
    if n > 0 {
      OverstatedIff(s, n - 1, rules, amounts, ref);
      OverstatedStep(s, n - 1, rules, amounts, ref);
    } else {
      EmptyAccount(s, rules, amounts, ref);
    }
  }

  /** For a target that starts with no more hit points than its maximum, that is: exactly if no action of the round does
      damage to it when it has none left. */
  lemma BoundedReportsAddUpIff(s: State, rules: Rules, amounts: nat -> nat, ref: string)
    requires IsTarget(s, ref) && Bounded(SheetOf(s, ref))
    ensures var r := Resolved(s, rules, amounts);
      && IsTarget(r.state, ref)
      && (Reported(s, r.told, ref) == SheetOf(s, ref).hp - SheetOf(r.state, ref).hp
          <==> forall i :: 0 <= i < |s.queue| ==> !StrikesFallen(s, i, rules, amounts, ref))
  {
    hide Pass, Reported, AccountOf, StrikesFallen, Bounded, SheetOf;
    PassAccount(s, |s.queue|, rules, amounts, ref);
    OverstatedIff(s, |s.queue|, rules, amounts, ref);
  }

  /** A target that no action strikes keeps its sheet. */
  lemma {:induction false} SparedTargetsKeepSheets(s: State, n: nat, rules: Rules, amounts: nat -> nat, ref: string)
    requires n <= |s.queue| && IsTarget(s, ref)
    requires forall i :: 0 <= i < n ==> AttackOn(Pass(s, i, rules, amounts).state, i, ref).None?
    ensures var r := Pass(s, n, rules, amounts);
      IsTarget(r.state, ref) && SheetOf(r.state, ref) == SheetOf(s, ref)
  {
    hide Settle, SheetOf, IsTarget, AttackOn;
    if n > 0 {
      SparedTargetsKeepSheets(s, n - 1, rules, amounts, ref);
      SettleAccount(Pass(s, n - 1, rules, amounts).state, n - 1, rules, amounts(n - 1), ref);
    }
  }

  lemma {:induction false} PassPrefix(s: State, n: nat, k: nat, rules: Rules, amounts: nat -> nat)
    requires k < n <= |s.queue|
    ensures var told := Pass(s, n, rules, amounts).told;
      && told[..k] == Pass(s, k, rules, amounts).told
      && told[k] == Settle(Pass(s, k, rules, amounts).state, k, rules, amounts(k)).told
    decreases n - k
  {
    hide Settle;
    if k < n - 1 {
      PassPrefix(s, n - 1, k, rules, amounts);
      var before, now := Pass(s, n - 1, rules, amounts).told, Pass(s, n, rules, amounts).told;
      assert now[..k] == before[..k];
    } else {
      var before, now := Pass(s, k, rules, amounts).told, Pass(s, n, rules, amounts).told;
      assert now[..k] == before;
    }
  }

  /** Every report starts from the hit points that the earlier ones on its target have left, and ends lower by what it
      reports unless it strikes somebody who has none. */
  lemma ReportsFormAChain(s: State, rules: Rules, amounts: nat -> nat, k: nat, ref: string)
    requires k < |s.queue| && IsTarget(s, ref)
    requires AttackOn(Pass(s, k, rules, amounts).state, k, ref).Some?
    ensures var told, account := Resolved(s, rules, amounts).told, AccountOf(s, k, rules, amounts, ref);
      && told[k].Some? && told[k].value.target == ref
      && (var o := told[k].value;
          && o.hpBefore == SheetOf(s, ref).hp - Reported(s, told[..k], ref) + account.overstated - account.trimmed
          && (o.hpAfter == o.hpBefore - o.damage <==> !StrikesFallen(s, k, rules, amounts, ref)))
  {
    hide Settle, Inert, Reported, Struck, AttackOn, SheetOf, IsTarget, AccountOf, Bounded;
    PassPrefix(s, |s.queue|, k, rules, amounts);
    PassAccount(s, k, rules, amounts, ref);
    SettleAccount(Pass(s, k, rules, amounts).state, k, rules, amounts(k), ref);
  }

  // ---- what is recorded ----

  /** Each action of the queue asks for a check of its own, none of them recorded yet. */
  predicate FreshRequests(s: State) {
    && (forall i, j :: 0 <= i < j < |s.queue| && s.queue[i].request.Some? && s.queue[j].request.Some? ==>
          s.queue[i].request.value.id != s.queue[j].request.value.id)
    && (forall i :: 0 <= i < |s.queue| && s.queue[i].request.Some? ==>
          !Records(s.records, s.queue[i].request.value.id))
  }

  predicate ToldByRequest(s: State, told: Option<Outcome>, i: nat)
    requires i < |s.queue|
  {
    told.Some? ==> s.queue[i].request.Some? && s.queue[i].request.value.id == told.value.checkId
  }

  lemma ToldAnswersRequest(s: State, i: nat, rules: Rules, amount: nat)
    requires i < |s.queue|
    ensures var r := Settle(s, i, rules, amount);
      ToldByRequest(s, r.told, i) && r.state.records == RecordOnce(s.records, r.told)
  {
    hide Struck, Able;
    FacingNeedsActor(s, s.queue[i]);
    StruckNames(s, s.queue[i], amount, rules);
  }

  lemma NothingTold<T>()
    ensures Somes<T>([]) == []
  {}

  lemma SameRequest(s: State, t: State, i: nat, told: Option<Outcome>)
    requires i < |s.queue| && |t.queue| == |s.queue| && t.queue[i] == s.queue[i] && ToldByRequest(t, told, i)
    ensures ToldByRequest(s, told, i)
  {}

  lemma {:induction false} SomesCome<T>(xs: seq<Option<T>>, x: T)
    requires x in Somes(xs)
    ensures Some(x) in xs
  {
    var k := |xs| - 1;
    if xs[k] != Some(x) { SomesCome(xs[..k], x); }
  }

  lemma NotYetRecorded(s: State, told: seq<Option<Outcome>>, n: nat)
    requires |told| == n < |s.queue| && FreshRequests(s) && s.queue[n].request.Some?
    requires forall i :: 0 <= i < n ==> ToldByRequest(s, told[i], i)
    ensures !Records(s.records + Somes(told), s.queue[n].request.value.id)
  {
    var id := s.queue[n].request.value.id;
    assert !Records(s.records, id);
    forall r | r in Somes(told) ensures r.checkId != id {
      SomesCome(told, r);
      var i :| 0 <= i < n && told[i] == Some(r);
      assert ToldByRequest(s, told[i], i);
    }
  }

  lemma SomesSnoc<T>(xs: seq<Option<T>>, x: Option<T>)
    ensures Somes(xs + [x]) == if x.Some? then Somes(xs) + [x.value] else Somes(xs)
  {
    assert (xs + [x])[..|xs|] == xs;
  }

  lemma ToldNames(s: State, told: Option<Outcome>, i: nat)
    requires i < |s.queue| && ToldByRequest(s, told, i) && told.Some?
    ensures s.queue[i].request.Some? && told.value.checkId == s.queue[i].request.value.id
  {}

  lemma NextIsRecorded(s: State, told: seq<Option<Outcome>>, next: Option<Outcome>)
    requires |told| < |s.queue| && FreshRequests(s)
    requires forall i :: 0 <= i < |told| ==> ToldByRequest(s, told[i], i)
    requires ToldByRequest(s, next, |told|)
    ensures RecordOnce(s.records + Somes(told), next) == s.records + Somes(told + [next])
  {
    hide Records, FreshRequests, Somes, ToldByRequest;
    SomesSnoc(told, next);
    if next.Some? {
      ToldNames(s, next, |told|);
      NotYetRecorded(s, told, |told|);
      assert s.records + Somes(told) + [next.value] == s.records + (Somes(told) + [next.value]);
    }
  }

  /** With a check of its own for each action, the round's records are exactly what was told, in order: nothing is
      recorded twice and nothing is dropped. */
  lemma {:induction false} EverythingToldIsRecorded(s: State, n: nat, rules: Rules, amounts: nat -> nat)
    requires n <= |s.queue| && FreshRequests(s)
    ensures var r := Pass(s, n, rules, amounts);
      && r.state.records == s.records + Somes(r.told)
      && forall i :: 0 <= i < n ==> ToldByRequest(s, r.told[i], i)
  {
    hide Settle, Follows, Inert, Records, FreshRequests, RecordOnce, Somes, ToldByRequest;
    if n > 0 {
      EverythingToldIsRecorded(s, n - 1, rules, amounts);
      PassMakesInert(s, n - 1, rules, amounts);
      var before := Pass(s, n - 1, rules, amounts);
      var now := Settle(before.state, n - 1, rules, amounts(n - 1));
      ToldAnswersRequest(before.state, n - 1, rules, amounts(n - 1));
      SameRequest(s, before.state, n - 1, now.told);
      NextIsRecorded(s, before.told, now.told);
    } else {
      NothingTold<Outcome>();
    }
  }

  lemma MissesSpareHp(c: Sheet, isPlayer: bool, check: Check, amount: nat, rules: Rules)
    ensures Struck(c, isPlayer, check, amount, rules).0.hp != c.hp ==> check.succeeded && !rules.narrative
  {}

  /** Hit points change only under the one check that answers an able attacker's action, and only if it succeeded. */
  lemma OnlySuccessHurts(s: State, i: nat, rules: Rules, amount: nat, ref: string)
    requires i < |s.queue| && IsTarget(s, ref)
    ensures var r := Settle(s, i, rules, amount);
      && IsTarget(r.state, ref)
      && (SheetOf(r.state, ref).hp != SheetOf(s, ref).hp ==>
            && r.told.Some? && r.told.value.target == ref && CanAct(s, s.queue[i].actor)
            && AttackRequest(s.queue[i])
            && !rules.narrative
            && (exists k | 0 <= k < |s.checks| :: SoleAnswer(s.checks, s.queue[i].request.value, k)
                  && s.checks[k].opponent == ref && s.checks[k].succeeded))
  {
    hide Struck, Able;
    var a, facing := s.queue[i], Facing(s, s.queue[i]);
    FacingNeedsActor(s, a);
    if facing.Some? && a.cache.NoCache? {
      var check := facing.value;
      var target := SheetOf(s, check.opponent);
      MissesSpareHp(target, check.opponent in s.players, check, amount, rules);
      OtherSheets(s, check.opponent, Struck(target, check.opponent in s.players, check, amount, rules).0, ref);
      StruckNames(s, a, amount, rules);
    }
  }

  // ---- the round audit ----

  function RecordedOn(records: seq<Outcome>, ref: string): int {
    if records == [] then 0
    else
      var last := records[|records| - 1];
      RecordedOn(records[..|records| - 1], ref) + if last.target == ref then last.damage else 0
  }

  lemma RecordedSnoc(records: seq<Outcome>, o: Outcome, ref: string)
    ensures RecordedOn(records + [o], ref) == RecordedOn(records, ref) + if o.target == ref then o.damage else 0
  {
    assert (records + [o])[..|records|] == records;
  }

  lemma NothingRecorded(ref: string)
    ensures RecordedOn([], ref) == 0
  {}

  lemma {:induction false} RecordedIsReported(s: State, told: seq<Option<Outcome>>, ref: string)
    requires |told| <= |s.queue| && forall i :: 0 <= i < |told| ==> s.queue[i].cache.NoCache?
    ensures RecordedOn(Somes(told), ref) == Reported(s, told, ref)
  {
    hide RecordedOn;
    if told != [] {
      var k := |told| - 1;
      RecordedIsReported(s, told[..k], ref);
      if told[k].Some? {
        RecordedSnoc(Somes(told[..k]), told[k].value, ref);
      } else {
        assert Somes(told) == Somes(told[..k]);
      }
    } else {
      NothingRecorded(ref);
    }
  }

  /** The audit of a fresh round: its records follow the earlier ones, and for every target they add up to the hit
      points it lost exactly if the blows on it overstate as much as they trim. */
  lemma RoundAudit(s: State, rules: Rules, amounts: nat -> nat, ref: string)
    requires FreshRequests(s) && IsTarget(s, ref)
    requires forall i :: 0 <= i < |s.queue| ==> s.queue[i].cache.NoCache?
    ensures var r, account := Resolved(s, rules, amounts), AccountOf(s, |s.queue|, rules, amounts, ref);
      && IsTarget(r.state, ref) && s.records <= r.state.records
      && (RecordedOn(r.state.records[|s.records|..], ref) == SheetOf(s, ref).hp - SheetOf(r.state, ref).hp
          <==> account.overstated == account.trimmed)
  {
    hide Pass, Reported, AccountOf, RecordedOn, FreshRequests, SheetOf, IsTarget;
    var r := Resolved(s, rules, amounts);
    EverythingToldIsRecorded(s, |s.queue|, rules, amounts);
    ReportsAddUpIff(s, rules, amounts, ref);
    RecordedIsReported(s, r.told, ref);
    assert r.state.records[|s.records|..] == Somes(r.told);
  }

  // ---- examples ----

  /** A creature that may hold four hit points. */
  function Creature(hp: int): Sheet { Sheet(hp, Some(4), "", None, false, None) }

  /** A blow of three on it. */
  function Kick(hp: int): State {
    State(map["a" := Sheet(5, Some(5), "", None, false, None)], map["g" := Creature(hp)],
          [Action("a", Some(Request("1", "a", "attack", "npc:g")), NoCache)],
          [Check("1", "a", "attack", "npc:g", true, false)], [])
  }

  lemma KickFaces(hp: int)
    ensures IsTarget(Kick(hp), "npc:g") && SheetOf(Kick(hp), "npc:g") == Creature(hp)
    ensures Facing(Kick(hp), Kick(hp).queue[0]) == Some(Kick(hp).checks[0])
  {
    hide AuthoritativeCheck;
    var s, a := Kick(hp), Kick(hp).queue[0];
    assert "npc:g"[4..] == "g" && "npc:g"[..4] == "npc:" && |"npc:g"| == 5;
    assert SoleAnswer(s.checks, a.request.value, 0);
    assert AuthoritativeCheck(s.checks, a) == Some(s.checks[0]);
  }

  /** What the creature has left. */
  function Left(hp: int): int { if hp > 7 then 4 else Max(0, hp - 3) }

  lemma KickLeaves(hp: int, rules: Rules)
    requires rules == Rules(false, false, 1)
    ensures var t := Settle(Kick(hp), 0, rules, 3).state; IsTarget(t, "npc:g") && SheetOf(t, "npc:g").hp == Left(hp)
  {
    hide Facing, RecordOnce;
    KickFaces(hp);
  }

  /** The round's report on the creature: three, or what is left to lose. */
  lemma KickReports(hp: int)
    ensures var rules := Rules(false, false, 1);
      var r := Resolved(Kick(hp), rules, i => 3);
      && IsTarget(Kick(hp), "npc:g") && IsTarget(r.state, "npc:g")
      && SheetOf(Kick(hp), "npc:g").hp == hp && SheetOf(r.state, "npc:g").hp == Left(hp)
      && Reported(Kick(hp), r.told, "npc:g") == if 0 < hp < 3 then hp else 3
  {
    hide Settle, Facing, SheetOf, IsTarget, Reported;
    var s, rules, amounts: nat -> nat := Kick(hp), Rules(false, false, 1), i => 3;
    KickFaces(hp);
    assert AttackOn(s, 0, "npc:g") == Some(s.checks[0]);
    SettleAccount(s, 0, rules, 3, "npc:g");
    KickLeaves(hp, rules);
    var r := Settle(s, 0, rules, 3);
    assert Pass(s, 0, rules, amounts) == Round(s, []);
    assert Pass(s, 1, rules, amounts) == Round(r.state, [r.told]);
    ReportedGrows(s, [], r.told, "npc:g");
    NothingReported(s, "npc:g");
    assert [] + [r.told] == [r.told];
  }

  /** A creature that has no hit points left: the blow is reported as three, and nothing is lost. */
  lemma FallenReportDoesNotAddUp()
    ensures var rules := Rules(false, false, 1);
      var r := Resolved(Kick(0), rules, i => 3);
      && IsTarget(Kick(0), "npc:g") && IsTarget(r.state, "npc:g")
      && SheetOf(Kick(0), "npc:g").hp == SheetOf(r.state, "npc:g").hp == 0
      && Reported(Kick(0), r.told, "npc:g") == 3
  {
    hide Resolved, SheetOf, IsTarget, Reported;
    KickReports(0);
  }

  /** A creature with twenty of its four hit points: the blow is reported as three, and sixteen are lost. */
  lemma TrimmedReportDoesNotAddUp()
    ensures var rules := Rules(false, false, 1);
      var r := Resolved(Kick(20), rules, i => 3);
      && IsTarget(Kick(20), "npc:g") && IsTarget(r.state, "npc:g")
      && SheetOf(Kick(20), "npc:g").hp == 20 && SheetOf(r.state, "npc:g").hp == 4
      && Reported(Kick(20), r.told, "npc:g") == 3
  {
    hide Resolved, SheetOf, IsTarget, Reported;
    KickReports(20);
  }
}
