/** Hit points, unconsciousness and death on a character sheet. */
module Characters {
  import opened Values

  datatype Saves = Saves(success: int, failure: int)

  /** The part of a sheet that fights change.  No status is the empty string. */
  datatype Sheet = Sheet(
    hp: int, maxHp: Option<int>, status: string, saves: Option<Saves>, deceased: bool, deathRound: Option<int>)

  const FRESH_SAVES := Saves(0, 0)

  function Max(a: int, b: int): int { if a < b then b else a }

  function Min(a: int, b: int): int { if a < b then a else b }

  predicate Unconscious(c: Sheet) { c.status == "downed" || c.status == "stable" }

  /** Alive and conscious. */
  predicate Able(c: Sheet) { !c.deceased && !Unconscious(c) }

  function WithHp(c: Sheet, hp: int, maxHp: int): Sheet {
    c.(hp := Max(0, Min(Max(0, maxHp), hp)), maxHp := Some(Max(0, maxHp)))
  }

  function MarkedDead(c: Sheet, round: int): Sheet {
    if c.deceased then c else c.(deceased := true, deathRound := Some(round))
  }

  /** What the rules with death saves do to a character at zero hit points. */
  function Downed(c: Sheet): Sheet {
    if c.hp > 0 || c.deceased || Unconscious(c) then c else c.(status := "downed", saves := Some(FRESH_SAVES))
  }

  /** A blow against someone unconscious counts as failed saves; the third kills. */
  function WithFailures(c: Sheet, count: int, round: int): Sheet {
    if !Unconscious(c) || count <= 0 then c
    else
      var was := if c.status == "stable" || c.saves.None? then FRESH_SAVES else c.saves.value;
      var now := was.(failure := was.failure + count);
      if now.failure >= 3 then MarkedDead(c.(status := "", saves := None), round)
      else c.(status := "downed", saves := Some(now))
  }

  // ---- several blows in a row ----

  function AfterBlows(c: Sheet, counts: seq<int>, round: int): Sheet {
    if counts == [] then c else WithFailures(AfterBlows(c, counts[..|counts| - 1], round), counts[|counts| - 1], round)
  }

  function Total(counts: seq<int>): int {
    if counts == [] then 0 else Total(counts[..|counts| - 1]) + counts[|counts| - 1]
  }

  /** Failed saves that still count: being stable has wiped them out. */
  function Failed(c: Sheet): int { if c.status == "stable" || c.saves.None? then 0 else c.saves.value.failure }

  /** Blows against somebody unconscious kill exactly when the failures they count for reach three, and until then leave
      the victim downed with those failures and everything else as it was. */
  lemma {:induction false} BlowsKillAtThreeFailures(c: Sheet, counts: seq<int>, round: int)
    requires Unconscious(c) && !c.deceased && 0 <= Failed(c) < 3 && counts != []
    requires forall i :: 0 <= i < |counts| ==> counts[i] > 0
    ensures var d := AfterBlows(c, counts, round);
      if Failed(c) + Total(counts) >= 3
      then d.deceased && d.status == "" && d.saves.None? && d.deathRound == Some(round)
      else
        && d.status == "downed" && d.saves.Some? && d.saves.value.failure == Failed(c) + Total(counts)
        && d == c.(status := "downed", saves := d.saves)
  {
    assert |"stable"| == 6 && |"downed"| == 6 && "stable"[0] != "downed"[0] && |""| == 0;
    var before := counts[..|counts| - 1];
    if before != [] {
      BlowsKillAtThreeFailures(c, before, round);
    } else {
      assert AfterBlows(c, before, round) == c && Total(before) == 0;
    }
  }
}
