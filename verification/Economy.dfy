/** Turning a model's purchase quotes into offers, and never into free goods.

    An action is taken after its text has been read: who the payer is, what the item is, what the amounts parse to.
    From there on the checks, their order and their early exits are the planner's. */
module Economy {
  import opened Values

  const MAX_AMOUNT := 10_000_000
  const MAX_ACTIONS := 8
  const MAX_QUANTITY := 8

  /** An amount field: not given, given but not an amount of the currency, or an amount in base units. */
  datatype Money = Absent | Bad | Amount(n: int)

  /** A quantity field: not given, not a number, infinite, or a number; zero counts as one. */
  datatype Quantity = One | NoNumber | Endless | Number(n: int)

  /** `payer` and `target` are empty when none was recognised.  `trusted`: the evidence occurs in a text the server
      owns.  `unit` is the unit given or, failing that, inferred; empty if neither. */
  datatype Purchase = Purchase(
    kind: string, payer: string, target: string, quantity: Quantity, priceSource: string, amount: Money, scope: string,
    evidence: string, trusted: bool, unit: string, deposit: Money, maxTotal: Money)

  datatype Raw = NotARecord | Record(purchase: Purchase)

  datatype Intent = Intent(payer: string, target: string, quantity: int)

  datatype Offer = Offer(
    payer: string, target: string, quantity: int, amount: int, maxTotal: Option<int>, initialDue: Option<int>,
    remainingDue: Option<int>)

  /** What two mentions of the same purchase have in common. */
  type PurchaseKey = (string, string, int)

  type Fold = string -> string

  function IntentKey(i: Intent, fold: Fold): PurchaseKey { (i.payer, fold(i.target), i.quantity) }

  function OfferKey(o: Offer, fold: Fold): PurchaseKey { (o.payer, fold(o.target), o.quantity) }

  ghost function IntentKeys(s: seq<Intent>, fold: Fold): set<PurchaseKey> { set i | i in s :: IntentKey(i, fold) }

  ghost function OfferKeys(s: seq<Offer>, fold: Fold): set<PurchaseKey> { set o | o in s :: OfferKey(o, fold) }

  // ---- one action ----

  function QuantityOf(q: Quantity): int {
    match q
    case One => 1
    case NoNumber => 0
    case Endless => 0
    case Number(n) => if n == 0 then 1 else n
  }

  /** The action names a payer, an item and a quantity: from here on the purchase must not get lost. */
  predicate IsPurchase(raw: Raw) {
    && raw.Record? && raw.purchase.kind == "purchase" && raw.purchase.payer != "" && raw.purchase.target != ""
    && 1 <= QuantityOf(raw.purchase.quantity) <= MAX_QUANTITY
  }

  /** Reading an infinite quantity raises an error that nobody catches: the whole batch is lost. */
  predicate Crashes(raw: Raw) {
    && raw.Record? && raw.purchase.kind == "purchase" && raw.purchase.payer != "" && raw.purchase.target != ""
    && raw.purchase.quantity.Endless?
  }

  function IntentOf(p: Purchase): Intent { Intent(p.payer, p.target, QuantityOf(p.quantity)) }

  function TotalOf(p: Purchase): int
    requires p.amount.Amount?
  {
    if p.scope == "unit" then p.amount.n * QuantityOf(p.quantity) else p.amount.n
  }

  /** Everything a charge needs: a named source for the price, evidence that holds if given, a unit of the currency, a
      total in range, a deposit that leaves something to pay, and the player's budget. */
  predicate Chargeable(p: Purchase, units: set<string>) {
    && p.priceSource in {"player_stated", "gm_narrated"} && (p.evidence != "" ==> p.trusted)
    && p.scope in {"unit", "total"} && p.unit in units && p.unit != ""
    && p.amount.Amount? && p.amount.n <= MAX_AMOUNT && 0 < TotalOf(p) <= MAX_AMOUNT
    && (p.deposit.Absent? || (p.deposit.Amount? && 0 < p.deposit.n < TotalOf(p)))
    && (p.maxTotal.Absent? || (p.maxTotal.Amount? && 0 <= p.maxTotal.n <= MAX_AMOUNT && TotalOf(p) <= p.maxTotal.n))
  }

  function OfferOf(p: Purchase): Offer
    requires p.amount.Amount?
  {
    Offer(p.payer, p.target, QuantityOf(p.quantity), TotalOf(p),
          if p.maxTotal.Amount? then Some(p.maxTotal.n) else None,
          if p.deposit.Amount? then Some(p.deposit.n) else None,
          if p.deposit.Amount? then Some(TotalOf(p) - p.deposit.n) else None)
  }

  // ---- all actions ----

  datatype Tally = Tally(offers: seq<Offer>, unpriced: seq<Intent>)

  function Noted(unpriced: seq<Intent>, i: Intent, fold: Fold): seq<Intent> {
    if exists k | 0 <= k < |unpriced| :: IntentKey(unpriced[k], fold) == IntentKey(i, fold) then unpriced
    else unpriced + [i]
  }

  /** The first n actions. */
  function Counted(raws: seq<Raw>, n: nat, units: set<string>, fold: Fold): Tally
    requires n <= |raws|
  {
    if n == 0 then Tally([], [])
    else
      var t, raw := Counted(raws, n - 1, units, fold), raws[n - 1];
      if !IsPurchase(raw) then t
      else if Chargeable(raw.purchase, units) then t.(offers := t.offers + [OfferOf(raw.purchase)])
      else t.(unpriced := Noted(t.unpriced, IntentOf(raw.purchase), fold))
  }

  predicate Priced(offers: seq<Offer>, i: Intent, fold: Fold) {
    exists k | 0 <= k < |offers| :: OfferKey(offers[k], fold) == IntentKey(i, fold)
  }

  function Unpriced(offers: seq<Offer>, unpriced: seq<Intent>, fold: Fold): seq<Intent> {
    Filter((i: Intent) => !Priced(offers, i, fold), unpriced)
  }

  function Considered(raws: seq<Raw>): nat { if |raws| < MAX_ACTIONS then |raws| else MAX_ACTIONS }

  /** The plan for the actions considered; none if one of them crashes. */
  function Normalized(raws: seq<Raw>, units: set<string>, fold: Fold): Option<Tally> {
    if exists k | 0 <= k < Considered(raws) :: Crashes(raws[k]) then None
    else
      var t := Counted(raws, Considered(raws), units, fold);
      Some(t.(unpriced := Unpriced(t.offers, t.unpriced, fold)))
  }

  // ---- recovery from the players' own words ----

  /** A purchase that the players' text mentions; the target is empty when none could be extracted. */
  datatype Mention = Mention(actor: string, target: string, quantity: int)

  predicate HasOffer(offers: seq<Offer>, payer: string) { exists o :: o in offers && o.payer == payer }

  predicate HasIntent(unpriced: seq<Intent>, payer: string) { exists i :: i in unpriced && i.payer == payer }

  function RecallOne(offers: seq<Offer>, unpriced: seq<Intent>, m: Mention, fold: Fold): seq<Intent> {
    var i := Intent(m.actor, m.target, m.quantity);
    if m.target == "" || (m.actor != "" && HasOffer(offers, m.actor)) || Priced(offers, i, fold)
       || HasIntent(unpriced, m.actor) then unpriced
    else unpriced + [i]
  }

  /** A mention adds a blocker only for an actor about whom nothing is known. */
  function Recalled(offers: seq<Offer>, unpriced: seq<Intent>, mentions: seq<Mention>, fold: Fold): seq<Intent> {
    if mentions == [] then unpriced
    else
      var n := |mentions| - 1;
      RecallOne(offers, Recalled(offers, unpriced, mentions[..n], fold), mentions[n], fold)
  }

  function Recovered(t: Tally, mentions: seq<Mention>, fold: Fold): Tally {
    t.(unpriced := Unpriced(t.offers, Recalled(t.offers, t.unpriced, mentions, fold), fold))
  }

  // ---- the planner ----

  lemma NothingRecalled(offers: seq<Offer>, unpriced: seq<Intent>, fold: Fold)
    ensures Recalled(offers, unpriced, [], fold) == unpriced
  {}

  lemma RecalledStep(offers: seq<Offer>, unpriced: seq<Intent>, mentions: seq<Mention>, k: nat, fold: Fold)
    requires k < |mentions|
    ensures Recalled(offers, unpriced, mentions[..k + 1], fold)
      == RecallOne(offers, Recalled(offers, unpriced, mentions[..k], fold), mentions[k], fold)
  {
    assert mentions[..k + 1][..k] == mentions[..k];
  }

  lemma KnownKeys(offers: seq<Offer>, unpriced: seq<Intent>, m: Mention, known: set<PurchaseKey>, fold: Fold)
    requires known == OfferKeys(offers, fold) + IntentKeys(unpriced, fold)
    ensures var i := Intent(m.actor, m.target, m.quantity);
      && (Priced(offers, i, fold) ==> IntentKey(i, fold) in known)
      && (IntentKey(i, fold) in known ==> Priced(offers, i, fold) || HasIntent(unpriced, m.actor))
  {
    var i := Intent(m.actor, m.target, m.quantity);
    if IntentKey(i, fold) in OfferKeys(offers, fold) {
      var o :| o in offers && OfferKey(o, fold) == IntentKey(i, fold);
      var k :| 0 <= k < |offers| && offers[k] == o;
    }
  }

  /** The lists that one round of planning fills. */
  class Plan {
    var offers: seq<Offer>
    var unpriced: seq<Intent>
    var seen: set<PurchaseKey>
    var errors: seq<nat>

    ghost function Value(): Tally
      reads this
    {
      Tally(offers, unpriced)
    }

    constructor ()
      ensures Value() == Tally([], []) && seen == {} && errors == []
    {
      offers, unpriced, seen, errors := [], [], {}, [];
    }

    method AppendUnpriced(i: Intent, fold: Fold)
      requires seen == IntentKeys(unpriced, fold)
      modifies this`unpriced, this`seen
      ensures unpriced == Noted(old(unpriced), i, fold) && seen == IntentKeys(unpriced, fold)
    {
      var key := IntentKey(i, fold);
      if key in seen { return; }
      assert forall k | 0 <= k < |unpriced| :: IntentKey(unpriced[k], fold) in seen;
      seen := seen + {key};
      unpriced := unpriced + [i];
    }

    method Downgrade(index: nat, i: Intent, fold: Fold)
      requires seen == IntentKeys(unpriced, fold)
      modifies this`unpriced, this`seen, this`errors
      ensures unpriced == Noted(old(unpriced), i, fold) && seen == IntentKeys(unpriced, fold)
      ensures errors == old(errors) + [index]
    {
      errors := errors + [index];
      AppendUnpriced(i, fold);
    }

    /** One purchase: an offer if every check passes, otherwise a blocker. */
    method TakePurchase(index: nat, p: Purchase, units: set<string>, fold: Fold)
      requires IsPurchase(Record(p)) && seen == IntentKeys(unpriced, fold)
      modifies this
      ensures offers == old(offers) + if Chargeable(p, units) then [OfferOf(p)] else []
      ensures unpriced == if Chargeable(p, units) then old(unpriced) else Noted(old(unpriced), IntentOf(p), fold)
      ensures seen == IntentKeys(unpriced, fold)
      ensures errors == old(errors)
        + if Chargeable(p, units) || p.priceSource == "none" || p.amount.Absent? then [] else [index]
    {
      var quantity := QuantityOf(p.quantity);
      var intent := Intent(p.payer, p.target, quantity);
      if p.priceSource == "none" || p.amount.Absent? {
        AppendUnpriced(intent, fold);
        return;
      }
      if p.scope != "unit" && p.scope != "total" { Downgrade(index, intent, fold); return; }
      if p.priceSource != "player_stated" && p.priceSource != "gm_narrated" { Downgrade(index, intent, fold); return; }
      if p.evidence != "" && !p.trusted { Downgrade(index, intent, fold); return; }
      if p.unit == "" || p.unit !in units { Downgrade(index, intent, fold); return; }
      if p.amount.Bad? || p.amount.n > MAX_AMOUNT { Downgrade(index, intent, fold); return; }
      var total := if p.scope == "unit" then p.amount.n * quantity else p.amount.n;
      if !(0 < total <= MAX_AMOUNT) { Downgrade(index, intent, fold); return; }
      var initialDue, remainingDue := None, None;
      if !p.deposit.Absent? {
        if p.deposit.Bad? || !(0 < p.deposit.n < total) { Downgrade(index, intent, fold); return; }
        initialDue, remainingDue := Some(p.deposit.n), Some(total - p.deposit.n);
      }
      var maxTotal := None;
      if !p.maxTotal.Absent? {
        if p.maxTotal.Bad? || !(0 <= p.maxTotal.n <= MAX_AMOUNT) { Downgrade(index, intent, fold); return; }
        if total > p.maxTotal.n { Downgrade(index, intent, fold); return; }
        maxTotal := Some(p.maxTotal.n);
      }
      offers := offers + [Offer(p.payer, p.target, quantity, total, maxTotal, initialDue, remainingDue)];
    }

    /** Drops the blockers that an offer for the same purchase has overtaken. */
    method DropPriced(fold: Fold)
      modifies this`unpriced
      ensures unpriced == Unpriced(offers, old(unpriced), fold)
    {
      var kept, charged := [], offers;
      for k := 0 to |unpriced|
        invariant unpriced == old(unpriced)
        invariant kept == Unpriced(offers, unpriced[..k], fold)
      {
        var intent := unpriced[k];
        assert unpriced[..k + 1] == unpriced[..k] + [intent];
        FilterConcat((i: Intent) => !Priced(charged, i, fold), unpriced[..k], [intent]);
        if !Priced(offers, intent, fold) { kept := kept + [intent]; }
      }
      assert unpriced[..|unpriced|] == unpriced;
      unpriced := kept;
    }

    method Normalize(raws: seq<Raw>, units: set<string>, fold: Fold) returns (ok: bool)
      requires Value() == Tally([], []) && seen == {}
      modifies this
      ensures ok <==> Normalized(raws, units, fold).Some?
      ensures ok ==> Some(Value()) == Normalized(raws, units, fold)
    {
      hide Chargeable, OfferOf, Noted, Unpriced;
      for k := 0 to Considered(raws)
        invariant forall j :: 0 <= j < k ==> !Crashes(raws[j])
        invariant Value() == Counted(raws, k, units, fold) && seen == IntentKeys(unpriced, fold)
      {
        if Crashes(raws[k]) { return false; }
        if IsPurchase(raws[k]) {
          TakePurchase(k, raws[k].purchase, units, fold);
        } else {
          errors := errors + [k];
        }
      }
      DropPriced(fold);
      return true;
    }

    /** Adds blockers for purchases that the players' text mentions and the plan does not. */
    method Recover(mentions: seq<Mention>, fold: Fold)
      modifies this`unpriced
      ensures Value() == Recovered(old(Value()), mentions, fold)
    {
      hide Unpriced, Recalled, Priced;
      var known := (set o | o in offers :: OfferKey(o, fold)) + (set i | i in unpriced :: IntentKey(i, fold));
      var pricedActors := set o | o in offers && o.payer != "" :: o.payer;
      ghost var given := unpriced;
      NothingRecalled(offers, given, fold);
      assert mentions[..0] == [];
      for k := 0 to |mentions|
        invariant unpriced == Recalled(offers, given, mentions[..k], fold)
        invariant known == OfferKeys(offers, fold) + IntentKeys(unpriced, fold)
      {
        var m := mentions[k];
        RecalledStep(offers, given, mentions, k, fold);
        KnownKeys(offers, unpriced, m, known, fold);
        if m.target != "" && m.actor !in pricedActors {
          var key := IntentKey(Intent(m.actor, m.target, m.quantity), fold);
          var actorKnown := exists i :: i in unpriced && i.payer == m.actor;
          if key !in known && !actorKnown {
            unpriced := unpriced + [Intent(m.actor, m.target, m.quantity)];
            known := known + {key};
          }
        }
      }
      assert mentions[..|mentions|] == mentions;
      DropPriced(fold);
    }
  }

  // ---- purchases are not lost, charges are sound ----

  /** A purchase among the first n actions has this key. */
  ghost predicate Asked(raws: seq<Raw>, n: nat, key: PurchaseKey, fold: Fold)
    requires n <= |raws|
  {
    exists k | 0 <= k < n :: IsPurchase(raws[k]) && IntentKey(IntentOf(raws[k].purchase), fold) == key
  }

  /** The k-th action can be charged, for this purchase. */
  predicate Charges(raws: seq<Raw>, k: nat, units: set<string>, key: PurchaseKey, fold: Fold)
    requires k < |raws|
  {
    IsPurchase(raws[k]) && IntentKey(IntentOf(raws[k].purchase), fold) == key && Chargeable(raws[k].purchase, units)
  }

  /** A purchase among them with this key can be charged. */
  ghost predicate Charged(raws: seq<Raw>, n: nat, units: set<string>, key: PurchaseKey, fold: Fold)
    requires n <= |raws|
  {
    exists k | 0 <= k < n :: Charges(raws, k, units, key, fold)
  }

  /** One of them has the key and cannot be charged. */
  ghost predicate Blocked(raws: seq<Raw>, n: nat, units: set<string>, key: PurchaseKey, fold: Fold)
    requires n <= |raws|
  {
    exists k | 0 <= k < n :: IsPurchase(raws[k]) && IntentKey(IntentOf(raws[k].purchase), fold) == key
                             && !Chargeable(raws[k].purchase, units)
  }

  lemma AskedSplits(raws: seq<Raw>, n: nat, units: set<string>, key: PurchaseKey, fold: Fold)
    requires n <= |raws|
    ensures Asked(raws, n, key, fold) <==> Charged(raws, n, units, key, fold) || Blocked(raws, n, units, key, fold)
  {
    hide Chargeable;
    if k :| 0 <= k < n && IsPurchase(raws[k]) && IntentKey(IntentOf(raws[k].purchase), fold) == key {
      assert Chargeable(raws[k].purchase, units) ==> Charges(raws, k, units, key, fold);
    }
    if k :| 0 <= k < n && Charges(raws, k, units, key, fold) { assert IsPurchase(raws[k]); }
  }

  /** No two blockers are for the same purchase. */
  predicate OncePerKey(s: seq<Intent>, fold: Fold) {
    forall i, j :: 0 <= i < j < |s| ==> IntentKey(s[i], fold) != IntentKey(s[j], fold)
  }

  lemma KeysOf(s: seq<Intent>, i: Intent, fold: Fold)
    ensures IntentKeys(s + [i], fold) == IntentKeys(s, fold) + {IntentKey(i, fold)}
    ensures IntentKeys(Noted(s, i, fold), fold) == IntentKeys(s, fold) + {IntentKey(i, fold)}
    ensures OncePerKey(s, fold) ==> OncePerKey(Noted(s, i, fold), fold)
  {
    if k :| 0 <= k < |s| && IntentKey(s[k], fold) == IntentKey(i, fold) { assert s[k] in s; }
  }

  lemma OfferKeysOf(s: seq<Offer>, o: Offer, fold: Fold)
    ensures OfferKeys(s + [o], fold) == OfferKeys(s, fold) + {OfferKey(o, fold)}
  {}

  lemma NoKeys(fold: Fold)
    ensures OfferKeys([], fold) == {} && IntentKeys([], fold) == {} && OncePerKey([], fold)
  {}

  lemma ChargeableHasAmount(p: Purchase, units: set<string>, fold: Fold)
    ensures Chargeable(p, units) ==> p.amount.Amount? && OfferKey(OfferOf(p), fold) == IntentKey(IntentOf(p), fold)
  {}

  lemma NothingCharged(raws: seq<Raw>, units: set<string>, fold: Fold)
    ensures forall key :: !Charged(raws, 0, units, key, fold)
  {}

  lemma ChargedGrows(raws: seq<Raw>, n: nat, units: set<string>, key: PurchaseKey, fold: Fold)
    requires n < |raws|
    ensures Charged(raws, n + 1, units, key, fold)
      <==> Charged(raws, n, units, key, fold) || Charges(raws, n, units, key, fold)
  {
    hide Charges;
  }

  lemma {:induction false} CountedKeys(raws: seq<Raw>, n: nat, units: set<string>, fold: Fold)
    requires n <= |raws|
    ensures var t := Counted(raws, n, units, fold);
      && (forall key :: key in OfferKeys(t.offers, fold) <==> Charged(raws, n, units, key, fold))
      && (forall key :: key in IntentKeys(t.unpriced, fold) <==> Blocked(raws, n, units, key, fold))
      && OncePerKey(t.unpriced, fold)
  {
    hide Chargeable, Noted, IntentKey, OfferKeys, IntentKeys, OncePerKey, Charged;
    if n > 0 {
      CountedKeys(raws, n - 1, units, fold);
      forall key
        ensures Charged(raws, n, units, key, fold)
          <==> Charged(raws, n - 1, units, key, fold) || Charges(raws, n - 1, units, key, fold)
      {
        ChargedGrows(raws, n - 1, units, key, fold);
      }
      var t, raw := Counted(raws, n - 1, units, fold), raws[n - 1];
      if IsPurchase(raw) {
        var key := IntentKey(IntentOf(raw.purchase), fold);
        KeysOf(t.unpriced, IntentOf(raw.purchase), fold);
        if Chargeable(raw.purchase, units) {
          ChargeableHasAmount(raw.purchase, units, fold);
          OfferKeysOf(t.offers, OfferOf(raw.purchase), fold);
        }
      }
    } else {
      NoKeys(fold);
      NothingCharged(raws, units, fold);
    }
  }

  lemma PricedIsKey(offers: seq<Offer>, i: Intent, fold: Fold)
    ensures Priced(offers, i, fold) <==> IntentKey(i, fold) in OfferKeys(offers, fold)
  {
    if IntentKey(i, fold) in OfferKeys(offers, fold) {
      var o :| o in offers && OfferKey(o, fold) == IntentKey(i, fold);
      var k :| 0 <= k < |offers| && offers[k] == o;
    }
  }

  lemma UnpricedKeys(offers: seq<Offer>, unpriced: seq<Intent>, fold: Fold)
    ensures var u := Unpriced(offers, unpriced, fold);
      IntentKeys(u, fold) == IntentKeys(unpriced, fold) - OfferKeys(offers, fold)
  {
    hide Priced, IntentKey;
    Filtered((i: Intent) => !Priced(offers, i, fold), unpriced);
    forall i: Intent ensures Priced(offers, i, fold) <==> IntentKey(i, fold) in OfferKeys(offers, fold) {
      PricedIsKey(offers, i, fold);
    }
  }

  lemma {:induction false} UnpricedOnce(offers: seq<Offer>, unpriced: seq<Intent>, fold: Fold)
    requires OncePerKey(unpriced, fold)
    ensures OncePerKey(Unpriced(offers, unpriced, fold), fold)
  {
    hide Priced, IntentKey;
    if unpriced != [] {
      var rest := unpriced[1..];
      UnpricedOnce(offers, rest, fold);
      Filtered((i: Intent) => !Priced(offers, i, fold), rest);
      var u := Unpriced(offers, rest, fold);
      forall i | i in u ensures IntentKey(i, fold) != IntentKey(unpriced[0], fold) {
        var k :| 0 <= k < |rest| && rest[k] == i;
        assert unpriced[k + 1] == i;
      }
    }
  }

  /** Unless a quantity is infinite, the planner returns.  Then, key by key, a purchase is offered exactly if some
      mention of it can be charged, and blocks free delivery exactly if it was asked for and none can.  So every
      purchase asked for is in exactly one of the two lists, nothing else is in either, and no blocker is repeated. */
  lemma PurchasesAreNotLost(raws: seq<Raw>, units: set<string>, fold: Fold)
    ensures Normalized(raws, units, fold).Some? <==> forall k :: 0 <= k < Considered(raws) ==> !Crashes(raws[k])
    ensures Normalized(raws, units, fold).Some? ==>
      var t, n := Normalized(raws, units, fold).value, Considered(raws);
      && (forall key :: key in OfferKeys(t.offers, fold) <==> Charged(raws, n, units, key, fold))
      && (forall key :: key in IntentKeys(t.unpriced, fold) <==>
            Asked(raws, n, key, fold) && !Charged(raws, n, units, key, fold))
      && OncePerKey(t.unpriced, fold)
  {
    hide Chargeable, IsPurchase, IntentKey, OfferKeys, IntentKeys, OncePerKey, Unpriced, Charged, Asked, Blocked,
         Counted;
    var n := Considered(raws);
    var t := Counted(raws, n, units, fold);
    CountedKeys(raws, n, units, fold);
    UnpricedKeys(t.offers, t.unpriced, fold);
    UnpricedOnce(t.offers, t.unpriced, fold);
    forall key
      ensures Asked(raws, n, key, fold) <==> Charged(raws, n, units, key, fold) || Blocked(raws, n, units, key, fold)
    {
      AskedSplits(raws, n, units, key, fold);
    }
  }

  /** A charge that may be made: in range, within the player's budget, and split exactly by a deposit. */
  predicate Sound(o: Offer) {
    && 0 < o.amount <= MAX_AMOUNT && 1 <= o.quantity <= MAX_QUANTITY && o.payer != "" && o.target != ""
    && (o.maxTotal.Some? ==> o.amount <= o.maxTotal.value <= MAX_AMOUNT)
    && (o.initialDue.Some? <==> o.remainingDue.Some?)
    && (o.initialDue.Some? ==>
          0 < o.initialDue.value && 0 < o.remainingDue.value && o.initialDue.value + o.remainingDue.value == o.amount)
  }

  /** Every offer is sound and comes from a chargeable purchase. */
  lemma {:induction false} OffersAreSound(raws: seq<Raw>, n: nat, units: set<string>, fold: Fold)
    requires n <= |raws|
    ensures forall o :: o in Counted(raws, n, units, fold).offers ==>
              && Sound(o)
              && exists k | 0 <= k < n :: IsPurchase(raws[k]) && Chargeable(raws[k].purchase, units)
                                          && OfferOf(raws[k].purchase) == o
  {
    hide Noted;
    if n > 0 { OffersAreSound(raws, n - 1, units, fold); }
  }

  /** No two offers are for the same purchase. */
  predicate OfferedOnce(offers: seq<Offer>, fold: Fold) {
    forall i, j :: 0 <= i < j < |offers| ==> OfferKey(offers[i], fold) != OfferKey(offers[j], fold)
  }

  lemma OfferedOnceSnoc(offers: seq<Offer>, o: Offer, fold: Fold)
    ensures OfferedOnce(offers + [o], fold)
      <==> OfferedOnce(offers, fold) && OfferKey(o, fold) !in OfferKeys(offers, fold)
  {
    hide OfferKey;
    var all := offers + [o];
    if OfferedOnce(all, fold) {
      forall i, j | 0 <= i < j < |offers| ensures OfferKey(offers[i], fold) != OfferKey(offers[j], fold) {
        assert OfferKey(all[i], fold) != OfferKey(all[j], fold);
      }
      forall p | p in offers ensures OfferKey(p, fold) != OfferKey(o, fold) {
        var i :| 0 <= i < |offers| && offers[i] == p;
        assert OfferKey(all[i], fold) != OfferKey(all[|offers|], fold);
      }
    }
    if OfferedOnce(offers, fold) && OfferKey(o, fold) !in OfferKeys(offers, fold) {
      forall i, j | 0 <= i < j < |all| ensures OfferKey(all[i], fold) != OfferKey(all[j], fold) {
        if j == |offers| { assert all[i] in offers; }
      }
    }
  }

  lemma NoOffers(fold: Fold)
    ensures OfferedOnce([], fold)
  {}

  /** A purchase that can be charged is offered once for every mention of it: the offers repeat nothing exactly if no
      two of the actions can be charged for the same purchase. */
  lemma {:induction false} OfferedOncePerMention(raws: seq<Raw>, n: nat, units: set<string>, fold: Fold)
    requires n <= |raws|
    ensures OfferedOnce(Counted(raws, n, units, fold).offers, fold)
      <==> forall j, k, key :: 0 <= j < k < n ==>
             !(Charges(raws, j, units, key, fold) && Charges(raws, k, units, key, fold))
  {
    hide Chargeable, IntentKey, OfferKeys, OfferedOnce, Noted, OfferOf;
    if n > 0 {
      OfferedOncePerMention(raws, n - 1, units, fold);
      CountedKeys(raws, n - 1, units, fold);
      var raw := raws[n - 1];
      if IsPurchase(raw) && Chargeable(raw.purchase, units) {
        var key := IntentKey(IntentOf(raw.purchase), fold);
        ChargeableHasAmount(raw.purchase, units, fold);
        OfferedOnceSnoc(Counted(raws, n - 1, units, fold).offers, OfferOf(raw.purchase), fold);
        assert Charges(raws, n - 1, units, key, fold);
      }
    } else {
      NoOffers(fold);
    }
  }

  // ---- recovery only adds blockers ----

  lemma IntentStays(s: seq<Intent>, t: seq<Intent>, payer: string)
    requires s <= t
    ensures HasIntent(s, payer) ==> HasIntent(t, payer)
  {
    if i :| i in s && i.payer == payer { assert i in t; }
  }

  lemma PricedHasOffer(offers: seq<Offer>, m: Mention, fold: Fold)
    requires Priced(offers, Intent(m.actor, m.target, m.quantity), fold)
    ensures HasOffer(offers, m.actor)
  {
    var k :| 0 <= k < |offers| && OfferKey(offers[k], fold) == IntentKey(Intent(m.actor, m.target, m.quantity), fold);
    assert offers[k] in offers;
  }

  lemma RecallOneGrows(
    offers: seq<Offer>, unpriced: seq<Intent>, mentions: seq<Mention>, before: seq<Intent>, fold: Fold)
    requires mentions != [] && unpriced <= before
    requires forall k :: |unpriced| <= k < |before| ==>
               && before[k].target != "" && !HasIntent(unpriced, before[k].payer)
               && (before[k].payer != "" ==> !HasOffer(offers, before[k].payer))
               && Mention(before[k].payer, before[k].target, before[k].quantity) in mentions[..|mentions| - 1]
    requires forall j, k :: |unpriced| <= j < k < |before| ==> before[j].payer != before[k].payer
    requires forall m :: m in mentions[..|mentions| - 1] && m.target != "" ==>
               HasOffer(offers, m.actor) || HasIntent(before, m.actor)
    ensures var u := RecallOne(offers, before, mentions[|mentions| - 1], fold);
      && unpriced <= u
      && (forall k :: |unpriced| <= k < |u| ==>
            && u[k].target != "" && !HasIntent(unpriced, u[k].payer)
            && (u[k].payer != "" ==> !HasOffer(offers, u[k].payer))
            && Mention(u[k].payer, u[k].target, u[k].quantity) in mentions)
      && (forall j, k :: |unpriced| <= j < k < |u| ==> u[j].payer != u[k].payer)
      && (forall m :: m in mentions && m.target != "" ==> HasOffer(offers, m.actor) || HasIntent(u, m.actor))
  {
    hide HasOffer, Priced;
    var last := mentions[|mentions| - 1];
    var u := RecallOne(offers, before, last, fold);
    forall a ensures HasIntent(unpriced, a) ==> HasIntent(before, a) { IntentStays(unpriced, before, a); }
    forall a ensures HasIntent(before, a) ==> HasIntent(u, a) { IntentStays(before, u, a); }
    if Priced(offers, Intent(last.actor, last.target, last.quantity), fold) { PricedHasOffer(offers, last, fold); }
    if u != before { assert u[|before|] in u; }
    forall m | m in mentions && m.target != "" ensures HasOffer(offers, m.actor) || HasIntent(u, m.actor) {
      assert mentions == mentions[..|mentions| - 1] + [last];
    }
  }

  lemma {:induction false} RecalledGrows(offers: seq<Offer>, unpriced: seq<Intent>, mentions: seq<Mention>, fold: Fold)
    ensures var u := Recalled(offers, unpriced, mentions, fold);
      && unpriced <= u
      && (forall k :: |unpriced| <= k < |u| ==>
            && u[k].target != "" && !HasIntent(unpriced, u[k].payer)
            && (u[k].payer != "" ==> !HasOffer(offers, u[k].payer))
            && Mention(u[k].payer, u[k].target, u[k].quantity) in mentions)
      && (forall j, k :: |unpriced| <= j < k < |u| ==> u[j].payer != u[k].payer)
      && (forall m :: m in mentions && m.target != "" ==> HasOffer(offers, m.actor) || HasIntent(u, m.actor))
  {
    hide HasOffer, HasIntent, Priced;
    if mentions != [] {
      var n := |mentions| - 1;
      RecalledGrows(offers, unpriced, mentions[..n], fold);
      RecallOneGrows(offers, unpriced, mentions, Recalled(offers, unpriced, mentions[..n], fold), fold);
    }
  }

  /** An actor's blocker is the first with its key. */
  lemma RecallOneOnce(offers: seq<Offer>, unpriced: seq<Intent>, m: Mention, fold: Fold)
    requires OncePerKey(unpriced, fold)
    ensures OncePerKey(RecallOne(offers, unpriced, m, fold), fold)
  {
    hide Priced, HasOffer;
    var u := RecallOne(offers, unpriced, m, fold);
    forall i, j | 0 <= i < j < |u| ensures IntentKey(u[i], fold) != IntentKey(u[j], fold) {
      if j == |unpriced| { assert unpriced[i] in unpriced; }
    }
  }

  lemma {:induction false} RecalledOnce(offers: seq<Offer>, unpriced: seq<Intent>, mentions: seq<Mention>, fold: Fold)
    requires OncePerKey(unpriced, fold)
    ensures OncePerKey(Recalled(offers, unpriced, mentions, fold), fold)
  {
    hide OncePerKey, RecallOne;
    if mentions != [] {
      var n := |mentions| - 1;
      RecalledOnce(offers, unpriced, mentions[..n], fold);
      RecallOneOnce(offers, Recalled(offers, unpriced, mentions[..n], fold), mentions[n], fold);
    }
  }

  /** Recovery repeats no blocker that was not repeated before. */
  lemma RecoveryRepeatsNothing(t: Tally, mentions: seq<Mention>, fold: Fold)
    requires OncePerKey(t.unpriced, fold)
    ensures OncePerKey(Recovered(t, mentions, fold).unpriced, fold)
  {
    hide OncePerKey, Recalled, Unpriced;
    RecalledOnce(t.offers, t.unpriced, mentions, fold);
    UnpricedOnce(t.offers, Recalled(t.offers, t.unpriced, mentions, fold), fold);
  }

  /** Recovery leaves the offers alone, loses no purchase key, keeps the two lists apart, and afterwards every player
      whose words name something to buy is the payer of an offer or of a blocker. */
  lemma RecoveryOnlyBlocks(t: Tally, mentions: seq<Mention>, fold: Fold)
    ensures var r := Recovered(t, mentions, fold);
      && r.offers == t.offers
      && IntentKeys(t.unpriced, fold) - OfferKeys(t.offers, fold) <= IntentKeys(r.unpriced, fold)
      && IntentKeys(r.unpriced, fold) !! OfferKeys(r.offers, fold)
      && (forall m :: m in mentions && m.target != "" ==> HasOffer(r.offers, m.actor) || HasIntent(r.unpriced, m.actor))
      && (forall i :: i in r.unpriced ==>
            || i in t.unpriced
            || (&& !HasIntent(t.unpriced, i.payer) && i.target != ""
                && Mention(i.payer, i.target, i.quantity) in mentions))
  {
    hide Recalled, Priced, IntentKey;
    var u := Recalled(t.offers, t.unpriced, mentions, fold);
    var r := Recovered(t, mentions, fold);
    RecalledGrows(t.offers, t.unpriced, mentions, fold);
    UnpricedKeys(t.offers, u, fold);
    Filtered((i: Intent) => !Priced(t.offers, i, fold), u);
    forall i | i in t.unpriced ensures i in u {}
    forall m | m in mentions && m.target != "" ensures HasOffer(r.offers, m.actor) || HasIntent(r.unpriced, m.actor) {
      if HasIntent(u, m.actor) {
        var i :| i in u && i.payer == m.actor;
        if Priced(t.offers, i, fold) { PricedHasOffer(t.offers, Mention(i.payer, i.target, i.quantity), fold); }
      }
    }
    forall i | i in r.unpriced && i !in t.unpriced
      ensures !HasIntent(t.unpriced, i.payer) && i.target != "" && Mention(i.payer, i.target, i.quantity) in mentions
    {
      var k :| 0 <= k < |u| && u[k] == i;
    }
  }

  lemma NormalizedOffers(raws: seq<Raw>, units: set<string>, fold: Fold)
    ensures Normalized(raws, units, fold).Some? ==>
      Normalized(raws, units, fold).value.offers == Counted(raws, Considered(raws), units, fold).offers
  {}

  /** The whole planning step: a purchase that was asked for ends up offered or blocked, and blocked once, whatever the
      amounts, the evidence and the players' wording. */
  lemma PlanningFailsClosed(raws: seq<Raw>, units: set<string>, mentions: seq<Mention>, fold: Fold)
    ensures Normalized(raws, units, fold).Some? ==>
      var t := Recovered(Normalized(raws, units, fold).value, mentions, fold);
      && (forall key :: Asked(raws, Considered(raws), key, fold) ==>
            (key in OfferKeys(t.offers, fold) <==> key !in IntentKeys(t.unpriced, fold)))
      && OncePerKey(t.unpriced, fold)
      && (forall o :: o in t.offers ==> Sound(o))
  {
    hide Normalized, Recovered, OfferKeys, IntentKeys, Asked, Charged, OncePerKey;
    PurchasesAreNotLost(raws, units, fold);
    if Normalized(raws, units, fold).Some? {
      RecoveryOnlyBlocks(Normalized(raws, units, fold).value, mentions, fold);
      RecoveryRepeatsNothing(Normalized(raws, units, fold).value, mentions, fold);
    }
    OffersAreSound(raws, Considered(raws), units, fold);
    NormalizedOffers(raws, units, fold);
  }

  // ---- examples ----

  /** A rope for five, quoted by the player. */
  function Rope(quantity: Quantity): Raw {
    Record(Purchase("purchase", "p", "rope", quantity, "player_stated", Amount(5), "total", "", false, "gp", Absent,
                    Absent))
  }

  const ROPE_OFFER := Offer("p", "rope", 1, 5, None, None, None)

  lemma RopeIsCharged(fold: Fold)
    ensures IsPurchase(Rope(One)) && Chargeable(Rope(One).purchase, {"gp"})
    ensures OfferOf(Rope(One).purchase) == ROPE_OFFER
    ensures Counted([Rope(One)], 1, {"gp"}, fold) == Tally([ROPE_OFFER], [])
  {
    var raws := [Rope(One)];
    assert Counted(raws, 0, {"gp"}, fold) == Tally([], []);
  }

  /** A rope in infinite quantity: the planner raises an error, and the one rope before it is lost as well. */
  lemma EndlessQuantityLosesThePlan(units: set<string>, fold: Fold)
    ensures Normalized([Rope(One)], units, fold).Some?
    ensures Normalized([Rope(One), Rope(Endless)], units, fold).None?
  {
    assert Crashes([Rope(One), Rope(Endless)][1]);
  }

  /** The same rope twice: the player is offered it twice. */
  lemma MentionedTwiceOfferedTwice(fold: Fold)
    ensures Normalized([Rope(One), Rope(One)], {"gp"}, fold) == Some(Tally([ROPE_OFFER, ROPE_OFFER], []))
  {
    hide Chargeable, IsPurchase, OfferOf;
    var raws := [Rope(One), Rope(One)];
    RopeIsCharged(fold);
    assert Counted(raws, 0, {"gp"}, fold) == Tally([], []);
    assert Counted(raws, 1, {"gp"}, fold) == Tally([ROPE_OFFER], []);
    assert Counted(raws, 2, {"gp"}, fold) == Tally([ROPE_OFFER, ROPE_OFFER], []);
  }
}
