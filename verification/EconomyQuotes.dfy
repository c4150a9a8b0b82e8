/** What a plan charges, said of the quotes themselves: which of them are offered, for how much, and in which order. */
module EconomyQuotes {
  import opened Values
  import opened Economy

  // ---- one quote ----

  /** The number that a quantity field asks for. */
  predicate CountIs(q: Quantity, n: int) {
    (q == One && n == 1) || (q == Number(0) && n == 1) || (q == Number(n) && n != 0)
  }

  /** The action asks for so many of an item for a payer. */
  predicate AsksFor(raw: Raw, payer: string, target: string, n: int) {
    && raw.Record? && raw.purchase.kind == "purchase"
    && raw.purchase.payer == payer && payer != "" && raw.purchase.target == target && target != ""
    && CountIs(raw.purchase.quantity, n) && 1 <= n <= 8
  }

  /** A unit price is multiplied by the quantity, a total is not. */
  predicate AmountIs(p: Purchase, n: int, amount: int) {
    && p.amount.Amount?
    && ((p.scope == "unit" && amount == p.amount.n * n) || (p.scope == "total" && amount == p.amount.n))
  }

  /** The price has a named source, evidence that holds if there is any, and a unit of the currency. */
  predicate Vouched(p: Purchase, units: set<string>) {
    && (p.priceSource == "player_stated" || p.priceSource == "gm_narrated")
    && (p.evidence == "" || p.trusted)
    && p.unit != "" && p.unit in units
  }

  /** The offer is what the action quotes: its payer, item and quantity, the amount in range, a deposit that leaves
      something to pay, and a budget that is kept. */
  predicate Quotes(raw: Raw, units: set<string>, o: Offer) {
    && AsksFor(raw, o.payer, o.target, o.quantity)
    && var p := raw.purchase;
       && Vouched(p, units) && AmountIs(p, o.quantity, o.amount)
       && p.amount.n <= 10_000_000 && 0 < o.amount <= 10_000_000
       && (match p.deposit
           case Absent => o.initialDue == None && o.remainingDue == None
           case Bad => false
           case Amount(d) => 0 < d < o.amount && o.initialDue == Some(d) && o.remainingDue == Some(o.amount - d))
       && (match p.maxTotal
           case Absent => o.maxTotal == None
           case Bad => false
           case Amount(m) => o.amount <= m <= 10_000_000 && o.maxTotal == Some(m))
  }

  lemma AsksIff(raw: Raw, payer: string, target: string, n: int)
    ensures AsksFor(raw, payer, target, n) <==> IsPurchase(raw) && IntentOf(raw.purchase) == Intent(payer, target, n)
  {}

  lemma QuotesIff(raw: Raw, units: set<string>, o: Offer)
    ensures Quotes(raw, units, o) <==> IsPurchase(raw) && Chargeable(raw.purchase, units) && OfferOf(raw.purchase) == o
  {
    AsksIff(raw, o.payer, o.target, o.quantity);
  }

  // ---- the plan ----

  /** The offers are the quotes of the actions at these places, in order, and no other action quotes anything. */
  ghost predicate OffersAreQuotes(raws: seq<Raw>, n: nat, units: set<string>, offers: seq<Offer>, places: seq<nat>)
    requires n <= |raws|
  {
    && |places| == |offers|
    && (forall i, j :: 0 <= i < j < |places| ==> places[i] < places[j])
    && (forall i :: 0 <= i < |places| ==> places[i] < n && Quotes(raws[places[i]], units, offers[i]))
    && (forall k, o :: 0 <= k < n && Quotes(raws[k], units, o) ==> k in places)
  }

  lemma {:induction false} CountedAreQuotes(raws: seq<Raw>, n: nat, units: set<string>, fold: Fold)
    returns (places: seq<nat>)
    requires n <= |raws|
    ensures OffersAreQuotes(raws, n, units, Counted(raws, n, units, fold).offers, places)
  {
    hide Noted, Quotes;
    if n == 0 {
      places := [];
    } else {
      var earlier := CountedAreQuotes(raws, n - 1, units, fold);
      var raw, offers := raws[n - 1], Counted(raws, n - 1, units, fold).offers;
      forall o ensures Quotes(raw, units, o)
          <==> IsPurchase(raw) && Chargeable(raw.purchase, units) && OfferOf(raw.purchase) == o
      {
        QuotesIff(raw, units, o);
      }
      if IsPurchase(raw) && Chargeable(raw.purchase, units) {
        places := earlier + [n - 1];
        assert Quotes(raw, units, OfferOf(raw.purchase));
      } else {
        places := earlier;
      }
      forall k, o | 0 <= k < n && Quotes(raws[k], units, o) ensures k in places {
        if k < n - 1 { assert k in earlier; }
      }
    }
  }

  predicate OfferFor(offers: seq<Offer>, payer: string, item: string, n: int, fold: Fold) {
    exists o :: o in offers && o.payer == payer && fold(o.target) == item && o.quantity == n
  }

  predicate BlockerFor(unpriced: seq<Intent>, payer: string, item: string, n: int, fold: Fold) {
    exists i :: i in unpriced && i.payer == payer && fold(i.target) == item && i.quantity == n
  }

  /** The blockers of a plan: one for what some action asks for that no offer has. */
  ghost predicate BlocksTheRest(raws: seq<Raw>, n: nat, offers: seq<Offer>, unpriced: seq<Intent>, fold: Fold)
    requires n <= |raws|
  {
    && (forall i :: i in unpriced ==> exists k :: 0 <= k < n && AsksFor(raws[k], i.payer, i.target, i.quantity))
    && (forall k, payer, target, count :: 0 <= k < n && AsksFor(raws[k], payer, target, count) ==>
          (OfferFor(offers, payer, fold(target), count, fold)
           <==> !BlockerFor(unpriced, payer, fold(target), count, fold)))
  }

  lemma {:induction false} CountedAsk(raws: seq<Raw>, n: nat, units: set<string>, fold: Fold)
    requires n <= |raws|
    ensures forall i :: i in Counted(raws, n, units, fold).unpriced ==>
              exists k :: 0 <= k < n && AsksFor(raws[k], i.payer, i.target, i.quantity)
  {
    hide Chargeable, AsksFor;
    if n > 0 {
      CountedAsk(raws, n - 1, units, fold);
      var raw := raws[n - 1];
      if IsPurchase(raw) {
        var i := IntentOf(raw.purchase);
        AsksIff(raw, i.payer, i.target, i.quantity);
      }
    }
  }

  lemma StillUnpriced(offers: seq<Offer>, unpriced: seq<Intent>, fold: Fold)
    ensures forall i :: i in Unpriced(offers, unpriced, fold) ==> i in unpriced
  {
    Filtered((i: Intent) => !Priced(offers, i, fold), unpriced);
  }

  lemma AskedFor(raws: seq<Raw>, n: nat, k: nat, payer: string, target: string, count: int, fold: Fold)
    requires k < n <= |raws| && AsksFor(raws[k], payer, target, count)
    ensures Asked(raws, n, (payer, fold(target), count), fold)
  {
    AsksIff(raws[k], payer, target, count);
  }

  lemma KeysAre(offers: seq<Offer>, unpriced: seq<Intent>, payer: string, item: string, n: int, fold: Fold)
    ensures (payer, item, n) in OfferKeys(offers, fold) <==> OfferFor(offers, payer, item, n, fold)
    ensures (payer, item, n) in IntentKeys(unpriced, fold) <==> BlockerFor(unpriced, payer, item, n, fold)
  {}

  /** Exactly the first eight actions count.  The offers of a plan are what those of them quote that meet the
      conditions, one for one and in order; everything else they ask for is blocked. */
  lemma PlanIsQuoted(raws: seq<Raw>, units: set<string>, fold: Fold) returns (places: seq<nat>)
    requires Normalized(raws, units, fold).Some?
    ensures var t, n := Normalized(raws, units, fold).value, if |raws| < 8 then |raws| else 8;
      && OffersAreQuotes(raws, n, units, t.offers, places)
      && BlocksTheRest(raws, n, t.offers, t.unpriced, fold)
  {
    hide Counted, OffersAreQuotes, Unpriced, AsksFor, Asked, Charged, Blocked, OfferKeys, IntentKeys, OncePerKey,
         OfferFor, BlockerFor;
    var n, t := Considered(raws), Normalized(raws, units, fold).value;
    var all := Counted(raws, n, units, fold);
    places := CountedAreQuotes(raws, n, units, fold);
    CountedAsk(raws, n, units, fold);
    StillUnpriced(all.offers, all.unpriced, fold);
    PurchasesAreNotLost(raws, units, fold);
    forall k, payer, target, count | 0 <= k < n && AsksFor(raws[k], payer, target, count)
      ensures OfferFor(t.offers, payer, fold(target), count, fold)
        <==> !BlockerFor(t.unpriced, payer, fold(target), count, fold)
    {
      var key := (payer, fold(target), count);
      AskedFor(raws, n, k, payer, target, count, fold);
      KeysAre(t.offers, t.unpriced, payer, fold(target), count, fold);
    }
  }
}
