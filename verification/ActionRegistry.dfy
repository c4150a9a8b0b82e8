/** Application actions registered by hand and by sources that own changing sets of them. */
module ActionRegistry {
  import opened Values

  /** `valid` is the verdict of the contract check, `body` everything else about the action. */
  datatype Action = Action(name: string, version: int, valid: bool, body: int)

  /** What a source's provider does when asked: it returns its actions, it fails in one of the ways a refresh expects
      (a value, type or runtime error), or it raises something else, which ends the refresh. */
  datatype Answer = Given(actions: seq<Action>) | Failed | Escaped

  /** `manual` only keeps count of the actions registered by hand. */
  datatype State = State(
    actions: map<string, Action>, sources: seq<string>, owned: map<string, set<string>>, errors: set<string>,
    manual: map<string, Action>)

  function NewRegistry(): State { State(map[], [], map[], {}, map[]) }

  function OwnedBy(s: State, source: string): set<string> { if source in s.owned then s.owned[source] else {} }

  predicate Owned(s: State, name: string) { exists source :: source in s.owned && name in s.owned[source] }

  // ---- the operations ----

  function Registered(s: State, a: Action): Option<State> {
    if !a.valid || a.name in s.actions then None
    else Some(s.(actions := s.actions[a.name := a], manual := s.manual[a.name := a]))
  }

  function Replaced(s: State, a: Action): Option<State> {
    if !a.valid || a.name !in s.actions || a.version <= s.actions[a.name].version then None
    else Some(s.(actions := s.actions[a.name := a],
                 manual := if a.name in s.manual then s.manual[a.name := a] else s.manual))
  }

  function Unregistered(s: State, name: string): State {
    s.(actions := s.actions - {name}, manual := s.manual - {name})
  }

  predicate IsSourceStart(c: char) { 'a' <= c <= 'z' }

  predicate IsSourceChar(c: char) { IsSourceStart(c) || '0' <= c <= '9' || c == '_' || c == '-' }

  /** `[a-z][a-z0-9_-]{0,39}` */
  predicate IsSourceName(name: string) {
    1 <= |name| <= 40 && IsSourceStart(name[0]) && forall i :: 0 <= i < |name| ==> IsSourceChar(name[i])
  }

  function WithSource(s: State, source: string): Option<State> {
    if !IsSourceName(source) || source in s.owned then None
    else Some(s.(sources := s.sources + [source], owned := s.owned[source := {}]))
  }

  function Names(actions: seq<Action>): set<string> { set a | a in actions :: a.name }

  predicate DistinctNames(actions: seq<Action>) {
    forall i, j :: 0 <= i < j < |actions| ==> actions[i].name != actions[j].name
  }

  /** The answer can take the place of what the source owns now. */
  predicate Acceptable(s: State, source: string, answer: Answer) {
    && answer.Given? && (forall a :: a in answer.actions ==> a.valid) && DistinctNames(answer.actions)
    && Names(answer.actions) !! s.actions.Keys - OwnedBy(s, source)
  }

  function WithActions(m: map<string, Action>, actions: seq<Action>): map<string, Action> {
    if actions == [] then m
    else
      var last := actions[|actions| - 1];
      WithActions(m, actions[..|actions| - 1])[last.name := last]
  }

  function RefreshedOne(s: State, source: string, answer: Answer): State
    requires !answer.Escaped?
  {
    if Acceptable(s, source, answer) then
      s.(actions := WithActions(s.actions - (OwnedBy(s, source) - Names(answer.actions)), answer.actions),
         owned := s.owned[source := Names(answer.actions)], errors := s.errors - {source})
    else
      s.(actions := s.actions - OwnedBy(s, source), owned := s.owned[source := {}], errors := s.errors + {source})
  }

  /** How many sources a refresh gets through: all, or those before the first whose provider escapes. */
  function Reached(sources: seq<string>, answers: string -> Answer): (n: nat)
    ensures n <= |sources|
    ensures forall k :: 0 <= k < n ==> !answers(sources[k]).Escaped?
    ensures n < |sources| ==> answers(sources[n]).Escaped?
  {
    if sources == [] || answers(sources[0]).Escaped? then 0 else 1 + Reached(sources[1..], answers)
  }

  /** The first n sources, in order. */
  function RefreshedUpTo(s: State, n: nat, answers: string -> Answer): (r: State)
    requires n <= Reached(s.sources, answers)
    ensures r.sources == s.sources && r.manual == s.manual
  {
    if n == 0 then s
    else RefreshedOne(RefreshedUpTo(s, n - 1, answers), s.sources[n - 1], answers(s.sources[n - 1]))
  }

  function Refreshed(s: State, answers: string -> Answer): State {
    RefreshedUpTo(s, Reached(s.sources, answers), answers)
  }

  // ---- the registry ----

  lemma RefreshedKeepsKeys(s: State, source: string, answer: Answer)
    requires source in s.owned && !answer.Escaped?
    ensures RefreshedOne(s, source, answer).owned.Keys == s.owned.Keys
  {}

  lemma NamesCount(actions: seq<Action>)
    ensures |Names(actions)| == |actions| <==> DistinctNames(actions)
  {
    var names := Map((a: Action) => a.name, actions);
    DistinctSize(names);
    assert Elems(names) == Names(actions) by {
      forall a | a in actions ensures a.name in names {
        var k :| 0 <= k < |actions| && actions[k] == a;
        assert names[k] == a.name;
      }
    }
    if Distinct(names) {
      forall i, j | 0 <= i < j < |actions| ensures actions[i].name != actions[j].name { assert names[i] != names[j]; }
    }
  }

  class Registry {
    var actions: map<string, Action>
    var sources: seq<string>
    var owned: map<string, set<string>>
    var errors: set<string>
    ghost var manual: map<string, Action>

    ghost function Value(): State
      reads this
    {
      State(actions, sources, owned, errors, manual)
    }

    constructor ()
      ensures Value() == NewRegistry()
    {
      actions, sources, owned, errors, manual := map[], [], map[], {}, map[];
    }

    method Register(a: Action) returns (ok: bool)
      modifies this
      ensures var spec := Registered(old(Value()), a);
        ok == spec.Some? && Value() == if ok then spec.value else old(Value())
    {
      if !a.valid || a.name in actions { return false; }
      actions := actions[a.name := a];
      manual := manual[a.name := a];
      return true;
    }

    method Replace(a: Action) returns (ok: bool)
      modifies this
      ensures var spec := Replaced(old(Value()), a);
        ok == spec.Some? && Value() == if ok then spec.value else old(Value())
    {
      if !a.valid || a.name !in actions || a.version <= actions[a.name].version { return false; }
      actions := actions[a.name := a];
      if a.name in manual { manual := manual[a.name := a]; }
      return true;
    }

    method Unregister(name: string)
      modifies this
      ensures Value() == Unregistered(old(Value()), name)
    {
      actions := actions - {name};
      manual := manual - {name};
    }

    method RegisterSource(source: string) returns (ok: bool)
      modifies this
      ensures var spec := WithSource(old(Value()), source);
        ok == spec.Some? && Value() == if ok then spec.value else old(Value())
    {
      if !IsSourceName(source) || source in owned { return false; }
      sources := sources + [source];
      owned := owned[source := {}];
      return true;
    }

    /** Installs an answer, or takes back everything the source owned. */
    method RefreshOne(source: string, answer: Answer)
      requires source in owned && !answer.Escaped?
      modifies this
      ensures Value() == RefreshedOne(old(Value()), source, answer)
    {
      var previous := owned[source];
      var good := answer.Given?;
      if good {
        for i := 0 to |answer.actions|
          invariant good <==> forall k :: 0 <= k < i ==> answer.actions[k].valid
        {
          if !answer.actions[i].valid { good := false; }
        }
        if good {
          var identities := set a | a in answer.actions :: a.name;
          NamesCount(answer.actions);
          good := |identities| == |answer.actions| && identities !! actions.Keys - previous;
        }
      }
      if !good {
        actions := actions - previous;
        owned := owned[source := {}];
        errors := errors + {source};
        return;
      }
      var identities := set a | a in answer.actions :: a.name;
      actions := actions - (previous - identities);
      ghost var base := actions;
      for i := 0 to |answer.actions|
        invariant actions == WithActions(base, answer.actions[..i])
        invariant owned == old(owned) && errors == old(errors) && sources == old(sources) && manual == old(manual)
      {
        assert answer.actions[..i + 1][..i] == answer.actions[..i];
        actions := actions[answer.actions[i].name := answer.actions[i]];
      }
      assert answer.actions[..|answer.actions|] == answer.actions;
      owned := owned[source := identities];
      errors := errors - {source};
    }

    /** Asks every source in turn; an exception that is not expected leaves the method. */
    method RefreshSources(answers: string -> Answer) returns (ok: bool)
      requires forall source :: source in sources ==> source in owned
      modifies this
      ensures Value() == Refreshed(old(Value()), answers)
      ensures ok <==> Reached(old(sources), answers) == |old(sources)|
    {
      hide RefreshedOne, Reached;
      for i := 0 to |sources|
        invariant i <= Reached(old(sources), answers)
        invariant Value() == RefreshedUpTo(old(Value()), i, answers)
        invariant forall source :: source in sources ==> source in owned
      {
        if answers(sources[i]).Escaped? { return false; }
        RefreshedKeepsKeys(Value(), sources[i], answers(sources[i]));
        RefreshOne(sources[i], answers(sources[i]));
      }
      return true;
    }
  }

  // ---- ownership ----

  /** Every action has one owner: it was registered by hand and is kept as registered, or exactly one source owns it. */
  ghost predicate Inv(s: State) {
    && Distinct(s.sources) && (forall source :: source in s.sources <==> source in s.owned)
    && (forall n :: n in s.actions ==> s.actions[n].name == n)
    && (forall n :: n in s.manual ==> n in s.actions && s.actions[n] == s.manual[n] && !Owned(s, n))
    && (forall n :: n in s.actions ==> n in s.manual || Owned(s, n))
    && (forall source :: source in s.owned ==> s.owned[source] <= s.actions.Keys)
    && (forall a, b :: a in s.owned && b in s.owned && a != b ==> s.owned[a] !! s.owned[b])
    && (forall source :: source in s.errors ==> source in s.owned && s.owned[source] == {})
  }

  lemma NewRegistryIsSound()
    ensures Inv(NewRegistry())
  {}

  lemma RegisteringKeepsInv(s: State, a: Action)
    requires Inv(s)
    ensures Registered(s, a).Some? ==> Inv(Registered(s, a).value)
    ensures Replaced(s, a).Some? ==> Inv(Replaced(s, a).value)
  {
    var r := Registered(s, a);
    if r.Some? {
      forall n ensures Owned(r.value, n) <==> Owned(s, n) {}
    }
    var p := Replaced(s, a);
    if p.Some? {
      forall n ensures Owned(p.value, n) <==> Owned(s, n) {}
    }
  }

  lemma AddingSourceKeepsInv(s: State, source: string)
    requires Inv(s)
    ensures WithSource(s, source).Some? ==> Inv(WithSource(s, source).value)
  {
    var r := WithSource(s, source);
    if r.Some? {
      forall n ensures Owned(r.value, n) <==> Owned(s, n) {
        if o :| o in s.owned && n in s.owned[o] { assert o in r.value.owned && n in r.value.owned[o]; }
      }
    }
  }

  /** Unregistering keeps the ownership in order if and only if no source owns the name. */
  lemma UnregisteringKeepsInvIff(s: State, name: string)
    requires Inv(s)
    ensures Inv(Unregistered(s, name)) <==> !Owned(s, name)
  {
    hide Distinct;
    var r := Unregistered(s, name);
    forall n ensures Owned(r, n) <==> Owned(s, n) {
      if o :| o in s.owned && n in s.owned[o] { assert o in r.owned && n in r.owned[o]; }
    }
    if Owned(s, name) {
      var o :| o in s.owned && name in s.owned[o];
      assert o in r.owned && name in r.owned[o];
    } else {
      forall source | source in r.owned ensures r.owned[source] <= r.actions.Keys {
        assert name !in s.owned[source];
      }
    }
  }

  lemma NoNames()
    ensures Names([]) == {}
  {}

  lemma NamesSnoc(rest: seq<Action>, last: Action)
    requires DistinctNames(rest + [last])
    ensures DistinctNames(rest) && Names(rest + [last]) == Names(rest) + {last.name}
    ensures forall a :: a in rest ==> a.name != last.name
  {
    var all := rest + [last];
    forall i, j | 0 <= i < j < |rest| ensures rest[i].name != rest[j].name { assert all[i].name != all[j].name; }
    forall a | a in rest ensures a.name != last.name {
      var k :| 0 <= k < |rest| && rest[k] == a;
      assert all[k].name != all[|rest|].name;
    }
  }

  lemma {:induction false} WithActionsAt(m: map<string, Action>, actions: seq<Action>)
    requires DistinctNames(actions)
    ensures var r := WithActions(m, actions);
      && r.Keys == m.Keys + Names(actions)
      && (forall a :: a in actions ==> r[a.name] == a)
      && (forall n :: n in m && n !in Names(actions) ==> r[n] == m[n])
  {
    hide DistinctNames, Names;
    if actions != [] {
      var rest, last := actions[..|actions| - 1], actions[|actions| - 1];
      assert actions == rest + [last];
      NamesSnoc(rest, last);
      WithActionsAt(m, rest);
    } else {
      NoNames();
    }
  }

  /** What one source's refresh does to the registry when the source then owns `names`. */
  ghost predicate Updated(s: State, r: State, source: string, names: set<string>) {
    && source in s.owned && r.sources == s.sources && r.manual == s.manual && r.owned == s.owned[source := names]
    && names !! s.actions.Keys - s.owned[source]
    && r.actions.Keys == (s.actions.Keys - s.owned[source]) + names
    && (forall n :: n in s.actions && n !in s.owned[source] ==> r.actions[n] == s.actions[n])
    && (forall n :: n in names ==> r.actions[n].name == n)
    && (r.errors == s.errors - {source} || (r.errors == s.errors + {source} && names == {}))
  }

  lemma OwnedAfterUpdate(s: State, r: State, source: string, names: set<string>)
    requires Inv(s) && Updated(s, r, source, names)
    ensures forall n :: Owned(r, n) <==> n in names || (Owned(s, n) && n !in s.owned[source])
  {
    forall n ensures Owned(r, n) <==> n in names || (Owned(s, n) && n !in s.owned[source]) {
      if n in names { assert n in r.owned[source]; }
      if Owned(s, n) && n !in s.owned[source] {
        var o :| o in s.owned && n in s.owned[o];
        assert n in r.owned[o];
      }
      if Owned(r, n) && n !in names {
        var o :| o in r.owned && n in r.owned[o];
        assert n in s.owned[o] && s.owned[o] !! s.owned[source];
      }
    }
  }

  lemma UpdateKeepsInv(s: State, r: State, source: string, names: set<string>)
    requires Inv(s) && Updated(s, r, source, names)
    ensures Inv(r)
  {
    OwnedAfterUpdate(s, r, source, names);
    forall n | n in r.actions ensures n in r.manual || Owned(r, n) {
      if n !in names { assert n in s.actions; }
    }
    forall a, b | a in r.owned && b in r.owned && a != b ensures r.owned[a] !! r.owned[b] {
      assert a != source ==> s.owned[a] <= s.actions.Keys - s.owned[source];
      assert b != source ==> s.owned[b] <= s.actions.Keys - s.owned[source];
    }
  }

  /** The source owns exactly what it returned, and that is what the registry holds. */
  ghost predicate Installed(s: State, source: string, answer: Answer) {
    && answer.Given? && source in s.owned && source !in s.errors && s.owned[source] == Names(answer.actions)
    && forall a :: a in answer.actions ==> a.name in s.actions && s.actions[a.name] == a
  }

  lemma RefreshUpdates(s: State, source: string, answer: Answer)
    requires Inv(s) && source in s.owned && !answer.Escaped?
    ensures var r := RefreshedOne(s, source, answer);
      if Acceptable(s, source, answer) then
        Updated(s, r, source, Names(answer.actions)) && Installed(r, source, answer)
      else
        Updated(s, r, source, {}) && source in r.errors
  {
    hide Owned, Distinct, DistinctNames, WithActions;
    if Acceptable(s, source, answer) {
      WithActionsAt(s.actions - (s.owned[source] - Names(answer.actions)), answer.actions);
    }
  }

  /** The source owns nothing and is marked as failed. */
  predicate Emptied(s: State, source: string) { source in s.owned && s.owned[source] == {} && source in s.errors }

  /** One source's refresh: it either installs exactly what it returned or leaves the source with nothing and marked,
      and everybody else's actions stay as they were. */
  lemma RefreshIsAllOrNothing(s: State, source: string, answer: Answer)
    requires Inv(s) && source in s.owned && !answer.Escaped?
    ensures var r := RefreshedOne(s, source, answer);
      && Inv(r) && r.owned.Keys == s.owned.Keys && r.sources == s.sources && r.manual == s.manual
      && (forall o :: o in s.owned && o != source ==> r.owned[o] == s.owned[o] && (o in r.errors <==> o in s.errors))
      && (forall n :: n in s.actions && n !in s.owned[source] ==> n in r.actions && r.actions[n] == s.actions[n])
      && (if Acceptable(s, source, answer) then Installed(r, source, answer) else Emptied(r, source))
  {
    hide DistinctNames, Installed, Inv, RefreshedOne, Names;
    RefreshUpdates(s, source, answer);
    var names := if Acceptable(s, source, answer) then Names(answer.actions) else {};
    UpdateKeepsInv(s, RefreshedOne(s, source, answer), source, names);
  }

  /** A later source's refresh does not disturb an earlier one's actions. */
  lemma OthersStay(s: State, source: string, answer: Answer, other: string, given: Answer)
    requires Inv(s) && source in s.owned && other in s.owned && other != source && !answer.Escaped?
    ensures var r := RefreshedOne(s, source, answer);
      && (Installed(s, other, given) ==> Installed(r, other, given))
      && (Emptied(s, other) ==> Emptied(r, other))
  {
    hide RefreshedOne, Acceptable;
    RefreshIsAllOrNothing(s, source, answer);
    var r := RefreshedOne(s, source, answer);
    if Installed(s, other, given) {
      forall a | a in given.actions ensures a.name in r.actions && r.actions[a.name] == a {
        assert a.name in s.owned[other] && s.owned[other] !! s.owned[source];
      }
    }
  }

  ghost predicate Settled(s: State, source: string, answer: Answer) {
    Installed(s, source, answer) || Emptied(s, source)
  }

  lemma SourceIsKnown(s: State, k: nat)
    requires Inv(s) && k < |s.sources|
    ensures s.sources[k] in s.owned
  {
    assert s.sources[k] in s.sources;
  }

  lemma {:induction false} RefreshKeepsInv(s: State, n: nat, answers: string -> Answer)
    requires Inv(s) && n <= Reached(s.sources, answers)
    ensures var r := RefreshedUpTo(s, n, answers); Inv(r) && r.owned.Keys == s.owned.Keys && r.manual == s.manual
  {
    hide RefreshedOne, Installed, Acceptable, Emptied, Inv, Reached;
    if n > 0 {
      RefreshKeepsInv(s, n - 1, answers);
      SourceIsKnown(s, n - 1);
      RefreshIsAllOrNothing(RefreshedUpTo(s, n - 1, answers), s.sources[n - 1], answers(s.sources[n - 1]));
    }
  }

  lemma SourcesDiffer(s: State, i: nat, j: nat)
    requires Inv(s) && i < j < |s.sources|
    ensures s.sources[i] != s.sources[j]
  {}

  lemma {:induction false} RefreshSettles(s: State, n: nat, k: nat, answers: string -> Answer)
    requires Inv(s) && k < n <= Reached(s.sources, answers)
    ensures Settled(RefreshedUpTo(s, n, answers), s.sources[k], answers(s.sources[k]))
  {
    hide RefreshedOne, Installed, Acceptable, Emptied, Inv, Reached;
    var before, source := RefreshedUpTo(s, n - 1, answers), s.sources[n - 1];
    RefreshKeepsInv(s, n - 1, answers);
    SourceIsKnown(s, k);
    SourceIsKnown(s, n - 1);
    if k == n - 1 {
      RefreshIsAllOrNothing(before, source, answers(source));
    } else {
      RefreshSettles(s, n - 1, k, answers);
      SourcesDiffer(s, k, n - 1);
      OthersStay(before, source, answers(source), s.sources[k], answers(s.sources[k]));
    }
  }

  /** The source owns what it owned, with the same actions and the same mark. */
  ghost predicate Untouched(s: State, r: State, source: string) {
    && source in s.owned && source in r.owned && r.owned[source] == s.owned[source]
    && (source in r.errors <==> source in s.errors)
    && forall n :: n in s.owned[source] ==> n in s.actions && n in r.actions && r.actions[n] == s.actions[n]
  }

  lemma UntouchedBefore(s: State, source: string)
    requires Inv(s) && source in s.owned
    ensures Untouched(s, s, source)
  {}

  lemma UntouchedByAnother(s: State, t: State, source: string, answer: Answer, other: string)
    requires Inv(t) && source in t.owned && other != source && Untouched(s, t, other) && !answer.Escaped?
    ensures Untouched(s, RefreshedOne(t, source, answer), other)
  {
    hide RefreshedOne, Acceptable, Installed, Emptied;
    RefreshIsAllOrNothing(t, source, answer);
    assert t.owned[other] !! t.owned[source];
  }

  lemma {:induction false} RefreshLeavesLaterOnes(s: State, n: nat, k: nat, answers: string -> Answer)
    requires Inv(s) && n <= Reached(s.sources, answers) && n <= k < |s.sources|
    ensures Untouched(s, RefreshedUpTo(s, n, answers), s.sources[k])
  {
    hide RefreshedOne, Inv, Reached, Untouched;
    SourceIsKnown(s, k);
    if n == 0 {
      UntouchedBefore(s, s.sources[k]);
    } else {
      RefreshLeavesLaterOnes(s, n - 1, k, answers);
      RefreshKeepsInv(s, n - 1, answers);
      SourceIsKnown(s, n - 1);
      SourcesDiffer(s, n - 1, k);
      var last := s.sources[n - 1];
      UntouchedByAnother(s, RefreshedUpTo(s, n - 1, answers), last, answers(last), s.sources[k]);
    }
  }

  lemma UntouchedStaysSettled(s: State, r: State, source: string, answer: Answer)
    requires Inv(s) && Untouched(s, r, source)
    ensures Settled(r, source, answer) <==> Settled(s, source, answer)
  {}

  lemma ManualKept(s: State, r: State)
    requires Inv(s) && Inv(r) && r.manual == s.manual
    ensures forall name :: name in s.manual ==> name in r.actions && r.actions[name] == s.actions[name]
  {}

  /** A refresh, whatever the providers do: each source it gets to ends with exactly what its provider returned or with
      nothing and marked; the source whose provider escapes and all later ones keep what they had, unmarked if they
      were; and no action registered by hand is removed or overwritten. */
  lemma RefreshSettlesWhatItReaches(s: State, answers: string -> Answer)
    requires Inv(s)
    ensures var r, n := Refreshed(s, answers), Reached(s.sources, answers);
      && Inv(r)
      && (forall name :: name in s.manual ==> name in r.actions && r.actions[name] == s.actions[name])
      && (forall k :: 0 <= k < n ==> Settled(r, s.sources[k], answers(s.sources[k])))
      && (forall k :: n <= k < |s.sources| ==> Untouched(s, r, s.sources[k]))
  {
    hide Inv, RefreshedUpTo, Settled, Untouched, Reached;
    var n := Reached(s.sources, answers);
    RefreshKeepsInv(s, n, answers);
    ManualKept(s, Refreshed(s, answers));
    forall k | 0 <= k < n ensures Settled(Refreshed(s, answers), s.sources[k], answers(s.sources[k])) {
      RefreshSettles(s, n, k, answers);
    }
    forall k | n <= k < |s.sources| ensures Untouched(s, Refreshed(s, answers), s.sources[k]) {
      RefreshLeavesLaterOnes(s, n, k, answers);
    }
  }

  predicate Escapes(sources: seq<string>, answers: string -> Answer) {
    exists k | 0 <= k < |sources| :: answers(sources[k]).Escaped?
  }

  lemma ReachesAllIff(sources: seq<string>, answers: string -> Answer)
    ensures Reached(sources, answers) == |sources| <==> !Escapes(sources, answers)
  {}

  /** After a refresh every source is settled exactly if the ones it did not get to were settled already. */
  lemma RefreshSettlesEverySourceIff(s: State, answers: string -> Answer)
    requires Inv(s)
    ensures var r, n := Refreshed(s, answers), Reached(s.sources, answers);
      (forall k :: 0 <= k < |s.sources| ==> Settled(r, s.sources[k], answers(s.sources[k])))
      <==> (forall k :: n <= k < |s.sources| ==> Settled(s, s.sources[k], answers(s.sources[k])))
  {
    hide Inv, Refreshed, Settled, Untouched, Reached;
    var r, n := Refreshed(s, answers), Reached(s.sources, answers);
    RefreshSettlesWhatItReaches(s, answers);
    forall k | n <= k < |s.sources|
      ensures Settled(r, s.sources[k], answers(s.sources[k])) <==> Settled(s, s.sources[k], answers(s.sources[k]))
    {
      UntouchedStaysSettled(s, r, s.sources[k], answers(s.sources[k]));
    }
  }

  /** While no source is marked, a refresh settles every source exactly if no provider escapes. */
  lemma RefreshSettlesEverySourceUnlessOneEscapes(s: State, answers: string -> Answer)
    requires Inv(s) && s.errors == {}
    ensures (forall k :: 0 <= k < |s.sources| ==> Settled(Refreshed(s, answers), s.sources[k], answers(s.sources[k])))
      <==> !Escapes(s.sources, answers)
  {
    hide Inv, Refreshed, Reached;
    RefreshSettlesEverySourceIff(s, answers);
    ReachesAllIff(s.sources, answers);
    var n := Reached(s.sources, answers);
    if n < |s.sources| { assert !Settled(s, s.sources[n], answers(s.sources[n])); }
  }

  // ---- runs ----

  datatype Step =
    | RegisterStep(action: Action)
    | ReplaceStep(action: Action)
    | UnregisterStep(name: string)
    | SourceStep(source: string)
    | RefreshStep(answers: string -> Answer)

  function Next(s: State, step: Step): State {
    match step
    case RegisterStep(a) => if Registered(s, a).Some? then Registered(s, a).value else s
    case ReplaceStep(a) => if Replaced(s, a).Some? then Replaced(s, a).value else s
    case UnregisterStep(name) => Unregistered(s, name)
    case SourceStep(source) => if WithSource(s, source).Some? then WithSource(s, source).value else s
    case RefreshStep(answers) => Refreshed(s, answers)
  }

  function Run(s: State, steps: seq<Step>): State
    decreases |steps|
  {
    if steps == [] then s else Run(Next(s, steps[0]), steps[1..])
  }

  /** The step unregisters a name that a source owns. */
  predicate Takes(s: State, step: Step) { step.UnregisterStep? && Owned(s, step.name) }

  lemma NextKeepsInvIff(s: State, step: Step)
    requires Inv(s)
    ensures Inv(Next(s, step)) <==> !Takes(s, step)
  {
    hide Registered, Replaced, Unregistered, WithSource, RefreshedUpTo, Reached, Inv, Owned;
    match step
    case RegisterStep(a) => RegisteringKeepsInv(s, a);
    case ReplaceStep(a) => RegisteringKeepsInv(s, a);
    case UnregisterStep(name) => UnregisteringKeepsInvIff(s, name);
    case SourceStep(source) => AddingSourceKeepsInv(s, source);
    case RefreshStep(answers) => RefreshKeepsInv(s, Reached(s.sources, answers), answers);
  }

  predicate NoTaking(s: State, steps: seq<Step>)
    decreases |steps|
  {
    steps == [] || (!Takes(s, steps[0]) && NoTaking(Next(s, steps[0]), steps[1..]))
  }

  lemma {:induction false} RunKeepsOwnership(s: State, steps: seq<Step>)
    requires Inv(s) && NoTaking(s, steps)
    ensures Inv(Run(s, steps))
    decreases |steps|
  {
    hide Inv, Next, Takes;
    if steps != [] {
      NextKeepsInvIff(s, steps[0]);
      RunKeepsOwnership(Next(s, steps[0]), steps[1..]);
    }
  }

  /** From an empty registry, ownership stays in order along every run that leaves the sources' names to the sources,
      also when refreshes end early. */
  lemma EveryRunKeepsOwnership(steps: seq<Step>)
    requires NoTaking(NewRegistry(), steps)
    ensures Inv(Run(NewRegistry(), steps))
  {
    NewRegistryIsSound();
    RunKeepsOwnership(NewRegistry(), steps);
  }

  // ---- versions ----

  /** A replacement takes the place of an older version of the action, and of nothing else. */
  lemma ReplacementIsNewer(s: State, a: Action)
    ensures Replaced(s, a).Some? <==> a.valid && a.name in s.actions && s.actions[a.name].version < a.version
    ensures Replaced(s, a).Some? ==>
      var t := Replaced(s, a).value;
      && t.actions.Keys == s.actions.Keys && t.actions[a.name] == a
      && (forall n :: n in s.actions && n != a.name ==> t.actions[n] == s.actions[n])
      && t.sources == s.sources && t.owned == s.owned && t.errors == s.errors
  {}

  /** An action registered by hand is still there, in no older version. */
  predicate NoOlder(s: State, t: State, name: string)
    requires name in s.actions
  {
    name in t.manual && name in t.actions && s.actions[name].version <= t.actions[name].version
  }

  lemma RefreshKeepsManual(s: State, answers: string -> Answer, name: string)
    requires Inv(s) && name in s.manual
    ensures name in s.actions && NoOlder(s, Refreshed(s, answers), name)
  {
    hide RefreshedUpTo, Reached, Settled, Untouched, Owned;
    RefreshSettlesWhatItReaches(s, answers);
    RefreshKeepsInv(s, Reached(s.sources, answers), answers);
  }

  lemma NextKeepsVersion(s: State, step: Step, name: string)
    requires Inv(s) && name in s.manual && step != UnregisterStep(name)
    ensures name in s.actions && NoOlder(s, Next(s, step), name)
  {
    hide RefreshedUpTo, Reached, Owned;
    match step
    case RefreshStep(answers) => RefreshKeepsManual(s, answers, name);
    case ReplaceStep(a) => ReplacementIsNewer(s, a);
    case _ =>
  }

  lemma ManualIsThere(s: State, name: string)
    requires Inv(s) && name in s.manual
    ensures name in s.actions
  {}

  /** Along every run that leaves the sources' names to the sources and does not unregister it, an action registered by
      hand stays and its version never falls. */
  lemma {:induction false} VersionsNeverFall(s: State, steps: seq<Step>, name: string)
    requires Inv(s) && NoTaking(s, steps) && name in s.manual && UnregisterStep(name) !in steps
    ensures name in s.actions && NoOlder(s, Run(s, steps), name)
    decreases |steps|
  {
    hide Inv, Next, Takes;
    if steps != [] {
      NextKeepsInvIff(s, steps[0]);
      NextKeepsVersion(s, steps[0], name);
      VersionsNeverFall(Next(s, steps[0]), steps[1..], name);
    } else {
      ManualIsThere(s, name);
    }
  }

  // ---- an example ----

  function Offered(name: string): Answer { Given([Action(name, 1, true, 0)]) }

  /** Two sources with an action each; then the first provider escapes, and the second would have had nothing. */
  function EscapingRun(): seq<Step> {
    [SourceStep("p"), SourceStep("q"), RefreshStep(source => if source == "p" then Offered("a") else Offered("b")),
     RefreshStep(source => if source == "p" then Escaped else Given([]))]
  }

  function TwoSources(): State {
    State(map["a" := Action("a", 1, true, 0), "b" := Action("b", 1, true, 0)], ["p", "q"],
          map["p" := {"a"}, "q" := {"b"}], {}, map[])
  }

  function AddedSources(): State { State(map[], ["p", "q"], map["p" := {}, "q" := {}], {}, map[]) }

  lemma SourcesAdded()
    ensures Next(Next(NewRegistry(), EscapingRun()[0]), EscapingRun()[1])
      == AddedSources()
  {
    assert "p"[0] != "q"[0];
  }

  function OneOffered(): State {
    State(map["a" := Action("a", 1, true, 0)], ["p", "q"], map["p" := {"a"}, "q" := {}], {}, map[])
  }

  lemma OneName(a: Action)
    ensures Names([a]) == {a.name} && DistinctNames([a])
    ensures forall m :: WithActions(m, [a]) == m[a.name := a]
  {
    assert [a][..0] == [];
  }

  lemma FirstOffer()
    ensures RefreshedOne(AddedSources(), "p", Offered("a")) == OneOffered()
  {
    assert "p"[0] != "q"[0];
    OneName(Action("a", 1, true, 0));
  }

  lemma SecondOffer()
    ensures RefreshedOne(OneOffered(), "q", Offered("b")) == TwoSources()
  {
    assert "p"[0] != "q"[0] && "a"[0] != "b"[0];
    OneName(Action("b", 1, true, 0));
  }

  lemma ActionsOffered()
    ensures Next(AddedSources(), EscapingRun()[2]) == TwoSources()
  {
    hide RefreshedOne;
    assert "p"[0] != "q"[0];
    var s := AddedSources();
    var answers: string -> Answer := source => if source == "p" then Offered("a") else Offered("b");
    assert ["p", "q"][1..] == ["q"] && ["q"][1..] == [];
    assert Reached(s.sources, answers) == 2;
    FirstOffer();
    SecondOffer();
    assert RefreshedUpTo(s, 0, answers) == s && RefreshedUpTo(s, 1, answers) == OneOffered();
    assert RefreshedUpTo(s, 2, answers) == TwoSources();
  }

  lemma RunCons(s: State, steps: seq<Step>)
    requires steps != []
    ensures Run(s, steps) == Run(Next(s, steps[0]), steps[1..])
  {}

  /** After it both sources still have their old actions, and neither is marked. */
  lemma EscapeLeavesOldActions()
    ensures var answers: string -> Answer := source => if source == "p" then Escaped else Given([]);
      Reached(TwoSources().sources, answers) == 0 && Refreshed(TwoSources(), answers) == TwoSources()
    ensures Run(NewRegistry(), EscapingRun()) == TwoSources()
  {
    hide RefreshedOne;
    var t := EscapingRun();
    SourcesAdded();
    ActionsOffered();
    var s1 := Next(NewRegistry(), t[0]);
    var s2 := Next(s1, t[1]);
    var s3 := Next(s2, t[2]);
    assert t[1..][1..] == t[2..] && t[2..][1..] == t[3..] && t[3..][1..] == [];
    RunCons(NewRegistry(), t);
    RunCons(s1, t[1..]);
    RunCons(s2, t[2..]);
    RunCons(s3, t[3..]);
  }
}
