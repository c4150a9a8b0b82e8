/** What an imported script is as an adventure graph: when the validator accepts the draft, and what can be reached. */
module ScriptGraph {
  import opened Values
  import opened Gates
  import opened GraphModel
  import opened GraphValidation
  import opened GraphTraversal
  import opened GraphProjection
  import opened Reachability
  import opened ScriptImport

  /** The hash from which a choice's identifier is made: of the scene, the position of the choice and its target. */
  type Digest = (Id, nat, Id) -> string

  predicate IsHex(s: string) {
    |s| == 16 && forall i :: 0 <= i < |s| ==> '0' <= s[i] <= '9' || 'a' <= s[i] <= 'f'
  }

  ghost predicate DigestOk(digest: Digest) { forall id, k, to :: IsHex(digest(id, k, to)) }

  function LinkId(digest: Digest, id: Id, k: nat, to: Id): Id { "choice_" + digest(id, k, to) }

  function ChapterId(k: nat): Id { "ch_" + Decimal(k) }

  // ---- the record ----

  function LinkRecord(digest: Digest, n: Draft, k: nat): Json
    requires k < |n.links|
  {
    Obj(map[KTo := Str(n.links[k].to), KChoiceId := Str(LinkId(digest, n.id, k, n.links[k].to)),
            KChoiceLabel := Str(n.links[k].caption)])
  }

  function NextRecord(to: Id): Json { Obj(map[KTo := Str(to)]) }

  function LinkRecords(digest: Digest, n: Draft): seq<Json> {
    if n.links != [] then seq(|n.links|, k requires 0 <= k < |n.links| => LinkRecord(digest, n, k))
    else if n.next.Some? then [NextRecord(n.next.value)] else []
  }

  function DraftFields(digest: Digest, n: Draft): Fields {
    var base: Fields := map[
      KId := Str(n.id), KName := Str(n.name), KType := Str(if n.note then "reference" else "scene"),
      KChapterId := Str(ChapterId(n.chapter)), KDescription := Str(Strip(n.body)), KVisibility := Str("gm"),
      KOptional := Bool(n.note), KTransitions := Arr(LinkRecords(digest, n))];
    if n.links != [] then base[KChoiceMode := Str("exclusive")] else base
  }

  function ChapterRecord(k: nat, name: string): Json {
    Obj(map[KId := Str(ChapterId(k)), KName := Str(name), KVisibility := Str("public")])
  }

  function SchemaOf(s: Script): int { if exists n :: n in s.nodes && n.links != [] then 2 else 1 }

  function FirstScene(nodes: seq<Draft>): Id
    requires Scenes(nodes) != []
  {
    nodes[Scenes(nodes)[0]].id
  }

  function ScriptFields(digest: Digest, s: Script, stem: Id): Fields
    requires Scenes(s.nodes) != []
  {
    map[KSchemaVersion := Int(SchemaOf(s)), KKind := Str("adventure"), KId := Str(stem),
        KSourceRef := Str("user:" + stem), KAutomationLevel := Str("reference"),
        KFormat := Str("diceframe:adventure-graph-v2"), KVisibility := Str("public"),
        KChapters := Arr(seq(|s.chapters|, k requires 0 <= k < |s.chapters| => ChapterRecord(k + 1, s.chapters[k]))),
        KNodes := Arr(Map((n: Draft) => Obj(DraftFields(digest, n)), s.nodes)),
        KObjectives := Arr([]), KMilestones := Arr([]), KStartNodeIds := Arr([Str(FirstScene(s.nodes))]),
        KName := Str(s.title)]
  }

  // ---- the graph it reads as ----

  function LinkOf(digest: Digest, n: Draft, k: nat): Transition
    requires k < |n.links|
  {
    Transition(n.links[k].to, [], Some(Choice(LinkId(digest, n.id, k, n.links[k].to), Strip(n.links[k].caption))))
  }

  function LinksOf(digest: Digest, n: Draft): seq<Transition> {
    if n.links != [] then seq(|n.links|, k requires 0 <= k < |n.links| => LinkOf(digest, n, k))
    else if n.next.Some? then [Transition(n.next.value, [], None)] else []
  }

  function NodeOf(digest: Digest, n: Draft): Node {
    Node(n.id, if n.note then "reference" else "scene", Some(ChapterId(n.chapter)), Gm, n.note, n.name, Strip(n.body),
         LinksOf(digest, n), n.links != [], [], None, None, [])
  }

  function ChaptersOf(s: Script): seq<Chapter> {
    seq(|s.chapters|, k requires 0 <= k < |s.chapters| => Chapter(ChapterId(k + 1), s.chapters[k], Public))
  }

  function GraphOf(digest: Digest, s: Script, stem: Id): Graph
    requires Scenes(s.nodes) != []
  {
    Graph(stem, SchemaOf(s), NO_SEED, Public, ChaptersOf(s), Map((n: Draft) => NodeOf(digest, n), s.nodes), [], [],
          [FirstScene(s.nodes)])
  }

  // ---- when it is accepted ----

  predicate CaptionOk(caption: string) { Strip(caption) != "" && |caption| <= MAX_CHOICE_LABEL }

  /** The choices of a scene: not too many, readable captions, existing targets, identifiers that do not collide. */
  predicate LinksOk(digest: Digest, n: Draft, ids: seq<Id>) {
    && |n.links| <= MAX_TRANSITIONS_PER_NODE
    && (forall l :: l in n.links ==> CaptionOk(l.caption) && l.to in ids)
    && forall i, j :: 0 <= i < j < |n.links| ==>
         LinkId(digest, n.id, i, n.links[i].to) != LinkId(digest, n.id, j, n.links[j].to)
  }

  predicate ReadNodeOk(n: Draft, chapters: nat, ids: seq<Id>) {
    && DraftOk(n.(next := None), chapters)
    && (n.next.Some? ==> n.links == [] && !n.note && n.next.value in ids && IsId(n.next.value))
  }

  /** What reading leaves in a script. */
  predicate ReadOk(s: Script) {
    && 0 < |s.nodes| <= MAX_NODES && |s.chapters| <= MAX_CHAPTERS && Distinct(DraftIds(s.nodes))
    && Scenes(s.nodes) != []
    && (forall n :: n in s.nodes ==> ReadNodeOk(n, |s.chapters|, DraftIds(s.nodes)))
  }

  lemma NextSceneIn(nodes: seq<Draft>, i: nat)
    ensures NextScene(nodes, i).Some? ==>
              exists k | i < k < |nodes| :: !nodes[k].note && nodes[k].id == NextScene(nodes, i).value
    decreases |nodes| - i
  {
    if i + 1 < |nodes| && nodes[i + 1].note { NextSceneIn(nodes, i + 1); }
  }

  lemma {:induction false} SameNotes(a: seq<Draft>, b: seq<Draft>)
    requires |a| == |b| && forall k :: 0 <= k < |a| ==> a[k].note == b[k].note
    ensures Scenes(a) == Scenes(b)
  {
    if a != [] { SameNotes(a[..|a| - 1], b[..|b| - 1]); }
  }

  lemma LinkedSame(nodes: seq<Draft>)
    ensures DraftIds(Linked(nodes)) == DraftIds(nodes) && Scenes(Linked(nodes)) == Scenes(nodes)
  {
    SameNotes(nodes, Linked(nodes));
  }

  lemma NewScriptOk(title: string)
    ensures ScriptOk(NewScript(title))
  {}

  lemma FinishedIsOk(s: Script)
    requires ScriptOk(s) && s.nodes != []
    ensures ReadOk(s.(nodes := Linked(s.nodes)))
  {
    hide IsId, Scenes, Distinct, NextScene;
    var nodes := Linked(s.nodes);
    LinkedSame(s.nodes);
    AnyScene(s.nodes);
    forall n | n in nodes ensures ReadNodeOk(n, |s.chapters|, DraftIds(nodes)) {
      var i :| 0 <= i < |nodes| && nodes[i] == n;
      assert s.nodes[i] in s.nodes && DraftOk(s.nodes[i], |s.chapters|);
      NextSceneIn(s.nodes, i);
      if n.next.Some? {
        var k :| i < k < |nodes| && s.nodes[k].id == n.next.value;
        assert DraftIds(s.nodes)[k] == n.next.value && s.nodes[k] in s.nodes && DraftOk(s.nodes[k], |s.chapters|);
      }
    }
  }

  /** A script that is read leaves a draft in order. */
  lemma ParsedIsOk(title: string, lines: seq<Line>)
    requires forall line :: line in lines ==> LineOk(line)
    ensures Parsed(title, lines).Some? ==> ReadOk(Parsed(title, lines).value)
  {
    hide ScriptOk, Take, LineOk, WithNode, IsId, Linked;
    NewScriptOk(title);
    TakeAllKeepsOk(NewScript(title), lines);
    if Parsed(title, lines).Some? {
      var s := TakeAll(NewScript(title), lines).value;
      WithNodeKeepsOk(s, s.title, "", false);
      var t := if forall n :: n in s.nodes ==> n.note then WithNode(s, s.title, "", false).value else s;
      FinishedIsOk(t);
    }
  }

  // ---- reading the record back ----

  lemma EmptyGates(show: Show)
    ensures ReadGates(Arr([]), show) == Some([])
  {
    assert EncodeGates([]) == Arr([]);
    GatesRoundTrip([], show);
  }

  lemma LinkIdOk(digest: Digest, id: Id, k: nat, to: Id)
    requires DigestOk(digest)
    ensures IsId(LinkId(digest, id, k, to)) && |LinkId(digest, id, k, to)| <= MAX_CHOICE_ID
  {
    assert IsHex(digest(id, k, to));
  }

  lemma IdReads(id: Id, show: Show)
    requires IsId(id)
    ensures ReadId(Str(id), show) == Some(id)
  {}

  lemma LinkReads(digest: Digest, n: Draft, k: nat, show: Show)
    requires DigestOk(digest) && k < |n.links| && IsId(n.links[k].to)
    ensures ReadTransition(LinkRecord(digest, n, k), true, show)
      == if CaptionOk(n.links[k].caption) then Some(LinkOf(digest, n, k)) else None
  {
    hide IsId, Strip, ReadId, LinkId, ReadGates, IsHex;
    LinkIdOk(digest, n.id, k, n.links[k].to);
    EmptyGates(show);
    IdReads(n.links[k].to, show);
    IdReads(LinkId(digest, n.id, k, n.links[k].to), show);
    var f := LinkRecord(digest, n, k).fields;
    assert Get(f, KTo, Null) == Str(n.links[k].to) && Get(f, KConditions, Arr([])) == Arr([]);
    assert Get(f, KChoiceId, Null) == Str(LinkId(digest, n.id, k, n.links[k].to));
    assert Get(f, KChoiceLabel, Null) == Str(n.links[k].caption);
  }

  lemma NextReads(to: Id, show: Show)
    requires IsId(to)
    ensures ReadTransition(NextRecord(to), false, show) == Some(Transition(to, [], None))
  {
    hide IsId, ReadId, ReadGates;
    EmptyGates(show);
    IdReads(to, show);
    var f := NextRecord(to).fields;
    assert Get(f, KTo, Null) == Str(to) && Get(f, KConditions, Arr([])) == Arr([]);
  }

  predicate CaptionsOk(n: Draft) { forall l :: l in n.links ==> CaptionOk(l.caption) }

  lemma LinksRead(digest: Digest, n: Draft, chapters: nat, ids: seq<Id>, show: Show)
    requires DigestOk(digest) && ReadNodeOk(n, chapters, ids)
    ensures ReadTransitions(Arr(LinkRecords(digest, n)), n.links != [], show)
      == if CaptionsOk(n) then Some(LinksOf(digest, n)) else None
  {
    hide IsId, ReadTransition, LinkRecord, LinkOf, NextRecord, CaptionOk, IsHex, DigestOk;
    var raw, r := Arr(LinkRecords(digest, n)), ReadTransitions(Arr(LinkRecords(digest, n)), n.links != [], show);
    if n.links != [] {
      forall k | 0 <= k < |n.links|
        ensures ReadTransition(raw.items[k], true, show)
          == if CaptionOk(n.links[k].caption) then Some(LinkOf(digest, n, k)) else None
      {
        assert n.links[k] in n.links;
        LinkReads(digest, n, k, show);
      }
      if CaptionsOk(n) {
        assert r.Some? && r.value == LinksOf(digest, n);
      } else {
        var l :| l in n.links && !CaptionOk(l.caption);
        var k :| 0 <= k < |n.links| && n.links[k] == l;
        assert ReadTransition(raw.items[k], true, show).None?;
      }
    } else {
      if n.next.Some? { NextReads(n.next.value, show); }
      assert r.Some? && r.value == LinksOf(digest, n);
    }
  }

  lemma DraftNamesHold(digest: Digest, n: Draft)
    ensures var f := DraftFields(digest, n);
      && Get(f, KId, Null) == Str(n.id) && Get(f, KType, Null) == Str(if n.note then "reference" else "scene")
      && Get(f, KChapterId, Null) == Str(ChapterId(n.chapter)) && Get(f, KVisibility, Str("public")) == Str("gm")
      && Get(f, KOptional, Bool(false)) == Bool(n.note) && Get(f, KName, Null) == Str(n.name)
      && Get(f, KDescription, Null) == Str(Strip(n.body))
  {
    hide Strip, ChapterId, LinkRecords;
  }

  lemma DraftLinksHold(digest: Digest, n: Draft)
    ensures var f := DraftFields(digest, n);
      && Get(f, KChoiceMode, Str("parallel")) == Str(if n.links != [] then "exclusive" else "parallel")
      && Get(f, KTransitions, Arr([])) == Arr(LinkRecords(digest, n))
      && Get(f, KOnComplete, Null) == Null && Get(f, KSceneRef, Null) == Null
      && Get(f, KEncounterRef, Null) == Null && Get(f, KNpcRefs, Arr([])) == Arr([])
  {
    hide Strip, ChapterId, LinkRecords;
  }

  lemma DraftKeys(digest: Digest, n: Draft, schema: int)
    requires schema == 2 || n.links == []
    ensures DraftFields(digest, n).Keys <= NodeFields(schema)
  {
    hide Strip, ChapterId, LinkRecords;
  }

  lemma ChapterIdOk(k: nat)
    ensures IsId(ChapterId(k))
  {}

  lemma DraftScalars(n: Draft, show: Show)
    ensures ReadStr(Str(if n.note then "reference" else "scene")) == Some(if n.note then "reference" else "scene")
    ensures ReadVisibility(Str("gm")) == Some(Gm) && Text(Str(n.name), show) == n.name
    ensures Text(Str(Strip(n.body)), show) == Strip(n.body) && Truthy(Bool(n.note)) == n.note
    ensures ReadMode(Str(if n.links != [] then "exclusive" else "parallel")) == Some(n.links != [])
    ensures ReadOutcomes(Null, show) == Some([]) && ReadStrs(Arr([])) == Some([]) && ReadOptionalRef(Null, show) == None
    ensures ReadOptionalId(Str(ChapterId(n.chapter)), show) == Some(Some(ChapterId(n.chapter)))
  {
    hide Strip, ChapterId;
    assert |"public"| == 6 && |"gm"| == 2 && |"parallel"| == 8 && |"exclusive"| == 9;
    ChapterIdOk(n.chapter);
  }

  lemma BadLinks(f: Fields, exclusive: bool, show: Show)
    requires ReadMode(Get(f, KChoiceMode, Str("parallel"))) == Some(exclusive)
    requires ReadTransitions(Get(f, KTransitions, Arr([])), exclusive, show).None?
    ensures NodeFromFields(f, show).None?
  {
    hide ReadMode, Get, ReadTransitions, ReadId, ReadStr, ReadOptionalId, ReadVisibility, ReadOutcomes, ReadStrs, Text,
         ReadOptionalRef, Truthy;
  }

  lemma DraftReads(digest: Digest, n: Draft, chapters: nat, ids: seq<Id>, show: Show)
    requires DigestOk(digest) && ReadNodeOk(n, chapters, ids)
    ensures NodeFromFields(DraftFields(digest, n), show) == if CaptionsOk(n) then Some(NodeOf(digest, n)) else None
  {
    hide IsId, LinkRecords, LinksOf, CaptionsOk, Strip, ChapterId, Get, ReadTransitions, NodeFromFields, DraftFields,
         ReadId, ReadStr, ReadVisibility, Text, Truthy, ReadMode, ReadOutcomes, ReadStrs, ReadOptionalRef,
         ReadOptionalId, DigestOk;
    LinksRead(digest, n, chapters, ids, show);
    DraftNamesHold(digest, n);
    DraftLinksHold(digest, n);
    DraftScalars(n, show);
    IdReads(n.id, show);
    if CaptionsOk(n) {
      NodeFieldsRead(DraftFields(digest, n), NodeOf(digest, n), show);
    } else {
      BadLinks(DraftFields(digest, n), n.links != [], show);
    }
  }

  lemma ChapterFound(s: Script, k: nat)
    requires 1 <= k <= |s.chapters|
    ensures exists c :: c in ChaptersOf(s) && c.id == ChapterId(k)
  {
    assert ChaptersOf(s)[k - 1].id == ChapterId(k);
  }

  /** Identifiers and number of a scene's choices. */
  predicate CountOk(digest: Digest, n: Draft) {
    && |n.links| <= MAX_TRANSITIONS_PER_NODE
    && forall i, j :: 0 <= i < j < |n.links| ==>
         LinkId(digest, n.id, i, n.links[i].to) != LinkId(digest, n.id, j, n.links[j].to)
  }

  lemma StripShort(s: string)
    ensures |Strip(s)| <= |s| && Strip(Strip(s)) == Strip(s)
  {}

  lemma LinkOk(digest: Digest, n: Draft, k: nat)
    requires DigestOk(digest) && k < |n.links| && IsId(n.links[k].to) && CaptionOk(n.links[k].caption)
    ensures TransitionOk(LinkOf(digest, n, k), true)
  {
    hide IsId, LinkId;
    LinkIdOk(digest, n.id, k, n.links[k].to);
    StripShort(n.links[k].caption);
  }

  lemma PlainLinkOk(to: Id)
    requires IsId(to)
    ensures TransitionOk(Transition(to, [], None), false)
  {}

  lemma ChoicesDistinctIff(digest: Digest, n: Draft)
    requires n.links != []
    ensures forall t :: t in LinksOf(digest, n) ==> t.choice.Some?
    ensures DistinctChoices(LinksOf(digest, n)) <==> forall i, j :: 0 <= i < j < |n.links| ==>
              LinkId(digest, n.id, i, n.links[i].to) != LinkId(digest, n.id, j, n.links[j].to)
  {
    hide LinkId, Strip;
    var ts := LinksOf(digest, n);
    forall k | 0 <= k < |ts|
      ensures ts[k].choice.Some? && ts[k].choice.value.id == LinkId(digest, n.id, k, n.links[k].to) {}
  }

  lemma DraftNodeOkIff(digest: Digest, n: Draft, s: Script)
    requires DigestOk(digest) && ReadNodeOk(n, |s.chapters|, DraftIds(s.nodes)) && CaptionsOk(n)
    requires n.links != [] ==> SchemaOf(s) == 2
    ensures NodeOk(NodeOf(digest, n), SchemaOf(s), ChaptersOf(s)) <==> CountOk(digest, n)
  {
    hide IsId, LinkId, Strip, ChapterId, ChaptersOf, IsRef, SchemaOf, DigestOk, TransitionOk, LinkOf;
    var node := NodeOf(digest, n);
    ChapterFound(s, n.chapter);
    assert |"scene"| == 5 && |"reference"| == 9 && |ENDING| == 6;
    forall t | t in node.transitions ensures TransitionOk(t, node.exclusive) {
      var k :| 0 <= k < |node.transitions| && node.transitions[k] == t;
      if n.links != [] {
        assert n.links[k] in n.links;
        LinkOk(digest, n, k);
      } else {
        PlainLinkOk(n.next.value);
      }
    }
    if n.links != [] { ChoicesDistinctIff(digest, n); }
  }

  // ---- acceptance ----

  lemma SchemaWithLinks(s: Script, n: Draft)
    requires n in s.nodes && n.links != []
    ensures SchemaOf(s) == 2
  {}

  /** The choices of every scene are in order. */
  predicate AllLinksOk(digest: Digest, s: Script) {
    forall n :: n in s.nodes ==> LinksOk(digest, n, DraftIds(s.nodes))
  }

  /** What the validator checks of a node on its own. */
  predicate SelfOk(digest: Digest, n: Draft) { CaptionsOk(n) && CountOk(digest, n) }

  predicate TargetsOk(n: Draft, ids: seq<Id>) { forall l :: l in n.links ==> l.to in ids }

  lemma LinksOkSplits(digest: Digest, n: Draft, ids: seq<Id>)
    ensures LinksOk(digest, n, ids) <==> SelfOk(digest, n) && TargetsOk(n, ids)
  {
    hide CaptionOk, LinkId;
  }

  lemma NodeReadsIff(digest: Digest, s: Script, n: Draft, show: Show)
    requires DigestOk(digest) && ReadOk(s) && n in s.nodes
    ensures ReadNode(Obj(DraftFields(digest, n)), SchemaOf(s), ChaptersOf(s), show)
      == if SelfOk(digest, n) then Some(NodeOf(digest, n)) else None
  {
    hide IsId, DraftFields, NodeOf, NodeFields, CaptionsOk, CountOk, SchemaOf, ChaptersOf, NodeFromFields, NodeOk,
         ReadNodeOk, DigestOk;
    if n.links != [] { SchemaWithLinks(s, n); }
    DraftKeys(digest, n, SchemaOf(s));
    DraftReads(digest, n, |s.chapters|, DraftIds(s.nodes), show);
    if CaptionsOk(n) { DraftNodeOkIff(digest, n, s); }
  }

  function NodeRecords(digest: Digest, s: Script): Json { Arr(Map((n: Draft) => Obj(DraftFields(digest, n)), s.nodes)) }

  function NodesOf(digest: Digest, s: Script): seq<Node> { Map((n: Draft) => NodeOf(digest, n), s.nodes) }

  lemma NodesReadIff(digest: Digest, s: Script, show: Show)
    requires DigestOk(digest) && ReadOk(s)
    ensures ReadNodes(NodeRecords(digest, s), SchemaOf(s), ChaptersOf(s), show)
      == if forall n :: n in s.nodes ==> SelfOk(digest, n) then Some(NodesOf(digest, s)) else None
  {
    hide DraftFields, NodeOf, SelfOk, SchemaOf, ChaptersOf, ReadNode, ReadOk, DigestOk;
    var r := ReadNodes(NodeRecords(digest, s), SchemaOf(s), ChaptersOf(s), show);
    forall k | 0 <= k < |s.nodes|
      ensures ReadNode(NodeRecords(digest, s).items[k], SchemaOf(s), ChaptersOf(s), show)
        == if SelfOk(digest, s.nodes[k]) then Some(NodeOf(digest, s.nodes[k])) else None
    {
      NodeReadsIff(digest, s, s.nodes[k], show);
    }
    if forall n :: n in s.nodes ==> SelfOk(digest, n) {
      assert r.Some? && r.value == NodesOf(digest, s);
    } else {
      var n :| n in s.nodes && !SelfOk(digest, n);
      var k :| 0 <= k < |s.nodes| && s.nodes[k] == n;
      assert ReadNode(NodeRecords(digest, s).items[k], SchemaOf(s), ChaptersOf(s), show).None?;
    }
  }

  lemma ChaptersRead(s: Script, show: Show)
    ensures var records := seq(|s.chapters|, k requires 0 <= k < |s.chapters| => ChapterRecord(k + 1, s.chapters[k]));
      ReadChapters(Arr(records), show)
      == Some(ChaptersOf(s))
  {
    hide ChapterId, IsId, ReadId;
    var raw := Arr(seq(|s.chapters|, k requires 0 <= k < |s.chapters| => ChapterRecord(k + 1, s.chapters[k])));
    forall k | 0 <= k < |s.chapters| ensures ReadChapter(raw.items[k], show) == Some(ChaptersOf(s)[k]) {
      ChapterIdOk(k + 1);
      IdReads(ChapterId(k + 1), show);
      var f := raw.items[k].fields;
      assert Get(f, KId, Null) == Str(ChapterId(k + 1)) && Get(f, KName, Null) == Str(s.chapters[k]);
      assert Get(f, KVisibility, Str("public")) == Str("public");
    }
    var r := ReadChapters(raw, show);
    assert r.Some? && r.value == ChaptersOf(s);
  }

  lemma ScriptFieldsHold(digest: Digest, s: Script, stem: Id)
    requires Scenes(s.nodes) != []
    ensures var f := ScriptFields(digest, s, stem);
      && Get(f, KId, Null) == Str(stem) && Get(f, KSchemaVersion, Int(1)) == Int(SchemaOf(s))
      && Get(f, KVisibility, Str("public")) == Str("public")
      && Get(f, KChapters, Arr([]))
         == Arr(seq(|s.chapters|, k requires 0 <= k < |s.chapters| => ChapterRecord(k + 1, s.chapters[k])))
      && Get(f, KNodes, Arr([])) == NodeRecords(digest, s)
  {
    hide SchemaOf, ChapterRecord, FirstScene, DraftFields;
  }

  lemma ScriptListsHold(digest: Digest, s: Script, stem: Id)
    requires Scenes(s.nodes) != []
    ensures var f := ScriptFields(digest, s, stem);
      && Get(f, KStartNodeIds, Arr([])) == Arr([Str(FirstScene(s.nodes))])
      && Get(f, KObjectives, Arr([])) == Arr([]) && Get(f, KMilestones, Arr([])) == Arr([])
      && Get(f, KWorldSeed, Null) == Null
  {
    hide SchemaOf, ChapterRecord, FirstScene, DraftFields;
  }

  lemma ScriptKeys(digest: Digest, s: Script, stem: Id)
    requires Scenes(s.nodes) != []
    ensures ScriptFields(digest, s, stem).Keys <= GRAPH_FIELDS
  {
    hide SchemaOf, ChapterRecord, FirstScene, DraftFields;
  }

  lemma FirstSceneOk(s: Script)
    requires ReadOk(s)
    ensures IsId(FirstScene(s.nodes)) && FirstScene(s.nodes) in DraftIds(s.nodes)
  {
    hide Scenes, IsId;
    var k := Scenes(s.nodes)[0];
    assert ReadNodeOk(s.nodes[k], |s.chapters|, DraftIds(s.nodes));
    assert DraftIds(s.nodes)[k] == FirstScene(s.nodes);
  }

  lemma IntReads(n: int)
    ensures ReadInt(Int(n)) == Some(n)
  {}

  lemma ReadScenes(s: Script)
    requires ReadOk(s)
    ensures Scenes(s.nodes) != []
  {}

  lemma BadNodes(f: Fields, schema: int, chapters: seq<Chapter>, show: Show)
    requires ReadInt(Get(f, KSchemaVersion, Int(1))) == Some(schema)
    requires ReadChapters(Get(f, KChapters, Arr([])), show) == Some(chapters)
    requires ReadNodes(Get(f, KNodes, Arr([])), schema, chapters, show).None?
    ensures GraphFromFields(f, show).None?
  {
    hide Get, ReadInt, ReadChapters, ReadNodes, ReadId, ReadVisibility, ReadIds, ReadGoals, ReadSeed;
  }

  lemma ScriptReads(digest: Digest, s: Script, stem: Id, show: Show)
    requires DigestOk(digest) && ReadOk(s) && IsId(stem)
    ensures GraphFromFields(ScriptFields(digest, s, stem), show)
      == if forall n :: n in s.nodes ==> SelfOk(digest, n) then Some(GraphOf(digest, s, stem)) else None
  {
    hide IsId, SelfOk, SchemaOf, ChapterRecord, ChaptersOf, FirstScene, DraftFields, NodeOf, Get, ScriptFields,
         ReadNodes, ReadChapters, ReadGoals, ReadIds, ReadSeed, ReadId, GraphFromFields, ReadVisibility, ReadInt,
         ReadOk, Scenes, DigestOk, NodeRecords;
    ReadScenes(s);
    ScriptFieldsHold(digest, s, stem);
    ScriptListsHold(digest, s, stem);
    ChaptersRead(s, show);
    NodesReadIff(digest, s, show);
    FirstSceneOk(s);
    IdReads(stem, show);
    IdsRoundTrip([FirstScene(s.nodes)], show);
    assert EncodeStrs([FirstScene(s.nodes)]) == Arr([Str(FirstScene(s.nodes))]);
    EmptyListsRead(NodesOf(digest, s), show);
    IntReads(SchemaOf(s));
    if forall n :: n in s.nodes ==> SelfOk(digest, n) {
      GraphFieldsRead(ScriptFields(digest, s, stem), GraphOf(digest, s, stem), show);
    } else {
      BadNodes(ScriptFields(digest, s, stem), SchemaOf(s), ChaptersOf(s), show);
    }
  }

  lemma NodesOfIds(digest: Digest, s: Script)
    ensures NodeIds(NodesOf(digest, s)) == DraftIds(s.nodes)
  {
    hide LinksOf;
  }

  predicate Leads(n: Node, ids: seq<Id>) { forall t :: t in n.transitions ==> t.to in ids }

  lemma TargetsExistLeads(nodes: seq<Node>)
    ensures TargetsExist(nodes) <==> forall k :: 0 <= k < |nodes| ==> Leads(nodes[k], NodeIds(nodes))
  {
    hide NodeIds;
    if TargetsExist(nodes) {
      forall k | 0 <= k < |nodes| ensures Leads(nodes[k], NodeIds(nodes)) { assert nodes[k] in nodes; }
    }
  }

  lemma LinksLeadIff(digest: Digest, n: Draft, chapters: nat, ids: seq<Id>)
    requires ReadNodeOk(n, chapters, ids)
    ensures Leads(NodeOf(digest, n), ids) <==> TargetsOk(n, ids)
  {
    hide IsId, LinkId, Strip, ChapterId;
    if n.links != [] {
      if TargetsOk(n, ids) {
        forall t | t in LinksOf(digest, n) ensures t.to in ids {
          var k :| 0 <= k < |n.links| && LinksOf(digest, n)[k] == t;
          assert n.links[k] in n.links;
        }
      } else {
        var l :| l in n.links && l.to !in ids;
        var k :| 0 <= k < |n.links| && n.links[k] == l;
        assert LinksOf(digest, n)[k].to == l.to;
      }
    }
  }

  lemma TargetsExistIff(digest: Digest, s: Script)
    requires ReadOk(s)
    ensures TargetsExist(NodesOf(digest, s)) <==> forall n :: n in s.nodes ==> TargetsOk(n, DraftIds(s.nodes))
  {
    hide Scenes, Distinct, ReadNodeOk, NodeOf, DraftIds, NodeIds, TargetsOk, TargetsExist, Leads;
    NodesOfIds(digest, s);
    var nodes, ids := NodesOf(digest, s), DraftIds(s.nodes);
    TargetsExistLeads(nodes);
    forall k | 0 <= k < |nodes| ensures Leads(nodes[k], ids) <==> TargetsOk(s.nodes[k], ids) {
      assert s.nodes[k] in s.nodes;
      LinksLeadIff(digest, s.nodes[k], |s.chapters|, ids);
    }
  }

  lemma ChapterIdsDistinct(s: Script)
    ensures Distinct(ChapterIds(ChaptersOf(s)))
  {
    hide Decimal;
    var ids := ChapterIds(ChaptersOf(s));
    forall i, j | 0 <= i < j < |ids| ensures ids[i] != ids[j] {
      DecimalInjective(i + 1, j + 1);
      assert ids[i][3..] == Decimal(i + 1) && ids[j][3..] == Decimal(j + 1);
    }
  }

  lemma NoGoals(nodes: seq<Node>)
    ensures GoalsOk([], nodes, MAX_OBJECTIVES) && GoalsOk([], nodes, MAX_MILESTONES) && SeedOk(NO_SEED)
  {}

  lemma ChaptersHaveIds(s: Script)
    ensures forall c :: c in ChaptersOf(s) ==> IsId(c.id)
  {
    hide ChapterId, IsId;
    forall c | c in ChaptersOf(s) ensures IsId(c.id) {
      var k :| 0 <= k < |s.chapters| && ChaptersOf(s)[k] == c;
      ChapterIdOk(k + 1);
    }
  }

  lemma NodeIsOk(digest: Digest, s: Script, n: Draft)
    requires DigestOk(digest) && ReadOk(s) && n in s.nodes && SelfOk(digest, n)
    ensures NodeOk(NodeOf(digest, n), SchemaOf(s), ChaptersOf(s))
  {
    hide NodeOf, NodeOk, ReadNodeOk, CaptionsOk, CountOk, ChaptersOf, SchemaOf, DigestOk, Scenes, Distinct;
    if n.links != [] { SchemaWithLinks(s, n); }
    DraftNodeOkIff(digest, n, s);
  }

  lemma ScriptGraphWellFormedIff(digest: Digest, s: Script, stem: Id)
    requires DigestOk(digest) && ReadOk(s) && IsId(stem) && forall n :: n in s.nodes ==> SelfOk(digest, n)
    ensures WellFormed(GraphOf(digest, s, stem)) <==> forall n :: n in s.nodes ==> TargetsOk(n, DraftIds(s.nodes))
  {
    hide IsId, SelfOk, NodeOf, FirstScene, Scenes, Distinct, ReadNodeOk, ChapterIds, TargetsExist, NodeOk,
         TargetsOk, DigestOk;
    var g := GraphOf(digest, s, stem);
    TargetsExistIff(digest, s);
    assert g.nodes == NodesOf(digest, s);
    NodesOfIds(digest, s);
    FirstSceneOk(s);
    ChapterIdsDistinct(s);
    ChaptersHaveIds(s);
    forall m | m in g.nodes ensures NodeOk(m, g.schema, g.chapters) {
      var i :| 0 <= i < |s.nodes| && g.nodes[i] == m;
      NodeIsOk(digest, s, s.nodes[i]);
    }
    NoGoals(g.nodes);
  }

  /** The validator's verdict on a script's draft, for all scripts: it is accepted exactly if every scene's choices are
      in order, and then as the graph of the script. */
  lemma DraftAcceptedIff(digest: Digest, s: Script, stem: Id, show: Show)
    requires DigestOk(digest) && ReadOk(s) && IsId(stem)
    ensures Validated(Obj(ScriptFields(digest, s, stem)), show)
      == if AllLinksOk(digest, s) then Some(GraphOf(digest, s, stem)) else None
  {
    hide IsId, SelfOk, TargetsOk, GraphFromFields, ScriptFields, GraphOf, WellFormed, LinksOk, ReadNodeOk, DigestOk,
         Scenes, Distinct;
    ScriptKeys(digest, s, stem);
    ScriptReads(digest, s, stem, show);
    forall n | n in s.nodes
      ensures LinksOk(digest, n, DraftIds(s.nodes)) <==> SelfOk(digest, n) && TargetsOk(n, DraftIds(s.nodes))
    {
      LinksOkSplits(digest, n, DraftIds(s.nodes));
    }
    if forall n :: n in s.nodes ==> SelfOk(digest, n) { ScriptGraphWellFormedIff(digest, s, stem); }
  }

  predicate Linkless(nodes: seq<Draft>) { forall n :: n in nodes ==> n.links == [] }

  lemma LinkedLinkless(nodes: seq<Draft>)
    requires Linkless(nodes)
    ensures Linkless(Linked(nodes))
  {
    hide NextScene;
    forall n | n in Linked(nodes) ensures n.links == [] {
      var i :| 0 <= i < |nodes| && Linked(nodes)[i] == n;
      assert nodes[i] in nodes;
    }
  }

  lemma WithNodeLinkless(s: Script, name: string, id: string, note: bool)
    requires Linkless(s.nodes)
    ensures WithNode(s, name, id, note).Some? ==> Linkless(WithNode(s, name, id, note).value.nodes)
  {}

  lemma OpenedLinkless(s: Script)
    requires Linkless(s.nodes)
    ensures Opened(s).Some? ==> Linkless(Opened(s).value.nodes)
  {
    hide WithNode, Linkless;
    WithNodeLinkless(s, s.title, "", false);
  }

  lemma ProseLinkless(s: Script, text: string)
    requires Linkless(s.nodes)
    ensures WithProse(s, text).Some? ==> Linkless(WithProse(s, text).value.nodes)
  {
    hide Opened;
    OpenedLinkless(s);
  }

  lemma SetBodyLinkless(nodes: seq<Draft>, body: string)
    requires Linkless(nodes) && nodes != []
    ensures var k := |nodes| - 1; Linkless(nodes[k := nodes[k].(body := body)])
  {}

  lemma TakeLinkless(s: Script, line: Line)
    requires Linkless(s.nodes) && !line.ChoiceLine?
    ensures Take(s, line).Some? ==> Linkless(Take(s, line).value.nodes)
  {
    hide Opened, WithNode, WithProse;
    OpenedLinkless(s);
    if line.FenceLine? {
      var fence := if s.fence == Some(line.tilde) then None else if s.fence.None? then Some(line.tilde) else s.fence;
      ProseLinkless(s.(fence := fence), line.text);
    } else {
      ProseLinkless(s, line.text);
      if line.Heading? {
        WithNodeLinkless(s, line.name, "", false);
        if line.anchor.Some? { WithNodeLinkless(s, line.anchor.value.rest, line.anchor.value.id, false); }
      }
      if Opened(s).Some? {
        var t := Opened(s).value;
        ProseLinkless(t, line.text);
        if HasCurrent(t) {
          var name := t.nodes[t.current.value].name + NOTE_SUFFIX;
          WithNodeLinkless(t, name, "", true);
          NodeAdded(t, name, "", true);
          if WithNode(t, name, "", true).Some? && line.GmNote? {
            SetBodyLinkless(WithNode(t, name, "", true).value.nodes, line.note);
          }
        }
      }
    }
  }

  lemma {:induction false} TakeAllLinkless(s: Script, lines: seq<Line>)
    requires Linkless(s.nodes) && forall line :: line in lines ==> !line.ChoiceLine?
    ensures TakeAll(s, lines).Some? ==> Linkless(TakeAll(s, lines).value.nodes)
  {
    hide Take, Linkless;
    if lines != [] {
      TakeAllLinkless(s, lines[..|lines| - 1]);
      if TakeAll(s, lines[..|lines| - 1]).Some? {
        TakeLinkless(TakeAll(s, lines[..|lines| - 1]).value, lines[|lines| - 1]);
      }
    }
  }

  lemma NoLinksWithoutChoices(title: string, lines: seq<Line>)
    requires forall line :: line in lines ==> !line.ChoiceLine?
    ensures Parsed(title, lines).Some? ==> Linkless(Parsed(title, lines).value.nodes)
  {
    TakeAllLinkless(NewScript(title), lines);
    if Parsed(title, lines).Some? {
      var s := TakeAll(NewScript(title), lines).value;
      var t := if forall n :: n in s.nodes ==> n.note then WithNode(s, s.title, "", false).value else s;
      WithNodeLinkless(s, s.title, "", false);
      LinkedLinkless(t.nodes);
    }
  }

  /** A script without choices is always accepted once it has been read. */
  lemma ScriptsWithoutChoicesValidate(digest: Digest, title: string, lines: seq<Line>, stem: Id, show: Show)
    requires DigestOk(digest) && IsId(stem)
    requires forall line :: line in lines ==> LineOk(line) && !line.ChoiceLine?
    ensures Parsed(title, lines).Some? ==>
      var s := Parsed(title, lines).value;
      ReadOk(s) && Validated(Obj(ScriptFields(digest, s, stem)), show) == Some(GraphOf(digest, s, stem))
  {
    hide LineOk, ReadOk, ScriptFields, GraphOf, Validated, Finished, DigestOk, IsId, TakeAll;
    ParsedIsOk(title, lines);
    if Parsed(title, lines).Some? {
      var s := Parsed(title, lines).value;
      NoLinksWithoutChoices(title, lines);
      DraftAcceptedIff(digest, s, stem, show);
    }
  }

  // ---- what can be reached, and what players see ----

  lemma DraftEdge(digest: Digest, s: Script, i: nat, to: Id)
    requires ReadOk(s) && i < |s.nodes| && to in DraftIds(s.nodes)
    requires exists t :: t in LinksOf(digest, s.nodes[i]) && t.to == to
    ensures (s.nodes[i].id, to) in GraphEdges(NodesOf(digest, s))
  {
    hide LinksOf, ReadNodeOk, Scenes;
    var nodes := NodesOf(digest, s);
    NodesOfIds(digest, s);
    assert nodes[i] in nodes && NodeIds(nodes)[i] == s.nodes[i].id;
    NodeMapUnique(nodes, nodes[i]);
    assert to in NodeMap(nodes).Keys;
  }

  /** Every scene up to and including the first one with choices can be reached from the start; so in a script without
      choices, every scene can. */
  lemma {:induction false} ScenesBeforeChoicesAreReachable(digest: Digest, s: Script, stem: Id, m: nat)
    requires ReadOk(s) && s.nodes == Linked(s.nodes) && m < |Scenes(s.nodes)|
    requires forall k :: 0 <= k < m ==> s.nodes[Scenes(s.nodes)[k]].links == []
    ensures var g := GraphOf(digest, s, stem); s.nodes[Scenes(s.nodes)[m]].id in ReachableIds(g.nodes, g.starts)
  {
    hide NodeOf, GraphEdges, NextScene, Reach, ReadNodeOk, Scenes;
    var g, scenes := GraphOf(digest, s, stem), Scenes(s.nodes);
    NodesOfIds(digest, s);
    assert g.nodes == NodesOf(digest, s);
    var starts, edges := Elems(g.starts) * NodeMap(g.nodes).Keys, GraphEdges(g.nodes);
    if m == 0 {
      FirstSceneOk(s);
      assert FirstScene(s.nodes) in g.starts;
      ReachStarts(starts, edges);
    } else {
      ScenesBeforeChoicesAreReachable(digest, s, stem, m - 1);
      SceneAt(s.nodes, m - 1);
      var i := scenes[m - 1];
      assert i in scenes && scenes[m] in scenes;
      var to := s.nodes[scenes[m]].id;
      assert s.nodes[i].next == Some(to);
      assert LinksOf(digest, s.nodes[i])[0].to == to;
      assert DraftIds(s.nodes)[scenes[m]] == to;
      DraftEdge(digest, s, i, to);
      ReachStep(starts, edges, s.nodes[i].id, to);
    }
  }

  lemma {:induction false} SameNext(a: seq<Draft>, b: seq<Draft>, i: nat)
    requires |a| == |b| && forall k :: 0 <= k < |a| ==> a[k].id == b[k].id && a[k].note == b[k].note
    ensures NextScene(a, i) == NextScene(b, i)
    decreases |a| - i
  {
    if i + 1 < |a| && a[i + 1].note { SameNext(a, b, i + 1); }
  }

  lemma LinkedTwice(nodes: seq<Draft>)
    ensures Linked(Linked(nodes)) == Linked(nodes)
  {
    forall i | 0 <= i < |nodes| ensures NextScene(Linked(nodes), i) == NextScene(nodes, i) {
      SameNext(nodes, Linked(nodes), i);
    }
  }

  lemma FinishedIsLinked(s: Script)
    ensures Finished(s).Some? ==> Finished(s).value.nodes == Linked(Finished(s).value.nodes)
  {
    hide Linked, WithNode;
    if Finished(s).Some? {
      LinkedTwice(if forall n :: n in s.nodes ==> n.note then WithNode(s, s.title, "", false).value.nodes else s.nodes);
    }
  }

  /** In a script without choices every scene can be reached from the start. */
  lemma EveryScriptedSceneIsReachable(digest: Digest, title: string, lines: seq<Line>, stem: Id)
    requires forall line :: line in lines ==> LineOk(line) && !line.ChoiceLine?
    ensures Parsed(title, lines).Some? ==>
      var s := Parsed(title, lines).value;
      ReadOk(s) && forall n :: n in s.nodes && !n.note ==>
        n.id in ReachableIds(GraphOf(digest, s, stem).nodes, GraphOf(digest, s, stem).starts)
  {
    hide LineOk, ReadOk, Scenes, GraphOf, TakeAll, Linked, NextScene;
    ParsedIsOk(title, lines);
    if Parsed(title, lines).Some? {
      var s := Parsed(title, lines).value;
      NoLinksWithoutChoices(title, lines);
      FinishedIsLinked(TakeAll(NewScript(title), lines).value);
      ReadScenes(s);
      forall n | n in s.nodes && !n.note
        ensures n.id in ReachableIds(GraphOf(digest, s, stem).nodes, GraphOf(digest, s, stem).starts)
      {
        var k :| 0 <= k < |s.nodes| && s.nodes[k] == n;
        var m :| 0 <= m < |Scenes(s.nodes)| && Scenes(s.nodes)[m] == k;
        ScenesBeforeChoicesAreReachable(digest, s, stem, m);
      }
    }
  }

  lemma HeadIn<T>(s: seq<T>)
    ensures s != [] ==> s[0] in s
  {}

  lemma SecretNodesAreHidden(g: Graph)
    requires forall n :: n in g.nodes ==> n.visibility.Gm?
    ensures Project(g, false).nodes == []
  {
    var visible := VisibleIds(g);
    Filtered((n: Node) => n.visibility.Public?, g.nodes);
    HeadIn(PublicNodes(g.nodes));
    Filtered((n: Node) => n.id in visible, g.nodes);
    HeadIn(NodesIn(visible, g.nodes));
  }

  /** Whatever a script says, its draft has no gates, no outcomes and no references, its notes lead nowhere, and players
      see none of it. */
  lemma ScriptsCarryNoMechanics(digest: Digest, s: Script, stem: Id)
    requires ReadOk(s)
    ensures var g := GraphOf(digest, s, stem);
      && (forall i :: 0 <= i < |g.nodes| ==>
            && g.nodes[i].onComplete == [] && g.nodes[i].npcRefs == [] && g.nodes[i].encounterRef.None?
            && (forall t :: t in g.nodes[i].transitions ==> t.conditions == [])
            && (s.nodes[i].note ==> g.nodes[i].transitions == []))
      && Project(g, false).nodes == []
  {
    hide Scenes, Distinct, LinkId, Strip, ChapterId, IsId, Project;
    var g := GraphOf(digest, s, stem);
    forall i | 0 <= i < |g.nodes|
      ensures forall t :: t in g.nodes[i].transitions ==> t.conditions == []
      ensures s.nodes[i].note ==> g.nodes[i].transitions == []
    {
      assert s.nodes[i] in s.nodes && ReadNodeOk(s.nodes[i], |s.chapters|, DraftIds(s.nodes));
    }
    SecretNodesAreHidden(g);
  }
}
