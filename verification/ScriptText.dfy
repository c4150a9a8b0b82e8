/** What becomes of a script's text: nothing of it is lost, invented, reordered or moved elsewhere.

    `Flow` says, without identifiers, positions or limits, what a script tells: its title, its chapters, and the scenes
    with their chapter, their name, their text, their choices and the notes that belong to them.  `Gathered` collects
    what a draft holds and `GraphText` what a graph holds.  They agree for every script that can be read. */
module ScriptText {
  import opened Values
  import opened GraphModel
  import opened ScriptImport
  import ScriptGraph

  /** The chapter is counted from one. */
  datatype Passage = Passage(name: string, chapter: nat, prose: string, choices: seq<Link>)

  /** The notes are those between the scene and the next one. */
  datatype Scene = Scene(text: Passage, notes: seq<Passage>)

  /** What a script tells.  Prose goes to the `open` scene; `closed` are the scenes before it. */
  datatype Tale = Tale(
    title: string, chapters: seq<string>, closed: seq<Scene>, open: Option<Scene>, fence: Option<bool>)

  function Silence(title: string): Tale { Tale(title, [], [], None, None) }

  function AllScenes(w: Tale): seq<Scene> { if w.open.Some? then w.closed + [w.open.value] else w.closed }

  /** A new scene, in the last chapter; the first one is named like the script if it has no heading. */
  function Begin(w: Tale, name: string): Tale {
    var chapters := if w.chapters == [] then [w.title] else w.chapters;
    w.(chapters := chapters, closed := AllScenes(w), open := Some(Scene(Passage(name, |chapters|, "", []), [])))
  }

  function Ready(w: Tale): (v: Tale)
    ensures v.open.Some?
  {
    if w.open.Some? then w else Begin(w, w.title)
  }

  function Speak(w: Tale, text: string): Tale {
    var v := Ready(w);
    var p := v.open.value.text;
    v.(open := Some(v.open.value.(text := p.(prose := p.prose + text + "\n"))))
  }

  function Offer(w: Tale, link: Link): Tale {
    var v := Ready(w);
    var p := v.open.value.text;
    v.(open := Some(v.open.value.(text := p.(choices := p.choices + [link]))))
  }

  /** A note is named after its scene and stands in the scene's chapter. */
  function Remark(w: Tale, note: string): Tale {
    var v := Ready(w);
    var scene := v.open.value;
    v.(open := Some(scene.(
         notes := scene.notes + [Passage(scene.text.name + NOTE_SUFFIX, scene.text.chapter, note, [])])))
  }

  function SayLine(w: Tale, line: Line): Tale {
    if line.FenceLine? then
      var fence :=
        if w.fence.None? then Some(line.tilde) else if w.fence.value == line.tilde then None else w.fence;
      Speak(w.(fence := fence), line.text)
    else if w.fence.Some? then Speak(w, line.text)
    else match line
      case Heading(level, name, anchor, _) =>
        if level == 1 && w.chapters == [] then w.(title := name)
        else if level == 2 then
          w.(chapters := w.chapters + [if name != "" then name else w.title], closed := AllScenes(w), open := None)
        else Begin(w, if anchor.Some? then anchor.value.rest else name)
      case GmNote(note, _) => Remark(w, note)
      case RefLine(_, text) => Speak(w, text)
      case ChoiceLine(caption, to, _) => Speak(Offer(w, Link(to, caption)), caption)
      case Plain(blank, text) => if blank && w.open.None? then w else Speak(w, text)
  }

  function Flow(title: string, lines: seq<Line>): Tale {
    if lines == [] then Silence(title) else SayLine(Flow(title, lines[..|lines| - 1]), lines[|lines| - 1])
  }

  /** The whole script; one without any scene gets an empty one. */
  function Told(title: string, lines: seq<Line>): Tale {
    var w := Flow(title, lines);
    if AllScenes(w) == [] then Begin(w, w.title) else w
  }

  /** The scenes that something holds, in order, and the notes before all of them. */
  datatype Held = Held(stray: seq<Passage>, scenes: seq<Scene>)

  function Hold(h: Held, note: bool, p: Passage): Held {
    if !note then h.(scenes := h.scenes + [Scene(p, [])])
    else if h.scenes == [] then h.(stray := h.stray + [p])
    else
      var k := |h.scenes| - 1;
      h.(scenes := h.scenes[..k] + [Scene(h.scenes[k].text, h.scenes[k].notes + [p])])
  }

  function PassageOf(n: Draft): Passage { Passage(n.name, n.chapter, n.body, n.links) }

  function Gathered(nodes: seq<Draft>): Held {
    if nodes == [] then Held([], [])
    else var n := nodes[|nodes| - 1]; Hold(Gathered(nodes[..|nodes| - 1]), n.note, PassageOf(n))
  }

  predicate LastScene(nodes: seq<Draft>, k: nat) {
    k < |nodes| && !nodes[k].note && forall j :: k < j < |nodes| ==> nodes[j].note
  }

  /** The draft so far holds what was told, and the current scene is the last one and in the last chapter. */
  ghost predicate Agrees(s: Script, w: Tale) {
    && Gathered(s.nodes) == Held([], AllScenes(w))
    && s.title == w.title && s.chapters == w.chapters && s.fence == w.fence && s.current.Some? == w.open.Some?
    && (s.nodes != [] ==> s.chapters != [])
    && (s.current.Some? ==>
          && LastScene(s.nodes, s.current.value) && w.open.value.text == PassageOf(s.nodes[s.current.value])
          && w.open.value.text.chapter == |s.chapters|)
  }

  lemma GatheredSnoc(nodes: seq<Draft>, n: Draft)
    ensures Gathered(nodes + [n]) == Hold(Gathered(nodes), n.note, PassageOf(n))
  {
    assert (nodes + [n])[..|nodes|] == nodes;
  }

  /** The same scenes, the last one with another text and the same notes. */
  function Rewritten(h: Held, p: Passage): Held
    requires h.scenes != []
  {
    var k := |h.scenes| - 1;
    h.(scenes := h.scenes[..k] + [Scene(p, h.scenes[k].notes)])
  }

  lemma RewrittenThenNoted(h: Held, p: Passage, note: Passage)
    requires h.scenes != []
    ensures var n := Hold(h, true, note);
      && n.scenes != [] && n.scenes[|n.scenes| - 1].text == h.scenes[|h.scenes| - 1].text
      && Rewritten(n, p) == Hold(Rewritten(h, p), true, note)
  {}

  lemma RewrittenNew(h: Held, first: Passage, p: Passage)
    ensures var n := Hold(h, false, first);
      && n.scenes != [] && n.scenes[|n.scenes| - 1].text == first
      && Rewritten(n, p) == Hold(h, false, p)
  {}

  lemma GatheredStep(nodes: seq<Draft>)
    requires nodes != []
    ensures var n := nodes[|nodes| - 1]; Gathered(nodes) == Hold(Gathered(nodes[..|nodes| - 1]), n.note, PassageOf(n))
  {}

  /** Writing to the last scene changes the text of the last scene and keeps its notes. */
  lemma {:induction false} WritingToTheLast(nodes: seq<Draft>, k: nat, n: Draft)
    requires LastScene(nodes, k) && !n.note
    ensures var h := Gathered(nodes);
      && h.scenes != [] && h.scenes[|h.scenes| - 1].text == PassageOf(nodes[k])
      && Gathered(nodes[k := n]) == Rewritten(h, PassageOf(n))
  {
    hide Gathered, Hold, Rewritten, PassageOf;
    var last := |nodes| - 1;
    GatheredStep(nodes);
    GatheredStep(nodes[k := n]);
    if k < last {
      WritingToTheLast(nodes[..last], k, n);
      assert nodes[k := n][..last] == nodes[..last][k := n];
      RewrittenThenNoted(Gathered(nodes[..last]), PassageOf(n), PassageOf(nodes[last]));
    } else {
      assert nodes[k := n][..last] == nodes[..last];
      RewrittenNew(Gathered(nodes[..last]), PassageOf(nodes[k]), PassageOf(n));
    }
  }

  lemma {:induction false} NoScenes(nodes: seq<Draft>)
    ensures (forall n :: n in nodes ==> n.note) <==> Gathered(nodes).scenes == []
  {
    if nodes != [] {
      NoScenes(nodes[..|nodes| - 1]);
      assert nodes == nodes[..|nodes| - 1] + [nodes[|nodes| - 1]];
    }
  }

  /** A new scene tells nothing yet. */
  lemma SceneAgrees(s: Script, name: string, id: string, w: Tale)
    requires Agrees(s, w)
    ensures WithScene(s, name, id).Some? ==>
      Agrees(WithScene(s, name, id).value, Begin(w, name)) && HasCurrent(WithScene(s, name, id).value)
  {
    hide Gathered;
    var r := WithNode(s, name, id, false);
    if r.Some? { GatheredSnoc(s.nodes, r.value.nodes[|s.nodes|]); }
  }

  lemma OpeningAgrees(s: Script, w: Tale)
    requires Agrees(s, w)
    ensures Opened(s).Some? ==> Agrees(Opened(s).value, Ready(w)) && HasCurrent(Opened(s).value)
  {
    hide Gathered;
    if s.current.None? { SceneAgrees(s, s.title, "", w); }
  }

  lemma ProseAgrees(s: Script, text: string, w: Tale)
    requires Agrees(s, w)
    ensures WithProse(s, text).Some? ==> Agrees(WithProse(s, text).value, Speak(w, text))
  {
    hide Gathered, Opened, Ready;
    OpeningAgrees(s, w);
    if WithProse(s, text).Some? {
      var t := Opened(s).value;
      var k := t.current.value;
      WritingToTheLast(t.nodes, k, t.nodes[k].(body := t.nodes[k].body + text + "\n"));
    }
  }

  lemma LinkAgrees(s: Script, link: Link, w: Tale)
    requires Agrees(s, w) && HasCurrent(s)
    ensures Agrees(WithLink(s, link), Offer(w, link))
  {
    hide Gathered;
    var k := s.current.value;
    WritingToTheLast(s.nodes, k, s.nodes[k].(links := s.nodes[k].links + [link]));
  }

  lemma RemarkHolds(w: Tale, note: string)
    requires w.open.Some?
    ensures var text, v := w.open.value.text, Remark(w, note);
      && Hold(Held([], AllScenes(w)), true, Passage(text.name + NOTE_SUFFIX, text.chapter, note, []))
         == Held([], AllScenes(v))
      && v.open.Some? && v.open.value.text == text
      && v.title == w.title && v.chapters == w.chapters && v.fence == w.fence
  {}

  lemma NoteAgrees(s: Script, note: string, w: Tale)
    requires Agrees(s, w) && HasCurrent(s)
    ensures var r := WithNode(s, s.nodes[s.current.value].name + NOTE_SUFFIX, "", true); r.Some? ==>
      var k := |r.value.nodes| - 1;
      && k >= 0
      && Agrees(r.value.(nodes := r.value.nodes[k := r.value.nodes[k].(body := note)]), Remark(w, note))
  {
    hide Gathered, Hold, Remark, AllScenes;
    RemarkHolds(w, note);
    var r := WithNode(s, s.nodes[s.current.value].name + NOTE_SUFFIX, "", true);
    if r.Some? {
      var k := |s.nodes|;
      var n := r.value.nodes[k].(body := note);
      GatheredSnoc(s.nodes, n);
      assert r.value.nodes[k := n] == s.nodes + [n];
    }
  }

  lemma AgreesOpen(s: Script, w: Tale)
    requires Agrees(s, w)
    ensures s.fence == w.fence && s.current.Some? == w.open.Some?
  {}

  lemma FenceAgrees(s: Script, fence: Option<bool>, w: Tale)
    requires Agrees(s, w)
    ensures Agrees(s.(fence := fence), w.(fence := fence))
  {}

  /** Being ready is all that opening adds. */
  lemma ReadyOnce(w: Tale, text: string, link: Link)
    ensures Speak(Ready(w), text) == Speak(w, text) && Offer(Ready(w), link) == Offer(w, link)
    ensures Remark(Ready(w), text) == Remark(w, text)
  {}

  lemma HeadingAgrees(s: Script, line: Line, w: Tale)
    requires Agrees(s, w) && line.Heading? && s.fence.None?
    ensures Take(s, line).Some? ==> Agrees(Take(s, line).value, SayLine(w, line))
  {
    hide Gathered, WithScene, Begin;
    if !(line.level == 1 && s.nodes == [] && s.chapters == []) && line.level != 2 {
      if line.anchor.Some? {
        SceneAgrees(s, line.anchor.value.rest, line.anchor.value.id, w);
      } else {
        SceneAgrees(s, line.name, "", w);
      }
    }
  }

  lemma TakeAgrees(s: Script, line: Line, w: Tale)
    requires Agrees(s, w)
    ensures Take(s, line).Some? ==> Agrees(Take(s, line).value, SayLine(w, line))
  {
    hide Gathered, Opened, WithProse, WithNode, WithScene, Speak, Agrees, Ready, Offer, Remark;
    AgreesOpen(s, w);
    if line.FenceLine? {
      var fence := if s.fence == Some(line.tilde) then None else if s.fence.None? then Some(line.tilde) else s.fence;
      FenceAgrees(s, fence, w);
      ProseAgrees(s.(fence := fence), line.text, w.(fence := fence));
    } else if s.fence.Some? {
      ProseAgrees(s, line.text, w);
    } else {
      match line
      case Heading(_, _, _, _) => HeadingAgrees(s, line, w);
      case GmNote(note, _) =>
        OpeningAgrees(s, w);
        if Opened(s).Some? {
          NoteAgrees(Opened(s).value, note, Ready(w));
          ReadyOnce(w, note, Link("", ""));
        }
      case RefLine(_, text) =>
        OpeningAgrees(s, w);
        if Opened(s).Some? {
          ProseAgrees(Opened(s).value, text, Ready(w));
          ReadyOnce(w, text, Link("", ""));
        }
      case ChoiceLine(caption, to, _) =>
        OpeningAgrees(s, w);
        if Opened(s).Some? {
          var t, link := Opened(s).value, Link(to, caption);
          LinkAgrees(t, link, Ready(w));
          ReadyOnce(w, caption, link);
          ProseAgrees(WithLink(t, link), caption, Offer(w, link));
        }
      case Plain(_, text) => ProseAgrees(s, text, w);
    }
  }

  lemma NothingSaid(title: string)
    ensures Agrees(NewScript(title), Silence(title))
  {}

  lemma {:induction false} TakeAllAgrees(title: string, lines: seq<Line>)
    ensures TakeAll(NewScript(title), lines).Some? ==>
              Agrees(TakeAll(NewScript(title), lines).value, Flow(title, lines))
  {
    hide Take, SayLine, Agrees;
    if lines != [] {
      var earlier, last := lines[..|lines| - 1], lines[|lines| - 1];
      TakeAllAgrees(title, earlier);
      if TakeAll(NewScript(title), earlier).Some? {
        TakeAgrees(TakeAll(NewScript(title), earlier).value, last, Flow(title, earlier));
      }
    } else {
      NothingSaid(title);
    }
  }

  lemma {:induction false} SamePassages(a: seq<Draft>, b: seq<Draft>)
    requires |a| == |b| && forall k :: 0 <= k < |a| ==> a[k].note == b[k].note && PassageOf(a[k]) == PassageOf(b[k])
    ensures Gathered(a) == Gathered(b)
  {
    if a != [] { SamePassages(a[..|a| - 1], b[..|b| - 1]); }
  }

  lemma LinkingKeepsText(nodes: seq<Draft>)
    ensures Gathered(Linked(nodes)) == Gathered(nodes)
  {
    hide NextScene;
    SamePassages(Linked(nodes), nodes);
  }

  /** Every script that can be read: its draft has the script's title and chapters, and holds exactly the script's
      scenes, each with its chapter, its name, its text, its choices and its notes, in their order. */
  lemma NothingIsLost(title: string, lines: seq<Line>)
    ensures Parsed(title, lines).Some? ==>
      var s, w := Parsed(title, lines).value, Told(title, lines);
      s.title == w.title && s.chapters == w.chapters && Gathered(s.nodes) == Held([], AllScenes(w))
  {
    hide TakeAll, Flow, Linked, NextScene, Gathered;
    TakeAllAgrees(title, lines);
    if Parsed(title, lines).Some? {
      var s, w := TakeAll(NewScript(title), lines).value, Flow(title, lines);
      NoScenes(s.nodes);
      SceneAgrees(s, s.title, "", w);
      LinkingKeepsText(if AllScenes(w) == [] then WithNode(s, s.title, "", false).value.nodes else s.nodes);
    }
  }

  // ---- the graph ----

  /** The position of a chapter, counted from one; zero if there is none. */
  function ChapterAt(chapters: seq<Chapter>, id: Option<Id>): nat {
    if chapters == [] || id.None? then 0
    else if chapters[|chapters| - 1].id == id.value then |chapters|
    else ChapterAt(chapters[..|chapters| - 1], id)
  }

  /** What a node of a graph says: its choices are the transitions that have one. */
  function NodeText(chapters: seq<Chapter>, n: Node): Passage {
    Passage(n.name, ChapterAt(chapters, n.chapter), n.description,
            if !n.exclusive then []
            else Map((t: Transition) => Link(t.to, if t.choice.Some? then t.choice.value.text else ""), n.transitions))
  }

  function GraphText(chapters: seq<Chapter>, nodes: seq<Node>): Held {
    if nodes == [] then Held([], [])
    else
      var n := nodes[|nodes| - 1];
      Hold(GraphText(chapters, nodes[..|nodes| - 1]), n.kind == "reference", NodeText(chapters, n))
  }

  /** Texts lose the white space around them on the way into a graph. */
  function Trimmed(p: Passage): Passage {
    p.(prose := Strip(p.prose), choices := Map((l: Link) => Link(l.to, Strip(l.caption)), p.choices))
  }

  function TrimmedScene(s: Scene): Scene { Scene(Trimmed(s.text), Map(Trimmed, s.notes)) }

  function TrimmedAll(h: Held): Held { Held(Map(Trimmed, h.stray), Map(TrimmedScene, h.scenes)) }

  lemma ChapterIdInjective(j: nat, k: nat)
    ensures ScriptGraph.ChapterId(j) == ScriptGraph.ChapterId(k) ==> j == k
  {
    assert ScriptGraph.ChapterId(j)[3..] == Decimal(j) && ScriptGraph.ChapterId(k)[3..] == Decimal(k);
    DecimalInjective(j, k);
  }

  lemma {:induction false} ChapterAtIs(chapters: seq<Chapter>, k: nat)
    requires forall i :: 0 <= i < |chapters| ==> chapters[i].id == ScriptGraph.ChapterId(i + 1)
    requires 1 <= k <= |chapters|
    ensures ChapterAt(chapters, Some(ScriptGraph.ChapterId(k))) == k
  {
    hide ScriptGraph.ChapterId;
    if k < |chapters| {
      ChapterIdInjective(k, |chapters|);
      ChapterAtIs(chapters[..|chapters| - 1], k);
    }
  }

  lemma NodeTextIs(digest: ScriptGraph.Digest, chapters: seq<Chapter>, n: Draft)
    requires ChapterAt(chapters, Some(ScriptGraph.ChapterId(n.chapter))) == n.chapter
    ensures NodeText(chapters, ScriptGraph.NodeOf(digest, n)) == Trimmed(PassageOf(n))
  {
    hide Strip, ScriptGraph.LinkId, ScriptGraph.ChapterId, ChapterAt;
    var m := ScriptGraph.NodeOf(digest, n);
    var text := NodeText(chapters, m);
    if n.links != [] {
      forall k | 0 <= k < |n.links| ensures text.choices[k] == Link(n.links[k].to, Strip(n.links[k].caption)) {
        assert m.transitions[k] == ScriptGraph.LinkOf(digest, n, k);
      }
    }
    assert text.choices == Trimmed(PassageOf(n)).choices;
  }

  lemma MapSnoc<A, B>(f: A -> B, s: seq<A>, x: A)
    ensures Map(f, s + [x]) == Map(f, s) + [f(x)]
  {}

  lemma HoldTrims(h: Held, note: bool, p: Passage)
    ensures TrimmedAll(Hold(h, note, p)) == Hold(TrimmedAll(h), note, Trimmed(p))
  {
    hide Trimmed;
    if !note {
      MapSnoc(TrimmedScene, h.scenes, Scene(p, []));
      assert Map(Trimmed, []) == [];
    } else if h.scenes == [] {
      MapSnoc(Trimmed, h.stray, p);
    } else {
      var k := |h.scenes| - 1;
      MapSnoc(Trimmed, h.scenes[k].notes, p);
      MapSnoc(TrimmedScene, h.scenes[..k], Scene(h.scenes[k].text, h.scenes[k].notes + [p]));
      assert Map(TrimmedScene, h.scenes)[..k] == Map(TrimmedScene, h.scenes[..k]);
    }
  }

  lemma {:induction false} GraphTextIs(digest: ScriptGraph.Digest, chapters: seq<Chapter>, nodes: seq<Draft>)
    requires forall n :: n in nodes ==> ChapterAt(chapters, Some(ScriptGraph.ChapterId(n.chapter))) == n.chapter
    ensures GraphText(chapters, Map((n: Draft) => ScriptGraph.NodeOf(digest, n), nodes)) == TrimmedAll(Gathered(nodes))
  {
    hide NodeText, Trimmed, PassageOf, Hold, ChapterAt, ScriptGraph.ChapterId;
    var all := Map((n: Draft) => ScriptGraph.NodeOf(digest, n), nodes);
    if nodes != [] {
      var earlier, n := nodes[..|nodes| - 1], nodes[|nodes| - 1];
      GraphTextIs(digest, chapters, earlier);
      assert all[..|all| - 1] == Map((n: Draft) => ScriptGraph.NodeOf(digest, n), earlier);
      NodeTextIs(digest, chapters, n);
      HoldTrims(Gathered(earlier), n.note, PassageOf(n));
    }
  }

  lemma DraftChapters(s: Script)
    requires ScriptGraph.ReadOk(s)
    ensures forall n :: n in s.nodes ==>
              ChapterAt(ScriptGraph.ChaptersOf(s), Some(ScriptGraph.ChapterId(n.chapter))) == n.chapter
  {
    hide ScriptGraph.ChapterId, ChapterAt, IsId;
    forall n | n in s.nodes
      ensures ChapterAt(ScriptGraph.ChaptersOf(s), Some(ScriptGraph.ChapterId(n.chapter))) == n.chapter
    {
      assert ScriptGraph.ReadNodeOk(n, |s.chapters|, DraftIds(s.nodes));
      ChapterAtIs(ScriptGraph.ChaptersOf(s), n.chapter);
    }
  }

  /** The graph of every script that can be read has the script's chapters, and its nodes are the script's scenes, each
      in its chapter and followed by its notes, with their texts trimmed. */
  lemma GraphHoldsTheScript(digest: ScriptGraph.Digest, title: string, lines: seq<Line>, stem: Id)
    requires forall line :: line in lines ==> LineOk(line)
    ensures Parsed(title, lines).Some? ==>
      var s, w := Parsed(title, lines).value, Told(title, lines);
      && Scenes(s.nodes) != []
      && var g := ScriptGraph.GraphOf(digest, s, stem);
         && GraphText(g.chapters, g.nodes) == TrimmedAll(Held([], AllScenes(w)))
         && Map((c: Chapter) => c.name, g.chapters) == w.chapters
  {
    hide GraphText, Gathered, TrimmedAll, Told, Scenes, Parsed, ScriptGraph.NodeOf, ScriptGraph.FirstScene, LineOk,
         ChapterAt, ScriptGraph.ChapterId;
    NothingIsLost(title, lines);
    ScriptGraph.ParsedIsOk(title, lines);
    if Parsed(title, lines).Some? {
      var s := Parsed(title, lines).value;
      DraftChapters(s);
      GraphTextIs(digest, ScriptGraph.ChaptersOf(s), s.nodes);
    }
  }
}
