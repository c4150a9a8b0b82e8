/** Reading a script, line by line, into the draft of an adventure graph.

    A line is taken after it has been recognised; what the reader does with each kind of line, its state and its
    errors are here. */
module ScriptImport {
  import opened Values
  import opened GraphModel

  /** An explicit identifier at the end of a heading, and the heading without it. */
  datatype Anchor = Anchor(id: Id, rest: string)

  /** A recognised line; `text` is the line itself. */
  datatype Line =
    | FenceLine(tilde: bool, text: string)
    | Heading(level: nat, name: string, anchor: Option<Anchor>, text: string)
    | GmNote(note: string, text: string)
    | RefLine(good: bool, text: string)
    | ChoiceLine(caption: string, to: Id, text: string)
    | Plain(blank: bool, text: string)

  predicate LineOk(line: Line) {
    && (line.Heading? ==> 1 <= line.level <= 3 && (line.anchor.Some? ==> IsId(line.anchor.value.id)))
    && (line.ChoiceLine? ==> IsId(line.to))
  }

  const NOTE_SUFFIX := " \U{00b7} GM"

  datatype Link = Link(to: Id, caption: string)

  /** A scene or a note being drafted; `chapter` counts from one, `next` is set when the script has been read. */
  datatype Draft = Draft(
    id: Id, name: string, note: bool, chapter: nat, body: string, links: seq<Link>, next: Option<Id>)

  datatype Script = Script(
    title: string, chapters: seq<string>, nodes: seq<Draft>, current: Option<nat>, fence: Option<bool>)

  function DraftIds(nodes: seq<Draft>): seq<Id> { Map((n: Draft) => n.id, nodes) }

  function NewScript(title: string): Script { Script(title, [], [], None, None) }

  // ---- one line ----

  function WithChapter(s: Script, name: string): Option<Script> {
    if |s.chapters| >= MAX_CHAPTERS then None
    else Some(s.(chapters := s.chapters + [if name != "" then name else s.title]))
  }

  function FreshId(s: Script, id: string): Id { if id != "" then id else "n_" + Decimal(|s.nodes| + 1) }

  function WithNode(s: Script, name: string, id: string, note: bool): Option<Script> {
    var wanted := FreshId(s, id);
    if |s.nodes| >= MAX_NODES || wanted in DraftIds(s.nodes) then None
    else
      var t :- if s.chapters == [] then WithChapter(s, "") else Some(s);
      Some(t.(nodes := t.nodes + [Draft(wanted, name, note, |t.chapters|, "", [], None)]))
  }

  /** A scene to write into: the current one, or a new one named like the script. */
  function Opened(s: Script): Option<Script> {
    if s.current.Some? then Some(s)
    else
      var t :- WithNode(s, s.title, "", false);
      Some(t.(current := Some(|s.nodes|)))
  }

  function WithScene(s: Script, name: string, id: string): Option<Script> {
    var t :- WithNode(s, name, id, false);
    Some(t.(current := Some(|s.nodes|)))
  }

  predicate HasCurrent(s: Script) { s.current.Some? && s.current.value < |s.nodes| }

  function Written(s: Script, text: string): Script
    requires HasCurrent(s)
  {
    var k := s.current.value;
    s.(nodes := s.nodes[k := s.nodes[k].(body := s.nodes[k].body + text + "\n")])
  }

  function WithProse(s: Script, text: string): Option<Script> {
    var t :- Opened(s);
    if HasCurrent(t) then Some(Written(t, text)) else None
  }

  function WithLink(s: Script, link: Link): Script
    requires HasCurrent(s)
  {
    var k := s.current.value;
    s.(nodes := s.nodes[k := s.nodes[k].(links := s.nodes[k].links + [link])])
  }

  /** What a line does to the script; nothing if it is an error. */
  function Take(s: Script, line: Line): Option<Script> {
    if line.FenceLine? then
      var fence := if s.fence == Some(line.tilde) then None else if s.fence.None? then Some(line.tilde) else s.fence;
      WithProse(s.(fence := fence), line.text)
    else if s.fence.Some? then WithProse(s, line.text)
    else match line
      case Heading(level, name, anchor, _) =>
        if level == 1 && s.nodes == [] && s.chapters == [] then Some(s.(title := name))
        else if level == 2 then
          var t :- WithChapter(s, name);
          Some(t.(current := None))
        else if anchor.Some? then WithScene(s, anchor.value.rest, anchor.value.id)
        else WithScene(s, name, "")
      case GmNote(note, _) =>
        var t :- Opened(s);
        if !HasCurrent(t) then None
        else
          var u :- WithNode(t, t.nodes[t.current.value].name + NOTE_SUFFIX, "", true);
          Some(u.(nodes := u.nodes[|u.nodes| - 1 := u.nodes[|u.nodes| - 1].(body := note)]))
      case RefLine(good, text) =>
        var t :- Opened(s);
        if !good then None else WithProse(t, text)
      case ChoiceLine(caption, to, _) =>
        var t :- Opened(s);
        if !HasCurrent(t) then None else WithProse(WithLink(t, Link(to, caption)), caption)
      case Plain(blank, text) => if blank && s.current.None? then Some(s) else WithProse(s, text)
  }

  function TakeAll(s: Script, lines: seq<Line>): Option<Script> {
    if lines == [] then Some(s)
    else
      var t :- TakeAll(s, lines[..|lines| - 1]);
      Take(t, lines[|lines| - 1])
  }

  // ---- the end of the script ----

  /** The next scene after position i. */
  function NextScene(nodes: seq<Draft>, i: nat): Option<Id>
    decreases |nodes| - i
  {
    if i + 1 >= |nodes| then None
    else if !nodes[i + 1].note then Some(nodes[i + 1].id)
    else NextScene(nodes, i + 1)
  }

  /** A scene without choices leads on to the next scene. */
  function Linked(nodes: seq<Draft>): seq<Draft> {
    seq(|nodes|, i requires 0 <= i < |nodes| =>
      nodes[i].(next := if nodes[i].note || nodes[i].links != [] then None else NextScene(nodes, i)))
  }

  function Finished(s: Script): Option<Script> {
    var t :- if forall n :: n in s.nodes ==> n.note then WithNode(s, s.title, "", false) else Some(s);
    Some(t.(nodes := Linked(t.nodes)))
  }

  function Parsed(title: string, lines: seq<Line>): Option<Script> {
    var s :- TakeAll(NewScript(title), lines);
    Finished(s)
  }

  // ---- what every line keeps ----

  predicate DraftOk(n: Draft, chapters: nat) {
    && IsId(n.id) && 1 <= n.chapter <= chapters && (n.note ==> n.links == [])
    && (forall l :: l in n.links ==> IsId(l.to)) && n.next.None?
  }

  predicate ScriptOk(s: Script) {
    && |s.nodes| <= MAX_NODES && |s.chapters| <= MAX_CHAPTERS && Distinct(DraftIds(s.nodes))
    && (forall n :: n in s.nodes ==> DraftOk(n, |s.chapters|))
    && (s.current.Some? ==> s.current.value < |s.nodes| && !s.nodes[s.current.value].note)
    && (s.nodes != [] ==> exists n :: n in s.nodes && !n.note)
  }

  lemma FreshIdOk(s: Script, id: string)
    requires id == "" || IsId(id)
    ensures IsId(FreshId(s, id))
  {}

  lemma AddedIds(nodes: seq<Draft>, n: Draft)
    ensures DraftIds(nodes + [n]) == DraftIds(nodes) + [n.id]
    ensures Distinct(DraftIds(nodes + [n])) <==> Distinct(DraftIds(nodes)) && n.id !in DraftIds(nodes)
  {
    var ids, all := DraftIds(nodes), DraftIds(nodes + [n]);
    assert all == ids + [n.id];
    if Distinct(all) {
      forall i, j | 0 <= i < j < |ids| ensures ids[i] != ids[j] { assert all[i] != all[j]; }
      forall i | 0 <= i < |ids| ensures ids[i] != n.id { assert all[i] != all[|ids|]; }
    }
  }

  lemma WithNodeKeepsOk(s: Script, name: string, id: string, note: bool)
    requires ScriptOk(s) && (id == "" || IsId(id)) && (note ==> s.nodes != [])
    ensures WithNode(s, name, id, note).Some? ==>
      var t := WithNode(s, name, id, note).value;
      && ScriptOk(t) && |t.nodes| == |s.nodes| + 1 && t.current == s.current && t.fence == s.fence && t.title == s.title
      && t.nodes[..|s.nodes|] == s.nodes && t.nodes[|s.nodes|].note == note && t.nodes[|s.nodes|].links == []
  {
    hide IsId;
    var r := WithNode(s, name, id, note);
    if r.Some? {
      FreshIdOk(s, id);
      var n := r.value.nodes[|s.nodes|];
      AddedIds(s.nodes, n);
      forall m | m in r.value.nodes ensures DraftOk(m, |r.value.chapters|) {
        if m in s.nodes { assert DraftOk(m, |s.chapters|); }
      }
      if !note { assert n in r.value.nodes; }
    }
  }

  /** Changing a draft without its identity keeps the script in order. */
  lemma ChangedKeepsOk(s: Script, k: nat, n: Draft)
    requires ScriptOk(s) && k < |s.nodes| && n.id == s.nodes[k].id && n.note == s.nodes[k].note
    requires DraftOk(n, |s.chapters|)
    ensures ScriptOk(s.(nodes := s.nodes[k := n]))
  {
    hide IsId;
    var t := s.(nodes := s.nodes[k := n]);
    assert DraftIds(t.nodes) == DraftIds(s.nodes);
    var m :| m in s.nodes && !m.note;
    var j :| 0 <= j < |s.nodes| && s.nodes[j] == m;
    assert t.nodes[j] in t.nodes && !t.nodes[j].note;
  }

  lemma CurrentOk(s: Script)
    requires ScriptOk(s)
    ensures s.current.Some? ==>
              && s.current.value < |s.nodes| && DraftOk(s.nodes[s.current.value], |s.chapters|)
              && !s.nodes[s.current.value].note
  {}

  lemma SetCurrentKeepsOk(s: Script, k: nat)
    requires ScriptOk(s) && k < |s.nodes| && !s.nodes[k].note
    ensures ScriptOk(s.(current := Some(k)))
  {}

  lemma OpenedKeepsOk(s: Script)
    requires ScriptOk(s)
    ensures Opened(s).Some? ==> ScriptOk(Opened(s).value) && HasCurrent(Opened(s).value)
  {
    hide ScriptOk, WithNode;
    WithNodeKeepsOk(s, s.title, "", false);
    CurrentOk(s);
    if Opened(s).Some? && s.current.None? { SetCurrentKeepsOk(WithNode(s, s.title, "", false).value, |s.nodes|); }
  }

  lemma ProseKeepsOk(s: Script, text: string)
    requires ScriptOk(s)
    ensures WithProse(s, text).Some? ==> ScriptOk(WithProse(s, text).value)
  {
    hide ScriptOk, Opened;
    OpenedKeepsOk(s);
    if Opened(s).Some? {
      var t := Opened(s).value;
      CurrentOk(t);
      var k := t.current.value;
      ChangedKeepsOk(t, k, t.nodes[k].(body := t.nodes[k].body + text + "\n"));
    }
  }

  lemma LinkKeepsOk(s: Script, link: Link)
    requires ScriptOk(s) && HasCurrent(s) && IsId(link.to)
    ensures ScriptOk(WithLink(s, link))
  {
    hide ScriptOk, IsId;
    CurrentOk(s);
    var k := s.current.value;
    ChangedKeepsOk(s, k, s.nodes[k].(links := s.nodes[k].links + [link]));
  }

  lemma FenceKeepsOk(s: Script, fence: Option<bool>)
    requires ScriptOk(s)
    ensures ScriptOk(s.(fence := fence))
  {}

  lemma ChapterKeepsOk(s: Script, name: string)
    requires ScriptOk(s)
    ensures WithChapter(s, name).Some? ==> ScriptOk(WithChapter(s, name).value.(current := None))
  {
    hide IsId;
    if WithChapter(s, name).Some? {
      forall n | n in s.nodes ensures DraftOk(n, |s.chapters| + 1) { assert DraftOk(n, |s.chapters|); }
    }
  }

  lemma TitleKeepsOk(s: Script, name: string)
    requires ScriptOk(s)
    ensures ScriptOk(s.(title := name))
  {}

  lemma HeadingKeepsOk(s: Script, line: Line)
    requires ScriptOk(s) && LineOk(line) && line.Heading? && s.fence.None?
    ensures Take(s, line).Some? ==> ScriptOk(Take(s, line).value)
  {
    hide WithNode, IsId, ScriptOk;
    var name, id := if line.anchor.Some? then line.anchor.value.rest else line.name,
                    if line.anchor.Some? then line.anchor.value.id else "";
    WithNodeKeepsOk(s, name, id, false);
    if WithNode(s, name, id, false).Some? { SetCurrentKeepsOk(WithNode(s, name, id, false).value, |s.nodes|); }
    ChapterKeepsOk(s, line.name);
    TitleKeepsOk(s, line.name);
  }

  lemma LastOk(s: Script)
    requires ScriptOk(s) && s.nodes != []
    ensures DraftOk(s.nodes[|s.nodes| - 1], |s.chapters|)
  {}

  lemma NoteKeepsOk(s: Script, line: Line)
    requires ScriptOk(s) && LineOk(line) && line.GmNote? && s.fence.None?
    ensures Take(s, line).Some? ==> ScriptOk(Take(s, line).value)
  {
    hide WithNode, IsId, ScriptOk, Opened;
    OpenedKeepsOk(s);
    if Opened(s).Some? {
      var t := Opened(s).value;
      var name := t.nodes[t.current.value].name + NOTE_SUFFIX;
      WithNodeKeepsOk(t, name, "", true);
      if WithNode(t, name, "", true).Some? {
        var u := WithNode(t, name, "", true).value;
        LastOk(u);
        ChangedKeepsOk(u, |u.nodes| - 1, u.nodes[|u.nodes| - 1].(body := line.note));
      }
    }
  }

  lemma TakeKeepsOk(s: Script, line: Line)
    requires ScriptOk(s) && LineOk(line)
    ensures Take(s, line).Some? ==> ScriptOk(Take(s, line).value)
  {
    hide WithProse, WithNode, Opened, IsId, ScriptOk;
    if line.FenceLine? {
      var fence := if s.fence == Some(line.tilde) then None else if s.fence.None? then Some(line.tilde) else s.fence;
      FenceKeepsOk(s, fence);
      ProseKeepsOk(s.(fence := fence), line.text);
    } else if s.fence.Some? {
      ProseKeepsOk(s, line.text);
    } else {
      match line
      case Heading(_, _, _, _) => HeadingKeepsOk(s, line);
      case GmNote(_, _) => NoteKeepsOk(s, line);
      case RefLine(_, text) =>
        OpenedKeepsOk(s);
        if Opened(s).Some? { ProseKeepsOk(Opened(s).value, text); }
      case ChoiceLine(caption, to, _) =>
        OpenedKeepsOk(s);
        if Opened(s).Some? {
          LinkKeepsOk(Opened(s).value, Link(to, caption));
          ProseKeepsOk(WithLink(Opened(s).value, Link(to, caption)), caption);
        }
      case Plain(_, text) => ProseKeepsOk(s, text);
    }
  }

  lemma {:induction false} TakeAllKeepsOk(s: Script, lines: seq<Line>)
    requires ScriptOk(s) && forall line :: line in lines ==> LineOk(line)
    ensures TakeAll(s, lines).Some? ==> ScriptOk(TakeAll(s, lines).value)
  {
    hide ScriptOk, Take, LineOk;
    if lines != [] {
      TakeAllKeepsOk(s, lines[..|lines| - 1]);
      if TakeAll(s, lines[..|lines| - 1]).Some? {
        TakeKeepsOk(TakeAll(s, lines[..|lines| - 1]).value, lines[|lines| - 1]);
      }
    }
  }

  // ---- the reader ----

  function LinkedUpTo(nodes: seq<Draft>, scenes: seq<nat>, k: nat): Draft
    requires k < |nodes|
  {
    if k in scenes && nodes[k].links == [] then nodes[k].(next := NextScene(nodes, k)) else nodes[k]
  }

  lemma NothingLinked(s: Script)
    requires ScriptOk(s)
    ensures forall n :: n in s.nodes ==> n.next.None?
  {
    forall n | n in s.nodes ensures n.next.None? { assert DraftOk(n, |s.chapters|); }
  }

  lemma {:induction false} NextSceneIs(nodes: seq<Draft>, i: nat, j: nat)
    requires i < j < |nodes| && !nodes[j].note && forall k :: i < k < j ==> nodes[k].note
    ensures NextScene(nodes, i) == Some(nodes[j].id)
    decreases j - i
  {
    if i + 1 < j { NextSceneIs(nodes, i + 1, j); }
  }

  /** The positions of the scenes. */
  function Scenes(nodes: seq<Draft>): (r: seq<nat>)
    ensures forall k :: k in r <==> 0 <= k < |nodes| && !nodes[k].note
    ensures forall i :: 0 <= i < |r| ==> r[i] < |nodes|
    ensures forall i, j :: 0 <= i < j < |r| ==> r[i] < r[j]
  {
    if nodes == [] then []
    else
      var k := |nodes| - 1;
      var rest := Scenes(nodes[..k]);
      rest + (if nodes[k].note then [] else [k])
  }

  lemma NotBetween(nodes: seq<Draft>, i: nat, k: nat)
    requires i + 1 < |Scenes(nodes)| && k in Scenes(nodes)
    ensures k <= Scenes(nodes)[i] || Scenes(nodes)[i + 1] <= k
  {
    hide Scenes;
    var m :| 0 <= m < |Scenes(nodes)| && Scenes(nodes)[m] == k;
  }

  lemma SceneAt(nodes: seq<Draft>, i: nat)
    requires i + 1 < |Scenes(nodes)|
    ensures var scenes := Scenes(nodes);
      && scenes[i] < scenes[i + 1] && scenes[i] !in scenes[..i]
      && NextScene(nodes, scenes[i]) == Some(nodes[scenes[i + 1]].id)
  {
    hide NextScene, Scenes;
    var scenes := Scenes(nodes);
    forall k | scenes[i] < k < scenes[i + 1] ensures nodes[k].note {
      if k in scenes { NotBetween(nodes, i, k); }
    }
    assert scenes[i + 1] in scenes;
    NextSceneIs(nodes, scenes[i], scenes[i + 1]);
  }

  lemma {:induction false} NoNextScene(nodes: seq<Draft>, i: nat)
    requires forall k :: i < k < |nodes| ==> nodes[k].note
    ensures NextScene(nodes, i) == None
    decreases |nodes| - i
  {
    if i + 1 < |nodes| { NoNextScene(nodes, i + 1); }
  }

  lemma NotAfter(nodes: seq<Draft>, k: nat)
    requires k in Scenes(nodes)
    ensures k <= Scenes(nodes)[|Scenes(nodes)| - 1]
  {
    hide Scenes;
    var m :| 0 <= m < |Scenes(nodes)| && Scenes(nodes)[m] == k;
  }

  lemma LastScene(nodes: seq<Draft>)
    requires Scenes(nodes) != []
    ensures NextScene(nodes, Scenes(nodes)[|Scenes(nodes)| - 1]) == None
  {
    hide NextScene, Scenes;
    var scenes := Scenes(nodes);
    forall k | scenes[|scenes| - 1] < k < |nodes| ensures nodes[k].note {
      if k in scenes { NotAfter(nodes, k); }
    }
    NoNextScene(nodes, scenes[|scenes| - 1]);
  }

  lemma ScenesGrow(nodes: seq<Draft>, n: Draft)
    ensures Scenes(nodes + [n]) == Scenes(nodes) + if n.note then [] else [|nodes|]
  {
    assert (nodes + [n])[..|nodes|] == nodes;
  }

  lemma {:induction false} SameScenes(nodes: seq<Draft>, k: nat, n: Draft)
    requires k < |nodes| && n.note == nodes[k].note
    ensures Scenes(nodes[k := n]) == Scenes(nodes)
  {
    var last := |nodes| - 1;
    if k < last {
      SameScenes(nodes[..last], k, n);
      assert nodes[k := n][..last] == nodes[..last][k := n];
    } else {
      assert nodes[k := n][..last] == nodes[..last];
    }
  }

  lemma NodeAdded(s: Script, name: string, id: string, note: bool)
    ensures WithNode(s, name, id, note).Some? ==> |WithNode(s, name, id, note).value.nodes| == |s.nodes| + 1
  {}

  lemma AnyScene(nodes: seq<Draft>)
    ensures Scenes(nodes) == [] <==> forall n :: n in nodes ==> n.note
  {
    if Scenes(nodes) == [] {
      forall n | n in nodes ensures n.note {
        var k :| 0 <= k < |nodes| && nodes[k] == n;
        assert k !in Scenes(nodes);
      }
    }
  }

  class Reader {
    var title: string
    var chapters: seq<string>
    var nodes: seq<Draft>
    var current: Option<nat>
    var fence: Option<bool>
    /** The scenes among the nodes, in order. */
    var scenes: seq<nat>

    ghost function Value(): Script
      reads this
    {
      Script(title, chapters, nodes, current, fence)
    }

    ghost predicate Valid()
      reads this
    {
      ScriptOk(Value()) && scenes == Scenes(nodes)
    }

    constructor (title: string)
      ensures Valid() && Value() == NewScript(title)
    {
      this.title, chapters, nodes, current, fence, scenes := title, [], [], None, None, [];
    }

    method EnsureChapter(name: string) returns (ok: bool)
      requires Valid()
      modifies this`chapters
      ensures ok <==> WithChapter(old(Value()), name).Some?
      ensures ok ==> Value() == WithChapter(old(Value()), name).value
      ensures !ok ==> chapters == old(chapters)
    {
      if |chapters| >= MAX_CHAPTERS { return false; }
      chapters := chapters + [if name != "" then name else title];
      return true;
    }

    method AddNode(name: string, id: string, note: bool) returns (ok: bool)
      requires Valid() && (id == "" || IsId(id)) && (note ==> nodes != [])
      modifies this`chapters, this`nodes, this`scenes
      ensures ok <==> WithNode(old(Value()), name, id, note).Some?
      ensures ok ==> Value() == WithNode(old(Value()), name, id, note).value && Valid()
    {
      hide ScriptOk, IsId, Scenes, DraftIds, Distinct;
      WithNodeKeepsOk(Value(), name, id, note);
      if |nodes| >= MAX_NODES { return false; }
      var wanted := if id != "" then id else "n_" + Decimal(|nodes| + 1);
      if wanted in DraftIds(nodes) { return false; }
      if chapters == [] {
        var made := EnsureChapter("");
        if !made { return false; }
      }
      var n := Draft(wanted, name, note, |chapters|, "", [], None);
      ScenesGrow(nodes, n);
      if !note { scenes := scenes + [|nodes|]; }
      nodes := nodes + [n];
      return true;
    }

    /** Opens a scene if none is. */
    method Open() returns (ok: bool)
      requires Valid()
      modifies this`chapters, this`nodes, this`scenes, this`current
      ensures ok <==> Opened(old(Value())).Some?
      ensures ok ==> Value() == Opened(old(Value())).value && Valid() && HasCurrent(Value())
    {
      hide ScriptOk, WithNode;
      OpenedKeepsOk(Value());
      if current.Some? { return true; }
      ok := AddNode(title, "", false);
      if ok { current := Some(|nodes| - 1); NodeAdded(old(Value()), title, "", false); }
    }

    method Prose(text: string) returns (ok: bool)
      requires Valid()
      modifies this`chapters, this`nodes, this`scenes, this`current
      ensures ok <==> WithProse(old(Value()), text).Some?
      ensures ok ==> Value() == WithProse(old(Value()), text).value && Valid()
    {
      hide ScriptOk, Opened;
      ProseKeepsOk(Value(), text);
      OpenedKeepsOk(Value());
      ok := Open();
      if ok {
        var k := current.value;
        SameScenes(nodes, k, nodes[k].(body := nodes[k].body + text + "\n"));
        nodes := nodes[k := nodes[k].(body := nodes[k].body + text + "\n")];
      }
    }

    method TakeChoice(caption: string, to: Id, text: string) returns (ok: bool)
      requires Valid() && IsId(to) && fence.None?
      modifies this
      ensures var r := Take(old(Value()), ChoiceLine(caption, to, text));
        (ok <==> r.Some?) && (ok ==> Value() == r.value && Valid())
    {
      hide ScriptOk, IsId, WithProse, Opened, WithNode, WithChapter, Scenes;
      OpenedKeepsOk(Value());
      ok := Open();
      if ok {
        LinkKeepsOk(Value(), Link(to, caption));
        var k := current.value;
        SameScenes(nodes, k, nodes[k].(links := nodes[k].links + [Link(to, caption)]));
        nodes := nodes[k := nodes[k].(links := nodes[k].links + [Link(to, caption)])];
        ok := Prose(caption);
      }
    }

    method TakeHeading(level: nat, name: string, anchor: Option<Anchor>, text: string) returns (ok: bool)
      requires Valid() && LineOk(Heading(level, name, anchor, text)) && fence.None?
      modifies this
      ensures var r := Take(old(Value()), Heading(level, name, anchor, text));
        (ok <==> r.Some?) && (ok ==> Value() == r.value && Valid())
    {
      hide ScriptOk, IsId, WithNode;
      HeadingKeepsOk(Value(), Heading(level, name, anchor, text));
      if level == 1 && nodes == [] && chapters == [] {
        title := name;
        return true;
      }
      if level == 2 {
        ok := EnsureChapter(name);
        if ok { current := None; }
        return;
      }
      var rest, id := if anchor.Some? then anchor.value.rest else name, if anchor.Some? then anchor.value.id else "";
      WithNodeKeepsOk(Value(), rest, id, false);
      ok := AddNode(rest, id, false);
      if ok { current := Some(|nodes| - 1); }
    }

    method TakeNote(note: string, text: string) returns (ok: bool)
      requires Valid() && fence.None?
      modifies this
      ensures var r := Take(old(Value()), GmNote(note, text));
        (ok <==> r.Some?) && (ok ==> Value() == r.value && Valid())
    {
      hide ScriptOk, IsId, WithNode, Opened, Scenes, WithProse, WithScene, WithChapter;
      NoteKeepsOk(Value(), GmNote(note, text));
      OpenedKeepsOk(Value());
      ok := Open();
      if ok {
        WithNodeKeepsOk(Value(), nodes[current.value].name + NOTE_SUFFIX, "", true);
        ok := AddNode(nodes[current.value].name + NOTE_SUFFIX, "", true);
        if ok {
          var k := |nodes| - 1;
          SameScenes(nodes, k, nodes[k].(body := note));
          nodes := nodes[k := nodes[k].(body := note)];
        }
      }
    }

    method TakeLine(line: Line) returns (ok: bool)
      requires Valid() && LineOk(line)
      modifies this
      ensures ok <==> Take(old(Value()), line).Some?
      ensures ok ==> Value() == Take(old(Value()), line).value && Valid()
    {
      hide ScriptOk, IsId, WithProse, Opened, WithNode, WithChapter, Scenes;
      TakeKeepsOk(Value(), line);
      if line.FenceLine? {
        FenceKeepsOk(Value(), None);
        FenceKeepsOk(Value(), Some(line.tilde));
        if fence == Some(line.tilde) {
          fence := None;
        } else if fence.None? {
          fence := Some(line.tilde);
        }
        ok := Prose(line.text);
        return;
      }
      if fence.Some? {
        ok := Prose(line.text);
        return;
      }
      match line
      case Heading(level, name, anchor, _) =>
        ok := TakeHeading(level, name, anchor, line.text);
      case GmNote(note, text) =>
        ok := TakeNote(note, text);
      case RefLine(good, text) =>
        ok := Open();
        if ok {
          if !good { return false; }
          ok := Prose(text);
        }
      case ChoiceLine(caption, to, text) =>
        ok := TakeChoice(caption, to, text);
      case Plain(blank, text) =>
        ok := true;
        if !blank || current.Some? { ok := Prose(text); }
    }

    method LinkScenes()
      requires scenes == Scenes(nodes) && scenes != [] && forall n :: n in nodes ==> n.next.None?
      modifies this`nodes
      ensures nodes == Linked(old(nodes))
    {
      hide Scenes, NextScene;
      ghost var given := nodes;
      for i := 0 to |scenes| - 1
        invariant |nodes| == |given|
        invariant forall k :: 0 <= k < |given| ==> nodes[k] == LinkedUpTo(given, scenes[..i], k)
      {
        SceneAt(given, i);
        assert scenes[..i + 1] == scenes[..i] + [scenes[i]];
        assert nodes[scenes[i + 1]].id == given[scenes[i + 1]].id;
        if nodes[scenes[i]].links == [] {
          nodes := nodes[scenes[i] := nodes[scenes[i]].(next := Some(nodes[scenes[i + 1]].id))];
        }
      }
      LastScene(given);
      forall k | 0 <= k < |given| ensures nodes[k] == Linked(given)[k] {
        assert scenes == scenes[..|scenes| - 1] + [scenes[|scenes| - 1]];
        assert k in scenes <==> !given[k].note;
      }
    }

    /** Links every scene without choices to the next one. */
    method Finish() returns (ok: bool)
      requires Valid()
      modifies this
      ensures ok <==> Finished(old(Value())).Some?
      ensures ok ==> Value() == Finished(old(Value())).value
    {
      hide ScriptOk, IsId, WithNode, Scenes, NextScene, Linked;
      AnyScene(nodes);
      NothingLinked(Value());
      if scenes == [] {
        WithNodeKeepsOk(Value(), title, "", false);
        ok := AddNode(title, "", false);
        if !ok { return; }
        NothingLinked(Value());
        assert |nodes| - 1 in Scenes(nodes);
      }
      LinkScenes();
      ok := true;
    }
  }

  lemma {:induction false} StopsAt(s: Script, lines: seq<Line>, n: nat)
    requires n <= |lines| && TakeAll(s, lines[..n]).None?
    ensures TakeAll(s, lines).None?
    decreases |lines| - n
  {
    hide Take;
    if n < |lines| {
      assert lines[..n + 1][..n] == lines[..n];
      StopsAt(s, lines, n + 1);
    } else {
      assert lines[..n] == lines;
    }
  }

  /** Reads a whole script. */
  method ReadScript(title: string, lines: seq<Line>) returns (r: Option<Script>)
    requires forall line :: line in lines ==> LineOk(line)
    ensures r == Parsed(title, lines)
  {
    hide ScriptOk, Take, LineOk, Finished;
    var reader := new Reader(title);
    for i := 0 to |lines|
      invariant fresh(reader) && reader.Valid() && TakeAll(NewScript(title), lines[..i]) == Some(reader.Value())
    {
      assert lines[..i + 1][..i] == lines[..i];
      var ok := reader.TakeLine(lines[i]);
      if !ok {
        StopsAt(NewScript(title), lines, i + 1);
        return None;
      }
    }
    assert lines[..|lines|] == lines;
    var ok := reader.Finish();
    r := if ok then Some(Script(reader.title, reader.chapters, reader.nodes, reader.current, reader.fence)) else None;
  }
}
