/** The first-draft generator of src/components/DraftGenerator.tsx: the
    Markdown text `generateDraft` builds from the current script, and the
    effect that generates it once, when the outline does not yet hold a
    draft.  `generateDraft` throws (and the draft is not stored) when a
    participant of a scene has its relationships stored as an object, since
    `forEach` is then not a function; `None` stands for that. */
module DraftGenerator {
  import opened Wrappers
  import opened Strings
  import opened Seqs
  import opened Types
  import opened SceneManager
  import opened ScriptContext

  const Placeholder := "*此场景内容待补充*"
  const SceneEnd := "\n\n---\n\n"
  const Blank := "\n\n"
  const DescriptionLabel := "**场景描述**："
  const CastLabel := "**参与角色**："
  const NotesLabel := "**角色关系**：\n"
  const ContentLabel := "**场景内容**：\n\n"
  const NameLabel := "### "
  const BackgroundLabel := "**背景**："
  const NoBackground := "无背景信息"
  const RelationsLabel := "**与其他角色的关系**：\n"
  const CharactersHeading := "## 角色列表\n\n"
  const SectionRule := "---\n\n"

  /** `# <title> - 初稿`: the draft's first line, and what the effect looks
      for in the outline. */
  function Marker(title: string): string {
    "# " + title + " - 初稿"
  }

  /** The effect generates a draft exactly when the outline lacks the marker. */
  predicate NeedsDraft(script: Script) {
    !Contains(script.outline, Marker(script.title))
  }

  // Participants of a scene.

  /** `scene.characters.map(find).filter(c => c !== null)`: the characters
      the ids resolve to, in the order of the ids. */
  function Cast(characters: seq<Character>, ids: seq<string>): (r: seq<Character>)
    ensures |r| <= |ids|
    ensures forall i :: 0 <= i < |r| ==> r[i] in characters
  {
    if ids == [] then []
    else
      var c := FindCharacter(characters, ids[0]);
      (if c.Some? then [c.value] else []) + Cast(characters, ids[1..])
  }

  /** A character is in the cast exactly when one of the ids resolves to it. */
  lemma {:induction false} CastMembers(characters: seq<Character>, ids: seq<string>)
    ensures forall c :: c in Cast(characters, ids) <==>
              exists i :: 0 <= i < |ids| && FindCharacter(characters, ids[i]) == Some(c)
  {
    if ids != [] {
      CastMembers(characters, ids[1..]);
      forall c ensures (exists i :: 0 <= i < |ids[1..]| && FindCharacter(characters, ids[1..][i]) == Some(c))
                       ==> exists i :: 0 <= i < |ids| && FindCharacter(characters, ids[i]) == Some(c) {
        if exists i :: 0 <= i < |ids[1..]| && FindCharacter(characters, ids[1..][i]) == Some(c) {
          var i :| 0 <= i < |ids[1..]| && FindCharacter(characters, ids[1..][i]) == Some(c);
          assert FindCharacter(characters, ids[i + 1]) == Some(c);
        }
      }
      forall c ensures (exists i :: 0 <= i < |ids| && FindCharacter(characters, ids[i]) == Some(c))
                       ==> c in Cast(characters, ids) {
        if exists i :: 0 <= i < |ids| && FindCharacter(characters, ids[i]) == Some(c) {
          var i :| 0 <= i < |ids| && FindCharacter(characters, ids[i]) == Some(c);
          if i > 0 {
            assert FindCharacter(characters, ids[1..][i - 1]) == Some(c);
          }
        }
      }
    }
  }

  /** The cast is empty exactly when no id resolves. */
  lemma {:induction false} CastEmptyIff(characters: seq<Character>, ids: seq<string>)
    ensures Cast(characters, ids) == [] <==>
              forall i :: 0 <= i < |ids| ==> FindCharacter(characters, ids[i]).None?
  {
    if ids != [] {
      CastEmptyIff(characters, ids[1..]);
      if forall i :: 0 <= i < |ids[1..]| ==> FindCharacter(characters, ids[1..][i]).None? {
        forall i | 1 <= i < |ids| ensures FindCharacter(characters, ids[i]).None? {
          assert ids[i] == ids[1..][i - 1];
        }
      }
    }
  }

  function Names(cast: seq<Character>): (r: seq<string>)
    ensures |r| == |cast|
    ensures forall i :: 0 <= i < |cast| ==> r[i] == cast[i].name
  {
    seq(|cast|, i requires 0 <= i < |cast| => cast[i].name)
  }

  // Relationship notes of a scene.

  /** One relationship between two characters. */
  datatype Link = Link(from: Character, to: Character, rel: Relationship)

  /** The links `char1.relationships.forEach` pushes for one participant:
      those whose target resolves to a character that is also a participant
      of the scene, in the order of the relationships. */
  function SceneLinksOf(characters: seq<Character>, from: Character, rels: seq<Relationship>, ids: seq<string>): (r: seq<Link>)
    ensures forall i :: 0 <= i < |r| ==>
              r[i].from == from && r[i].rel in rels && r[i].to.id in ids
              && FindCharacter(characters, r[i].rel.target) == Some(r[i].to)
  {
    if rels == [] then []
    else
      var rest := SceneLinksOf(characters, from, rels[..|rels| - 1], ids);
      var rel := rels[|rels| - 1];
      var to := FindCharacter(characters, rel.target);
      rest + (if to.Some? && to.value.id in ids then [Link(from, to.value, rel)] else [])
  }

  /** Every relationship to another participant gives a link. */
  lemma {:induction false} SceneLinksOfComplete(characters: seq<Character>, from: Character, rels: seq<Relationship>,
                                                ids: seq<string>, rel: Relationship, to: Character)
    requires rel in rels && FindCharacter(characters, rel.target) == Some(to) && to.id in ids
    ensures Link(from, to, rel) in SceneLinksOf(characters, from, rels, ids)
  {
    if rels[|rels| - 1] != rel {
      var i :| 0 <= i < |rels| && rels[i] == rel;
      assert rels[..|rels| - 1][i] == rel;
      SceneLinksOfComplete(characters, from, rels[..|rels| - 1], ids, rel, to);
    }
  }

  /** The notes of a scene over its cast, or `None` when a participant's
      relationships are an object (the `forEach` that throws). */
  function SceneLinks(characters: seq<Character>, cast: seq<Character>, ids: seq<string>): (r: Option<seq<Link>>)
    ensures r.None? <==> exists i :: 0 <= i < |cast| && cast[i].relationships.RelObject?
    ensures r.Some? ==> forall i :: 0 <= i < |r.value| ==>
              r.value[i].from in cast && r.value[i].rel in r.value[i].from.relationships.items
              && r.value[i].to.id in ids && FindCharacter(characters, r.value[i].rel.target) == Some(r.value[i].to)
  {
    if cast == [] then Some([])
    else
      var rest := SceneLinks(characters, cast[..|cast| - 1], ids);
      var c := cast[|cast| - 1];
      if rest.None? then
        var i :| 0 <= i < |cast[..|cast| - 1]| && cast[..|cast| - 1][i].relationships.RelObject?;
        assert cast[i].relationships.RelObject?;
        None
      else if c.relationships.RelObject? then None
      else
        var more := SceneLinksOf(characters, c, c.relationships.items, ids);
        assert forall i :: 0 <= i < |rest.value| ==> rest.value[i].from in cast by {
          forall i | 0 <= i < |rest.value| ensures rest.value[i].from in cast {
            var j :| 0 <= j < |cast[..|cast| - 1]| && cast[..|cast| - 1][j] == rest.value[i].from;
            assert cast[j] == rest.value[i].from;
          }
        }
        assert forall i :: 0 <= i < |cast| - 1 ==> !cast[i].relationships.RelObject? by {
          forall i | 0 <= i < |cast| - 1 ensures !cast[i].relationships.RelObject? {
            assert cast[..|cast| - 1][i] == cast[i];
          }
        }
        Some(rest.value + more)
  }

  /** Every relationship between two participants is noted, when the notes
      are produced at all. */
  lemma {:induction false} SceneLinksComplete(characters: seq<Character>, cast: seq<Character>, ids: seq<string>,
                                              from: Character, rel: Relationship, to: Character)
    requires SceneLinks(characters, cast, ids).Some?
    requires from in cast && from.relationships.RelArray? && rel in from.relationships.items
    requires FindCharacter(characters, rel.target) == Some(to) && to.id in ids
    ensures Link(from, to, rel) in SceneLinks(characters, cast, ids).value
  {
    var last := cast[|cast| - 1];
    var rest := SceneLinks(characters, cast[..|cast| - 1], ids);
    if last == from {
      SceneLinksOfComplete(characters, from, from.relationships.items, ids, rel, to);
    } else {
      var i :| 0 <= i < |cast| && cast[i] == from;
      assert cast[..|cast| - 1][i] == from;
      SceneLinksComplete(characters, cast[..|cast| - 1], ids, from, rel, to);
    }
  }

  /** The nested `forEach` that collects the notes of a scene. */
  method CollectLinks(characters: seq<Character>, cast: seq<Character>, ids: seq<string>) returns (r: Option<seq<Link>>)
    ensures r == SceneLinks(characters, cast, ids)
  {
    var notes: seq<Link> := [];
    var i := 0;
    while i < |cast|
      invariant 0 <= i <= |cast|
      invariant SceneLinks(characters, cast[..i], ids) == Some(notes)
    {
      var c := cast[i];
      assert cast[..i + 1][..i] == cast[..i];
      if c.relationships.RelObject? {
        assert cast[..i + 1][i] == c;
        NoLinksPastObject(characters, cast, ids, i + 1);
        return None;
      }
      var rels := c.relationships.items;
      var more: seq<Link> := [];
      var j := 0;
      while j < |rels|
        invariant 0 <= j <= |rels|
        invariant more == SceneLinksOf(characters, c, rels[..j], ids)
      {
        var rel := rels[j];
        assert rels[..j + 1][..j] == rels[..j];
        var to := FindCharacter(characters, rel.target);
        if to.Some? && to.value.id in ids {
          more := more + [Link(c, to.value, rel)];
        }
        j := j + 1;
      }
      assert rels[..j] == rels;
      notes := notes + more;
      i := i + 1;
    }
    assert cast[..i] == cast;
    return Some(notes);
  }

  /** Once a prefix of the cast fails, the whole cast fails. */
  lemma NoLinksPastObject(characters: seq<Character>, cast: seq<Character>, ids: seq<string>, n: nat)
    requires n <= |cast| && SceneLinks(characters, cast[..n], ids).None?
    ensures SceneLinks(characters, cast, ids).None?
  {
    var i :| 0 <= i < |cast[..n]| && cast[..n][i].relationships.RelObject?;
    assert cast[i].relationships.RelObject?;
  }

  function NoteLine(l: Link): string {
    "- " + l.from.name + "与" + l.to.name + "：" + l.rel.kind + " - " + l.rel.description + "\n"
  }

  function NoteLines(links: seq<Link>): string {
    ConcatMap(NoteLine, links)
  }

  // One scene.

  function SceneHeading(scene: Scene): string {
    "## 第" + IntToString(scene.order + 1) + "幕：" + scene.title + "\n\n"
  }

  /** The participants line and the relationship notes; nothing when no
      participant resolves. */
  function CastPart(characters: seq<Character>, scene: Scene): Option<string> {
    var cast := Cast(characters, scene.characters);
    if cast == [] then Some("")
    else
      match SceneLinks(characters, cast, scene.characters)
      case None => None
      case Some(links) =>
        Some(CastLabel + Join(Names(cast), "、") + Blank
             + (if links == [] then "" else NotesLabel + NoteLines(links) + "\n"))
  }

  /** The scene's content, or the placeholder when it is blank. */
  function ContentPart(content: string): string {
    if Trim(content) != "" then ContentLabel + content else Placeholder
  }

  function SceneSection(characters: seq<Character>, scene: Scene): Option<string> {
    match CastPart(characters, scene)
    case None => None
    case Some(castPart) =>
      Some(SceneHeading(scene) + SceneMiddle(scene, castPart) + SceneEnd)
  }

  function SceneMiddle(scene: Scene, castPart: string): string {
    DescriptionLabel + scene.description + Blank + castPart + ContentPart(scene.content)
  }

  /** The participants line appears exactly when some participant id
      resolves. */
  lemma CastPartIff(characters: seq<Character>, scene: Scene)
    requires CastPart(characters, scene).Some?
    ensures CastPart(characters, scene).value == "" <==>
              forall i :: 0 <= i < |scene.characters| ==> FindCharacter(characters, scene.characters[i]).None?
  {
    CastEmptyIff(characters, scene.characters);
  }

  /** The placeholder is shown exactly when the content is empty or all
      whitespace. */
  lemma PlaceholderIff(content: string)
    ensures ContentPart(content) == Placeholder <==> forall k :: 0 <= k < |content| ==> IsSpace(content[k])
  {
    TrimEmptyIff(content);
    if Trim(content) != "" {
      assert (ContentLabel + content)[1] == ContentLabel[1] == '*';
      assert Placeholder[1] == '此';
    }
  }

  /** A section opens with `## 第<order+1>幕：<title>` and closes with the
      rule `\n\n---\n\n`. */
  lemma SceneSectionFrame(characters: seq<Character>, scene: Scene)
    requires SceneSection(characters, scene).Some?
    ensures var s := SceneSection(characters, scene).value;
            |s| >= |SceneHeading(scene)| + |SceneEnd|
            && s[..|SceneHeading(scene)|] == SceneHeading(scene)
            && s[|s| - |SceneEnd|..] == SceneEnd
  {
    var s := SceneSection(characters, scene).value;
    var h := SceneHeading(scene);
    var mid := SceneMiddle(scene, CastPart(characters, scene).value);
    assert s == h + mid + SceneEnd;
    FrameOf(h, mid, SceneEnd);
  }

  lemma FrameOf(a: string, b: string, c: string)
    ensures var s := a + b + c; |s| >= |a| + |c| && s[..|a|] == a && s[|s| - |c|..] == c
  {
  }

  /** A section fails exactly when a resolved participant's relationships
      are an object. */
  lemma SceneSectionFailsIff(characters: seq<Character>, scene: Scene)
    ensures SceneSection(characters, scene).None? <==> Breaks(characters, scene)
  {
    var cast := Cast(characters, scene.characters);
    if exists c :: c in cast && c.relationships.RelObject? {
      var c :| c in cast && c.relationships.RelObject?;
      var i :| 0 <= i < |cast| && cast[i] == c;
    }
  }

  /** `scenes.map(section)`, failing when any section fails. */
  function DraftSections(characters: seq<Character>, scenes: seq<Scene>): Option<seq<string>> {
    MapAll(s => SceneSection(characters, s), scenes)
  }

  // The character list.

  /** One `- 与<name>：<type> - <description>` line, or nothing when the
      target does not resolve. */
  function RelLine(characters: seq<Character>, rel: Relationship): string {
    match FindCharacter(characters, rel.target)
    case None => ""
    case Some(target) => "- 与" + target.name + "：" + rel.kind + " - " + rel.description + "\n"
  }

  function RelLines(characters: seq<Character>, rels: seq<Relationship>): string {
    ConcatMap(rel => RelLine(characters, rel), rels)
  }

  predicate Resolves(characters: seq<Character>, rel: Relationship) {
    FindCharacter(characters, rel.target).Some?
  }

  /** Relationships whose target does not resolve leave no trace: the lines
      are those of the resolving relationships alone. */
  lemma RelLinesOmitUnresolved(characters: seq<Character>, rels: seq<Relationship>)
    ensures RelLines(characters, rels) == RelLines(characters, Filter(rels, rel => Resolves(characters, rel)))
  {
    ConcatMapFilter(rel => RelLine(characters, rel), rels, rel => Resolves(characters, rel));
  }

  /** With no resolving target there are no relationship lines. */
  lemma NoResolvedNoLines(characters: seq<Character>, rels: seq<Relationship>)
    requires forall i :: 0 <= i < |rels| ==> !Resolves(characters, rels[i])
    ensures RelLines(characters, rels) == ""
  {
    RelLinesOmitUnresolved(characters, rels);
    FilterNone(rels, rel => Resolves(characters, rel));
  }

  /** The relationships block: only for a non-empty array (an object has no
      `length`, so the test is false and nothing is written). */
  function RelBlock(characters: seq<Character>, rels: Relationships): string {
    if rels.RelArray? && |rels.items| > 0 then RelationsLabel + RelLines(characters, rels.items) + "\n" else ""
  }

  function EntryHead(c: Character): string {
    NameLabel + c.name + Blank + c.description + Blank
    + BackgroundLabel + (if c.background == "" then NoBackground else c.background) + Blank
  }

  function CharacterEntry(characters: seq<Character>, c: Character): string {
    EntryHead(c) + RelBlock(characters, c.relationships)
  }

  function Entries(characters: seq<Character>, cs: seq<Character>): string {
    ConcatMap(c => CharacterEntry(characters, c), cs)
  }

  function CharacterSection(characters: seq<Character>): string {
    CharactersHeading + Entries(characters, characters) + SectionRule
  }

  /** The outer `forEach` that grows `characterSection` with `+=`. */
  method BuildCharacterSection(characters: seq<Character>) returns (section: string)
    ensures section == CharacterSection(characters)
  {
    section := CharactersHeading;
    var i := 0;
    while i < |characters|
      invariant 0 <= i <= |characters|
      invariant section == CharactersHeading + Entries(characters, characters[..i])
    {
      var c := characters[i];
      var block := BuildRelBlock(characters, c.relationships);
      ConcatMapStep(c => CharacterEntry(characters, c), characters, i);
      AppendAssoc(CharactersHeading, Entries(characters, characters[..i]), CharacterEntry(characters, c));
      section := section + (EntryHead(c) + block);
      i := i + 1;
    }
    assert characters[..i] == characters;
    section := section + SectionRule;
  }

  /** The inner `forEach` over one character's relationships. */
  method BuildRelBlock(characters: seq<Character>, rels: Relationships) returns (block: string)
    ensures block == RelBlock(characters, rels)
  {
    if !(rels.RelArray? && |rels.items| > 0) {
      return "";
    }
    var items := rels.items;
    var lines := "";
    var j := 0;
    while j < |items|
      invariant 0 <= j <= |items|
      invariant lines == RelLines(characters, items[..j])
    {
      ConcatMapStep(rel => RelLine(characters, rel), items, j);
      lines := lines + RelLine(characters, items[j]);
      j := j + 1;
    }
    assert items[..j] == items;
    block := RelationsLabel + lines + "\n";
  }

  // The whole draft.

  function Overview(description: string): string {
    "## 剧本概述\n\n" + (if description == "" then "无描述" else description) + SceneEnd
  }

  /** The draft: the title line, the overview, the character list, then the
      scene sections in ascending `order`; `None` when a section fails. */
  function FirstDraft(script: Script): (r: Option<string>)
    ensures r.Some? ==> Marker(script.title) <= r.value
  {
    match DraftSections(script.characters, SortedScenes(script.scenes))
    case None => None
    case Some(sections) => Some(Marker(script.title) + DraftBody(script, sections))
  }

  function DraftBody(script: Script, sections: seq<string>): string {
    Blank + Overview(script.description) + CharacterSection(script.characters) + Concat(sections)
  }

  /** A scene breaks the draft when one of its resolved participants has
      its relationships stored as an object. */
  ghost predicate Breaks(characters: seq<Character>, scene: Scene) {
    exists c :: c in Cast(characters, scene.characters) && c.relationships.RelObject?
  }

  /** Sorting keeps the same scenes. */
  lemma SortedSameScenes(scenes: seq<Scene>)
    ensures forall s :: s in SortedScenes(scenes) <==> s in scenes
  {
    var sorted := SortedScenes(scenes);
    forall s | s in sorted ensures s in scenes {
      assert s in multiset(sorted);
    }
    forall s | s in scenes ensures s in sorted {
      assert s in multiset(scenes);
    }
  }

  /** The draft is produced exactly when no scene has a resolved participant
      whose relationships are an object. */
  lemma DraftFailsIff(script: Script)
    ensures FirstDraft(script).None? <==> exists s :: s in script.scenes && Breaks(script.characters, s)
  {
    SortedSameScenes(script.scenes);
    SectionsFailIff(script.characters, SortedScenes(script.scenes));
  }

  /** The scene sections fail exactly when one of the scenes breaks. */
  lemma SectionsFailIff(characters: seq<Character>, scenes: seq<Scene>)
    ensures DraftSections(characters, scenes).None? <==> exists s :: s in scenes && Breaks(characters, s)
  {
    if DraftSections(characters, scenes).None? {
      var i :| 0 <= i < |scenes| && SceneSection(characters, scenes[i]).None?;
      SceneSectionFailsIff(characters, scenes[i]);
    }
    if exists s :: s in scenes && Breaks(characters, s) {
      var s :| s in scenes && Breaks(characters, s);
      var i :| 0 <= i < |scenes| && scenes[i] == s;
      SceneSectionFailsIff(characters, s);
    }
  }

  /** The scene sections of a draft follow the scenes sorted by `order`:
      the i-th section is that of the i-th scene in ascending order. */
  lemma DraftScenesInOrder(script: Script)
    requires FirstDraft(script).Some?
    ensures var sorted := SortedScenes(script.scenes);
            var sections := DraftSections(script.characters, sorted).value;
            FirstDraft(script).value == Marker(script.title) + DraftBody(script, sections)
            && |sections| == |script.scenes|
            && (forall i :: 0 <= i < |sections| ==> SceneSection(script.characters, sorted[i]) == Some(sections[i]))
            && (forall i, j :: 0 <= i < j < |sorted| ==> sorted[i].order <= sorted[j].order)
  {
  }

  /** A stored draft opens with the marker, so the effect does not generate
      it again. */
  lemma DraftStopsAutoGeneration(script: Script, now: int)
    requires FirstDraft(script).Some?
    ensures !NeedsDraft(script.(outline := FirstDraft(script).value, updatedAt := now))
  {
    var rest := DraftBody(script, DraftSections(script.characters, SortedScenes(script.scenes)).value);
    OccursAtStart(Marker(script.title), rest);
  }

  /** `currentScript.scenes.sort(...)`: the sort reorders the current
      script's scene array in place, so the stored script sees it too,
      whether or not the draft is then produced. */
  function SortCurrentScenes(scripts: seq<Script>, currentId: Option<string>): (r: seq<Script>)
    ensures |r| == |scripts|
    ensures forall i :: 0 <= i < |scripts| ==> r[i].id == scripts[i].id
    ensures CurrentScript(scripts, currentId).None? ==> r == scripts
    ensures CurrentScript(scripts, currentId).Some? ==>
              var cur := CurrentScript(scripts, currentId).value;
              CurrentScript(r, currentId) == Some(cur.(scenes := SortedScenes(cur.scenes)))
              && forall i :: 0 <= i < |scripts| && i != IndexOfScript(scripts, cur.id) ==> r[i] == scripts[i]
  {
    var cur := CurrentScript(scripts, currentId);
    if cur.None? then scripts
    else
      var k := IndexOfScript(scripts, cur.value.id);
      var r := scripts[k := cur.value.(scenes := SortedScenes(cur.value.scenes))];
      IndexOfScriptSameIds(scripts, r, cur.value.id);
      r
  }

  /** The draft panel: its text area, over the store it reads and writes. */
  class DraftPanel {
    const store: ScriptStore
    var draftContent: string

    constructor(store: ScriptStore)
      ensures this.store == store && draftContent == ""
    {
      this.store := store;
      draftContent := "";
    }

    /** `generateDraft`: sorts the current scenes in place, then shows and
        stores the draft, or leaves both as they were when it throws. */
    method GenerateDraft(now: int)
      requires store.Current().Some?
      modifies this, store
      ensures store.currentId == old(store.currentId)
      ensures var cur := old(store.Current()).value;
              var sorted := cur.(scenes := SortedScenes(cur.scenes));
              var after := SortCurrentScenes(old(store.scripts), old(store.currentId));
              match FirstDraft(cur)
              case None =>
                draftContent == old(draftContent) && store.scripts == after
              case Some(d) =>
                draftContent == d
                && store.scripts == ReplaceScript(after, sorted.(outline := d), now)
                && store.Current() == Some(sorted.(outline := d, updatedAt := now))
    {
      var cur := store.Current().value;
      store.scripts := SortCurrentScenes(store.scripts, store.currentId);
      var sections := DraftSections(cur.characters, SortedScenes(cur.scenes));
      if sections.None? {
        return;
      }
      var characterSection := BuildCharacterSection(cur.characters);
      var complete := Marker(cur.title) + (Blank + Overview(cur.description) + characterSection + Concat(sections.value));
      draftContent := complete;
      store.UpdateOutline(complete, now);
    }

    /** The effect run when the current script changes: show the outline,
        and generate the draft when the outline does not hold one yet. */
    method OnCurrentScript(now: int)
      modifies this, store
      ensures store.currentId == old(store.currentId)
      ensures old(store.Current()).None? ==>
                draftContent == old(draftContent) && store.scripts == old(store.scripts)
      ensures old(store.Current()).Some? && !NeedsDraft(old(store.Current()).value) ==>
                draftContent == old(store.Current()).value.outline && store.scripts == old(store.scripts)
      ensures old(store.Current()).Some? && NeedsDraft(old(store.Current()).value) ==>
                var cur := old(store.Current()).value;
                var sorted := cur.(scenes := SortedScenes(cur.scenes));
                var after := SortCurrentScenes(old(store.scripts), old(store.currentId));
                match FirstDraft(cur)
                case None => draftContent == cur.outline && store.scripts == after
                case Some(d) =>
                  draftContent == d
                  && store.scripts == ReplaceScript(after, sorted.(outline := d), now)
                  && store.Current() == Some(sorted.(outline := d, updatedAt := now))
                  && !NeedsDraft(store.Current().value)
    {
      var cur := store.Current();
      if cur.None? { return; }
      draftContent := cur.value.outline;
      if NeedsDraft(cur.value) {
        GenerateDraft(now);
        if FirstDraft(cur.value).Some? {
          DraftStopsAutoGeneration(cur.value, now);
        }
      }
    }
  }
}
