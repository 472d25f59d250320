/** The Copilot panel of src/components/Copilot.tsx: the fragment selection
    toggle, sending a message, the search effect and the guided creation
    that writes an outline, one character per line of the settings and a
    run of workflow steps into the current script.  The delays between the
    stages are dropped; ids and the clock are parameters. */
module Copilot {
  import opened Wrappers
  import opened Strings
  import opened Seqs
  import opened Types
  import opened ScriptContext
  import opened CopilotContext
  import opened WorkflowView

  /** `toggleFragmentSelection`: drops every copy of a selected id, appends
      an unselected one. */
  function Toggle(selected: seq<string>, id: string): (r: seq<string>)
    ensures id in selected ==> id !in r && forall x :: x in r <==> x in selected && x != id
    ensures id !in selected ==> r == selected + [id]
  {
    if id in selected then
      FilterMembers(selected, x => x != id);
      Filter(selected, x => x != id)
    else selected + [id]
  }

  /** Toggling twice restores membership, and restores the very list when
      the id was not selected. */
  lemma ToggleTwice(selected: seq<string>, id: string)
    ensures forall x :: x in Toggle(Toggle(selected, id), id) <==> x in selected
    ensures id !in selected ==> Toggle(Toggle(selected, id), id) == selected
  {
    if id !in selected {
      var p := (x: string) => x != id;
      FilterAppend(selected, [id], p);
      FilterAll(selected, p);
      FilterNone([id], p);
      assert Filter(selected + [id], p) == selected;
    }
  }

  const Unnamed: string := "未命名角色"
  const BackgroundSuffix: string := "的背景故事"

  /** `line.split(':')[0]?.trim() || '未命名角色'`. */
  function CharacterName(line: string): (r: string)
    ensures r != ""
    ensures r == Unnamed || (Trim(r) == r && ':' !in r && forall c :: c in r ==> c in line)
  {
    var head := Split(line, ':')[0];
    TrimTwice(head);
    TrimChars(head);
    SplitChars(line, ':', 0);
    if Trim(head) == "" then Unnamed else Trim(head)
  }

  /** A line `name:rest` with a trimmed name gives back that name. */
  lemma NamedLine(name: string, rest: string)
    requires name != "" && Trim(name) == name && ':' !in name
    ensures CharacterName(name + ":" + rest) == name
  {
    var line := name + ":" + rest;
    var i := IndexOfChar(line, ':');
    assert line[|name|] == ':';
    assert forall k :: 0 <= k < |name| ==> line[k] == name[k] && name[k] in name;
    assert i == |name|;
    assert line[..|name|] == name;
  }

  /** A line with nothing before its first `:` is an unnamed character. */
  lemma UnnamedLine(rest: string)
    ensures CharacterName(":" + rest) == Unnamed
  {
    var line := ":" + rest;
    assert IndexOfChar(line, ':') == 0;
    assert Split(line, ':')[0] == "";
  }

  predicate NonBlank(line: string) {
    Trim(line) != ""
  }

  /** The character `addCharacter` receives for a line: the whole line is
      the description. */
  function NewCharacter(line: string, id: string): Character {
    var name := CharacterName(line);
    Character(id, name, line, name + BackgroundSuffix, RelArray([]))
  }

  /** The characters added for `lines`, line `k` with id `ids(k)`; blank
      lines add none. */
  function NewCharacters(lines: seq<string>, ids: nat -> string): seq<Character>
    decreases |lines|
  {
    if lines == [] then []
    else
      var k := |lines| - 1;
      NewCharacters(lines[..k], ids) + (if NonBlank(lines[k]) then [NewCharacter(lines[k], ids(k))] else [])
  }

  /** One character per non-blank line, in line order, each described by
      its line. */
  lemma {:induction false} NewCharactersFollowLines(lines: seq<string>, ids: nat -> string)
    ensures |NewCharacters(lines, ids)| == |Filter(lines, NonBlank)|
    ensures forall i :: 0 <= i < |NewCharacters(lines, ids)| ==>
              NewCharacters(lines, ids)[i].description == Filter(lines, NonBlank)[i]
    decreases |lines|
  {
    if lines != [] {
      var k := |lines| - 1;
      NewCharactersFollowLines(lines[..k], ids);
      FilterLast(lines, NonBlank);
      var before, kept := NewCharacters(lines[..k], ids), Filter(lines[..k], NonBlank);
      if NonBlank(lines[k]) {
        assert NewCharacters(lines, ids) == before + [NewCharacter(lines[k], ids(k))];
        assert Filter(lines, NonBlank) == kept + [lines[k]];
      } else {
        assert NewCharacters(lines, ids) == before;
        assert Filter(lines, NonBlank) == kept;
      }
    }
  }

  /** Every added character is named from its line, has the background
      built from that name and no relationships yet. */
  lemma {:induction false} NewCharactersShape(lines: seq<string>, ids: nat -> string)
    ensures forall c :: c in NewCharacters(lines, ids) ==>
              c.name == CharacterName(c.description) && c.background == c.name + BackgroundSuffix
              && c.relationships == RelArray([])
    decreases |lines|
  {
    if lines != [] {
      NewCharactersShape(lines[..|lines| - 1], ids);
    }
  }

  const OutlineHead: string := "# "
  const BackgroundHeading: string := "\n\n## 故事背景\n"
  const ConflictSection: string := "\n\n## 核心冲突\n根据角色背景衍生的核心冲突与矛盾"

  /** The outline guided creation writes. */
  function GuidedOutline(title: string, background: string): string {
    OutlineHead + title + BackgroundHeading + background + ConflictSection
  }

  /** The title and the background appear verbatim in the outline, which
      opens with the title's heading. */
  lemma GuidedOutlineQuotes(title: string, background: string)
    ensures Occurs(title, GuidedOutline(title, background)) && Occurs(background, GuidedOutline(title, background))
    ensures StartsWith(GuidedOutline(title, background), OutlineHead + title)
  {
    QuotedTwice(OutlineHead, title, BackgroundHeading, background, ConflictSection);
    var r := GuidedOutline(title, background);
    assert r == (OutlineHead + title) + (BackgroundHeading + background + ConflictSection);
    assert r[..|OutlineHead + title|] == OutlineHead + title;
  }

  /** The stages shown while generating, and the progress after each; the
      last value is shown once every stage is done. */
  const GenerationSteps: seq<WorkflowStep> := [Outline, Relationships, Scenes, Draft]
  const Progress: seq<nat> := [20, 40, 60, 90, 100]

  /** The stages are the workflow bar's steps in bar order with
      `characters`, the second, skipped; the progress rises to 100. */
  lemma GenerationMovesForward()
    ensures GenerationSteps == [Steps[0], Steps[2], Steps[3], Steps[4]]
    ensures Steps[1] == Characters && Characters !in GenerationSteps
    ensures |Progress| == |GenerationSteps| + 1
    ensures forall i, j :: 0 <= i < j < |Progress| ==> Progress[i] < Progress[j]
    ensures Progress[|Progress| - 1] == 100
  {
  }

  /** One change to the current script, as the store's setters make it. */
  datatype Write = SetOutline(outline: string) | SetStep(step: WorkflowStep) | AddCast(character: Character)

  function Apply(s: Script, w: Write): Script {
    match w
    case SetOutline(o) => s.(outline := o)
    case SetStep(step) => s.(currentStep := step)
    case AddCast(c) => s.(characters := s.characters + [c])
  }

  /** The writes applied one after the other. */
  function ApplyAll(s: Script, ws: seq<Write>): Script
    decreases |ws|
  {
    if ws == [] then s else ApplyAll(Apply(s, ws[0]), ws[1..])
  }

  lemma {:induction false} ApplyAllAppend(s: Script, a: seq<Write>, b: seq<Write>)
    ensures ApplyAll(s, a + b) == ApplyAll(ApplyAll(s, a), b)
    decreases |a|
  {
    if a == [] {
      assert a + b == b;
    } else {
      assert (a + b)[1..] == a[1..] + b;
      ApplyAllAppend(Apply(s, a[0]), a[1..], b);
    }
  }

  function CastWrites(cast: seq<Character>): seq<Write> {
    seq(|cast|, i requires 0 <= i < |cast| => AddCast(cast[i]))
  }

  /** Adding characters one by one appends them in order. */
  lemma {:induction false} CastWritesAppend(s: Script, cast: seq<Character>)
    ensures ApplyAll(s, CastWrites(cast)) == s.(characters := s.characters + cast)
    decreases |cast|
  {
    if cast != [] {
      assert CastWrites(cast)[1..] == CastWrites(cast[1..]);
      CastWritesAppend(Apply(s, AddCast(cast[0])), cast[1..]);
      assert s.characters + [cast[0]] + cast[1..] == s.characters + cast;
    }
  }

  /** The writes `simulateAiGeneration` makes, in order. */
  function GuidedWrites(title: string, background: string, settings: string, ids: nat -> string): seq<Write> {
    [SetOutline(GuidedOutline(title, background)), SetStep(Outline)]
    + CastWrites(NewCharacters(Split(settings, '\n'), ids))
    + [SetStep(Relationships), SetStep(Scenes), SetStep(Draft)]
  }

  /** The script guided creation is meant to leave: the guided outline,
      the old cast followed by one character per non-blank settings line,
      and the `draft` step. */
  function Guided(cur: Script, background: string, settings: string, ids: nat -> string): (r: Script)
    ensures r.id == cur.id && r.title == cur.title && r.scenes == cur.scenes && r.currentStep == Draft
    ensures Occurs(background, r.outline)
    ensures cur.characters <= r.characters
  {
    GuidedOutlineQuotes(cur.title, background);
    cur.(outline := GuidedOutline(cur.title, background),
         characters := cur.characters + NewCharacters(Split(settings, '\n'), ids),
         currentStep := Draft)
  }

  /** Applied one after the other, the writes `simulateAiGeneration` makes
      leave that script; nothing else changes. */
  lemma GuidedResult(cur: Script, background: string, settings: string, ids: nat -> string)
    ensures ApplyAll(cur, GuidedWrites(cur.title, background, settings, ids)) == Guided(cur, background, settings, ids)
  {
    var outline := GuidedOutline(cur.title, background);
    var head := [SetOutline(outline), SetStep(Outline)];
    var cast := NewCharacters(Split(settings, '\n'), ids);
    var tail := [SetStep(Relationships), SetStep(Scenes), SetStep(Draft)];
    ApplyAllAppend(cur, head + CastWrites(cast), tail);
    ApplyAllAppend(cur, head, CastWrites(cast));
    HeadWrites(cur, outline);
    var s2 := cur.(outline := outline, currentStep := Outline);
    CastWritesAppend(s2, cast);
    TailWrites(s2.(characters := s2.characters + cast));
  }

  lemma HeadWrites(s: Script, outline: string)
    ensures ApplyAll(s, [SetOutline(outline), SetStep(Outline)]) == s.(outline := outline, currentStep := Outline)
  {
    var ws := [SetOutline(outline), SetStep(Outline)];
    var s1 := Apply(s, ws[0]);
    assert ApplyAll(s, ws) == ApplyAll(s1, ws[1..]);
    assert ws[1..] == [SetStep(Outline)];
    assert ApplyAll(s1, ws[1..]) == ApplyAll(Apply(s1, SetStep(Outline)), []);
  }

  lemma TailWrites(s: Script)
    ensures ApplyAll(s, [SetStep(Relationships), SetStep(Scenes), SetStep(Draft)]) == s.(currentStep := Draft)
  {
    var ws := [SetStep(Relationships), SetStep(Scenes), SetStep(Draft)];
    assert ws[1..] == [SetStep(Scenes), SetStep(Draft)];
    assert ws[1..][1..] == [SetStep(Draft)];
    assert ws[1..][1..][1..] == [];
  }

  /** The scripts list as the source's setters leave it: each write maps
      over the same rendered `snapshot` and starts from the same rendered
      current script `cur`, so each replaces the state the previous one
      left. */
  function StaleRun(state: seq<Script>, snapshot: seq<Script>, cur: Script, ws: seq<Write>, now: int): seq<Script>
    decreases |ws|
  {
    if ws == [] then state else StaleRun(ReplaceScript(snapshot, Apply(cur, ws[0]), now), snapshot, cur, ws[1..], now)
  }

  /** Only the last write survives. */
  lemma {:induction false} StaleRunLast(state: seq<Script>, snapshot: seq<Script>, cur: Script, ws: seq<Write>, now: int)
    requires ws != []
    ensures StaleRun(state, snapshot, cur, ws, now) == ReplaceScript(snapshot, Apply(cur, ws[|ws| - 1]), now)
    decreases |ws|
  {
    var next := ReplaceScript(snapshot, Apply(cur, ws[0]), now);
    assert StaleRun(state, snapshot, cur, ws, now) == StaleRun(next, snapshot, cur, ws[1..], now);
    if |ws| > 1 {
      StaleRunLast(next, snapshot, cur, ws[1..], now);
      assert ws[1..][|ws[1..]| - 1] == ws[|ws| - 1];
    } else {
      assert ws[1..] == [];
    }
  }

  /** `simulateAiGeneration` as written: the scripts list after its writes,
      each made through a setter that closes over the rendered list. */
  function StaleGuidedCreation(scripts: seq<Script>, currentId: Option<string>, background: string,
                               settings: string, ids: nat -> string, now: int): (r: seq<Script>)
    ensures CurrentScript(scripts, currentId).None? ==> r == scripts
    ensures |r| == |scripts| && forall i :: 0 <= i < |r| ==> r[i].id == scripts[i].id
  {
    match CurrentScript(scripts, currentId)
    case None => scripts
    case Some(cur) =>
      var ws := GuidedWrites(cur.title, background, settings, ids);
      StaleRunLast(scripts, scripts, cur, ws, now);
      StaleRun(scripts, scripts, cur, ws, now)
  }

  /** As written, guided creation only moves the current script to the
      `draft` step: its outline and its characters stay as they were. */
  lemma StaleGuidedKeepsOnlyStep(scripts: seq<Script>, currentId: Option<string>, background: string,
                                 settings: string, ids: nat -> string, now: int)
    requires CurrentScript(scripts, currentId).Some?
    ensures var cur := CurrentScript(scripts, currentId).value;
            StaleGuidedCreation(scripts, currentId, background, settings, ids, now)
            == ReplaceScript(scripts, cur.(currentStep := Draft), now)
    ensures var cur := CurrentScript(scripts, currentId).value;
            CurrentScript(StaleGuidedCreation(scripts, currentId, background, settings, ids, now), currentId)
            == Some(cur.(currentStep := Draft, updatedAt := now))
  {
    var cur := CurrentScript(scripts, currentId).value;
    var ws := GuidedWrites(cur.title, background, settings, ids);
    StaleRunLast(scripts, scripts, cur, ws, now);
    assert ws[|ws| - 1] == SetStep(Draft);
    CurrentAfterReplace(scripts, currentId, cur.(currentStep := Draft), now);
  }

  /** With a current script whose outline is not the guided one and
      settings holding a non-blank line, the code as written loses both the
      outline and the characters that guided creation is meant to add. */
  lemma StaleGuidedLosesWork(scripts: seq<Script>, currentId: Option<string>, background: string,
                             settings: string, ids: nat -> string, now: int, line: nat)
    requires CurrentScript(scripts, currentId).Some?
    requires CurrentScript(scripts, currentId).value.outline
             != GuidedOutline(CurrentScript(scripts, currentId).value.title, background)
    requires line < |Split(settings, '\n')| && NonBlank(Split(settings, '\n')[line])
    ensures var cur := CurrentScript(scripts, currentId).value;
            var left := CurrentScript(StaleGuidedCreation(scripts, currentId, background, settings, ids, now), currentId);
            var meant := Guided(cur, background, settings, ids);
            left.Some? && left.value.outline != meant.outline && |left.value.characters| < |meant.characters|
  {
    var cur := CurrentScript(scripts, currentId).value;
    var lines := Split(settings, '\n');
    StaleGuidedKeepsOnlyStep(scripts, currentId, background, settings, ids, now);
    GuidedResult(cur, background, settings, ids);
    NewCharactersFollowLines(lines, ids);
    FilterMembers(lines, NonBlank);
    assert lines[line] in Filter(lines, NonBlank);
  }

  /** The store holds `before` with `s`, stamped `now`, in place of the
      current script. */
  ghost predicate Leaves(store: ScriptStore, before: seq<Script>, s: Script, now: int)
    reads store
  {
    store.scripts == ReplaceScript(before, s, now) && store.Current() == Some(s.(updatedAt := now))
  }

  const DoneMessage: string := "我已经根据您提供的故事背景和角色设定完成了初步的剧本框架构建。现在您可以点击各个工作流步骤来查看和编辑内容，我会持续为您提供创作建议和辅助。需要任何帮助，请随时向我提问。"

  /** The panel's state, over the script store and the Copilot log it
      uses. */
  class CopilotPanel {
    const store: ScriptStore
    const log: CopilotLog
    var inputValue: string
    var selectedFragments: seq<string>
    var searchQuery: string
    var searchResults: seq<KnowledgeFragment>
    var showGuidedCreation: bool
    var storyBackground: string
    var characterSettings: string
    var isGenerating: bool
    var currentGenerationStep: WorkflowStep
    var generationProgress: nat

    constructor(store: ScriptStore, log: CopilotLog)
      ensures this.store == store && this.log == log
      ensures inputValue == "" && selectedFragments == [] && searchQuery == "" && searchResults == []
      ensures !showGuidedCreation && storyBackground == "" && characterSettings == ""
      ensures !isGenerating && currentGenerationStep == Outline && generationProgress == 0
    {
      this.store := store;
      this.log := log;
      inputValue, selectedFragments, searchQuery, searchResults := "", [], "", [];
      showGuidedCreation, storyBackground, characterSettings := false, "", "";
      isGenerating, currentGenerationStep, generationProgress := false, Outline, 0;
    }

    method ToggleFragmentSelection(id: string)
      modifies this`selectedFragments
      ensures selectedFragments == Toggle(old(selectedFragments), id)
    {
      selectedFragments := Toggle(selectedFragments, id);
    }

    /** `handleSendMessage`: a blank input sends nothing; otherwise the
        input goes out with the selected fragments, and the input, the
        selection and the search text are cleared. */
    method HandleSendMessage(freshId: string, now: int)
      modifies this`inputValue, this`selectedFragments, this`searchQuery, log
      ensures Trim(old(inputValue)) == "" ==>
                inputValue == old(inputValue) && selectedFragments == old(selectedFragments)
                && searchQuery == old(searchQuery) && log.messages == old(log.messages)
      ensures Trim(old(inputValue)) != "" ==>
                log.messages == old(log.messages) + [CopilotMessage(freshId, old(inputValue), User, now, old(selectedFragments))]
                && inputValue == "" && selectedFragments == [] && searchQuery == ""
    {
      if Trim(inputValue) != "" {
        log.SendMessage(inputValue, selectedFragments, User, freshId, now);
        inputValue := "";
        selectedFragments := [];
        searchQuery := "";
      }
    }

    /** The search effect: the results are the Copilot search for the
        current text, which is nothing for a blank text. */
    method OnSearchQuery()
      modifies this`searchResults
      ensures searchResults == Search(log.fragments, searchQuery)
      ensures Trim(searchQuery) == "" ==> searchResults == []
    {
      if Trim(searchQuery) != "" {
        searchResults := Search(log.fragments, searchQuery);
      } else {
        searchResults := [];
      }
    }

    /** Guided creation with each setter seeing the state the previous one
        left: the current script ends with the guided outline, one new
        character per non-blank settings line (line `k` gets id `ids(k)`)
        and the `draft` step; no other script changes; the completion
        message is appended with the default role `user`.  Without a
        current script nothing happens. */
    method SimulateAiGeneration(ids: nat -> string, messageId: string, now: int)
      modifies this`isGenerating, this`showGuidedCreation, this`currentGenerationStep, this`generationProgress
      modifies store, log
      ensures store.currentId == old(store.currentId)
      ensures old(store.Current()).None? ==>
                store.scripts == old(store.scripts) && log.messages == old(log.messages)
                && isGenerating == old(isGenerating) && showGuidedCreation == old(showGuidedCreation)
                && currentGenerationStep == old(currentGenerationStep) && generationProgress == old(generationProgress)
      ensures old(store.Current()).Some? ==>
                var done := Guided(old(store.Current()).value, storyBackground, characterSettings, ids);
                store.scripts == ReplaceScript(old(store.scripts), done, now)
                && store.Current() == Some(done.(updatedAt := now))
      ensures old(store.Current()).Some? ==>
                log.messages == old(log.messages) + [CopilotMessage(messageId, DoneMessage, User, now, [])]
                && !isGenerating && !showGuidedCreation
                && currentGenerationStep == Draft && generationProgress == 100
    {
      if store.Current().None? { return; }
      ghost var cur := store.Current().value;
      ghost var before := store.scripts;
      ghost var selected := store.currentId;
      isGenerating := true;
      WriteGuided(cur, storyBackground, characterSettings, ids, now);
      CurrentAfterReplace(before, selected, Guided(cur, storyBackground, characterSettings, ids), now);
      FinishGeneration(messageId, now);
    }

    /** The end of a run: the progress display reaches the last step at 100,
        the form closes and the completion message is logged. */
    method FinishGeneration(messageId: string, now: int)
      modifies this`isGenerating, this`showGuidedCreation, this`currentGenerationStep, this`generationProgress, log
      ensures log.messages == old(log.messages) + [CopilotMessage(messageId, DoneMessage, User, now, [])]
      ensures !isGenerating && !showGuidedCreation && currentGenerationStep == Draft && generationProgress == 100
    {
      currentGenerationStep, generationProgress, isGenerating, showGuidedCreation := Draft, 100, false, false;
      log.SendText(DoneMessage, messageId, now);
    }

    /** The store calls of guided creation, in order: `updateOutline`,
        `setWorkflowStep('outline')`, `addCharacter` for each non-blank
        line, then `setWorkflowStep` to `relationships`, `scenes` and
        `draft`, each seeing the state the previous one left. */
    method WriteGuided(ghost cur: Script, background: string, settings: string, ids: nat -> string, now: int)
      requires CurrentScript(store.scripts, store.currentId) == Some(cur)
      modifies store
      ensures store.currentId == old(store.currentId)
      ensures store.scripts == ReplaceScript(old(store.scripts), Guided(cur, background, settings, ids), now)
    {
      var start := store.Current().value;
      ghost var before := store.scripts;
      var outline := GuidedOutline(start.title, background);
      store.UpdateOutline(outline, now);
      SetStep(Outline, now, before, cur.(outline := outline));
      var stage := cur.(outline := outline, currentStep := Outline);
      var lines := Split(settings, '\n');
      AddCharacters(lines, ids, now, before, stage);
      var cast := stage.(characters := cur.characters + NewCharacters(lines, ids));
      SetStep(Relationships, now, before, cast);
      SetStep(Scenes, now, before, cast.(currentStep := Relationships));
      SetStep(Draft, now, before, cast.(currentStep := Scenes));
    }

    /** `setWorkflowStep(step)` on top of an earlier write of `s`. */
    method SetStep(step: WorkflowStep, now: int, ghost before: seq<Script>, ghost s: Script)
      requires Leaves(store, before, s, now)
      modifies store
      ensures store.currentId == old(store.currentId)
      ensures Leaves(store, before, s.(currentStep := step), now)
    {
      store.SetWorkflowStep(step, now);
      ReplaceScriptTwice(before, s, s.(currentStep := step, updatedAt := now), now, now);
      ReplaceScriptRestamps(before, s.(currentStep := step), now, now);
    }

    /** The loop over the settings lines: `addCharacter` for each non-blank
        line, on top of an earlier write of `s`. */
    method AddCharacters(lines: seq<string>, ids: nat -> string, now: int, ghost before: seq<Script>, ghost s: Script)
      requires Leaves(store, before, s, now)
      modifies store
      ensures store.currentId == old(store.currentId)
      ensures Leaves(store, before, s.(characters := s.characters + NewCharacters(lines, ids)), now)
    {
      assert s.(characters := s.characters + NewCharacters(lines[..0], ids)) == s;
      for i := 0 to |lines|
        invariant store.currentId == old(store.currentId)
        invariant Leaves(store, before, s.(characters := s.characters + NewCharacters(lines[..i], ids)), now)
      {
        ghost var sofar := s.(characters := s.characters + NewCharacters(lines[..i], ids));
        assert lines[..i + 1][..i] == lines[..i];
        assert NewCharacters(lines[..i + 1], ids)
               == NewCharacters(lines[..i], ids) + (if NonBlank(lines[i]) then [NewCharacter(lines[i], ids(i))] else []);
        if NonBlank(lines[i]) {
          var name := CharacterName(lines[i]);
          store.AddCharacter(name, lines[i], name + BackgroundSuffix, ids(i), now);
          ghost var added := sofar.(characters := sofar.characters + [NewCharacter(lines[i], ids(i))]);
          ReplaceScriptTwice(before, sofar, added.(updatedAt := now), now, now);
          ReplaceScriptRestamps(before, added, now, now);
          AppendAssoc(s.characters, NewCharacters(lines[..i], ids), [NewCharacter(lines[i], ids(i))]);
        } else {
          assert NewCharacters(lines[..i + 1], ids) == NewCharacters(lines[..i], ids);
        }
      }
      assert lines[..|lines|] == lines;
    }
  }
}
