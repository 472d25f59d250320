/** The script store of src/context/ScriptContext.tsx: the list of scripts,
    the selected id, and the operations that replace a script by id.  Ids
    and timestamps come from the caller (`freshId`, `now`) in place of
    `crypto.randomUUID()` and `new Date()`.  Each method sees the state left
    by the previous one, as successive event handlers do. */
module ScriptContext {
  import opened Wrappers
  import opened Types
  import opened SceneManager

  /** Position of the first script with id `id`, or `|scripts|`. */
  function IndexOfScript(scripts: seq<Script>, id: string): (i: nat)
    ensures i <= |scripts|
    ensures i < |scripts| ==> scripts[i].id == id
    ensures forall j :: 0 <= j < i ==> scripts[j].id != id
  {
    if scripts == [] then 0
    else if scripts[0].id == id then 0
    else 1 + IndexOfScript(scripts[1..], id)
  }

  /** `scripts.find(script => script.id === id)`. */
  function FindScript(scripts: seq<Script>, id: string): (r: Option<Script>)
    ensures r.None? <==> forall i :: 0 <= i < |scripts| ==> scripts[i].id != id
    ensures r.Some? ==> r.value.id == id && r.value in scripts
  {
    var i := IndexOfScript(scripts, id);
    if i < |scripts| then Some(scripts[i]) else None
  }

  /** `currentScript`: nothing when no id is selected (the empty string
      counts as none) or the id is not in the list. */
  function CurrentScript(scripts: seq<Script>, currentId: Option<string>): (r: Option<Script>)
    ensures currentId.None? || currentId == Some("") ==> r.None?
    ensures r.Some? ==> r.value in scripts && currentId == Some(r.value.id)
    ensures currentId.Some? && currentId.value != "" ==>
              (r.Some? <==> exists i :: 0 <= i < |scripts| && scripts[i].id == currentId.value)
  {
    if currentId.None? || currentId.value == "" then None else FindScript(scripts, currentId.value)
  }

  /** The script `createScript(title, description)` appends. */
  function NewScript(id: string, title: string, description: string, now: int): Script {
    Script(id, title, description, "", Outline, now, now, [], [], None)
  }

  /** `updateScript`'s new list: every script with the updated script's id
      is replaced by it, stamped with `now`; the others are kept. */
  function ReplaceScript(scripts: seq<Script>, updated: Script, now: int): (r: seq<Script>)
    ensures |r| == |scripts|
    ensures forall i :: 0 <= i < |scripts| ==> r[i].id == scripts[i].id
    ensures forall i :: 0 <= i < |scripts| && scripts[i].id != updated.id ==> r[i] == scripts[i]
    ensures forall i :: 0 <= i < |scripts| && scripts[i].id == updated.id ==> r[i] == updated.(updatedAt := now)
  {
    if scripts == [] then []
    else [if scripts[0].id == updated.id then updated.(updatedAt := now) else scripts[0]]
         + ReplaceScript(scripts[1..], updated, now)
  }

  /** Replacing under an id no script has leaves the list as it was. */
  lemma {:induction false} ReplaceUnknownScript(scripts: seq<Script>, updated: Script, now: int)
    requires forall i :: 0 <= i < |scripts| ==> scripts[i].id != updated.id
    ensures ReplaceScript(scripts, updated, now) == scripts
  {
    if scripts != [] { ReplaceUnknownScript(scripts[1..], updated, now); }
  }

  /** Of two replacements of the same script only the later one shows. */
  lemma ReplaceScriptTwice(scripts: seq<Script>, first: Script, second: Script, now: int, later: int)
    requires first.id == second.id
    ensures ReplaceScript(ReplaceScript(scripts, first, now), second, later) == ReplaceScript(scripts, second, later)
  {
    var a := ReplaceScript(ReplaceScript(scripts, first, now), second, later);
    var b := ReplaceScript(scripts, second, later);
    assert forall i :: 0 <= i < |scripts| ==> a[i] == b[i];
  }

  /** The stamp the replacement carries is overwritten. */
  lemma ReplaceScriptRestamps(scripts: seq<Script>, updated: Script, stamp: int, now: int)
    ensures ReplaceScript(scripts, updated.(updatedAt := stamp), now) == ReplaceScript(scripts, updated, now)
  {
    var a := ReplaceScript(scripts, updated.(updatedAt := stamp), now);
    var b := ReplaceScript(scripts, updated, now);
    assert forall i :: 0 <= i < |scripts| ==> a[i] == b[i];
  }

  lemma {:induction false} IndexOfScriptSameIds(a: seq<Script>, b: seq<Script>, id: string)
    requires |a| == |b| && forall i :: 0 <= i < |a| ==> a[i].id == b[i].id
    ensures IndexOfScript(a, id) == IndexOfScript(b, id)
  {
    if a != [] { IndexOfScriptSameIds(a[1..], b[1..], id); }
  }

  lemma {:induction false} IndexOfAppendedScript(scripts: seq<Script>, s: Script)
    requires forall i :: 0 <= i < |scripts| ==> scripts[i].id != s.id
    ensures IndexOfScript(scripts + [s], s.id) == |scripts|
  {
    if scripts != [] {
      assert (scripts + [s])[1..] == scripts[1..] + [s];
      IndexOfAppendedScript(scripts[1..], s);
    }
  }

  /** After replacing the current script, the current script is the
      replacement, stamped. */
  lemma CurrentAfterReplace(scripts: seq<Script>, currentId: Option<string>, updated: Script, now: int)
    requires CurrentScript(scripts, currentId).Some?
    requires updated.id == CurrentScript(scripts, currentId).value.id
    ensures CurrentScript(ReplaceScript(scripts, updated, now), currentId) == Some(updated.(updatedAt := now))
  {
    IndexOfScriptSameIds(scripts, ReplaceScript(scripts, updated, now), currentId.value);
  }

  /** `currentScript.characters.map(c => c.id === character.id ? character : c)`. */
  function ReplaceCharacter(characters: seq<Character>, character: Character): (r: seq<Character>)
    ensures |r| == |characters|
    ensures forall i :: 0 <= i < |characters| ==> r[i].id == characters[i].id
    ensures forall i :: 0 <= i < |characters| && characters[i].id != character.id ==> r[i] == characters[i]
    ensures forall i :: 0 <= i < |characters| && characters[i].id == character.id ==> r[i] == character
  {
    if characters == [] then []
    else [if characters[0].id == character.id then character else characters[0]]
         + ReplaceCharacter(characters[1..], character)
  }

  /** `currentScript.scenes.map(s => s.id === scene.id ? scene : s)`. */
  function ReplaceScene(scenes: seq<Scene>, scene: Scene): (r: seq<Scene>)
    ensures |r| == |scenes|
    ensures forall i :: 0 <= i < |scenes| ==> r[i].id == scenes[i].id
    ensures forall i :: 0 <= i < |scenes| && scenes[i].id != scene.id ==> r[i] == scenes[i]
    ensures forall i :: 0 <= i < |scenes| && scenes[i].id == scene.id ==> r[i] == scene
  {
    if scenes == [] then []
    else [if scenes[0].id == scene.id then scene else scenes[0]] + ReplaceScene(scenes[1..], scene)
  }

  /** The scene `addScene` appends: numbered after the existing ones. */
  function AppendedScene(scenes: seq<Scene>, id: string, title: string, description: string,
                         participants: seq<string>, content: string): Scene {
    Scene(id, title, description, participants, content, |scenes|)
  }

  /** Appending with order `|scenes|` keeps the orders a permutation. */
  lemma AddSceneKeepsPermutation(scenes: seq<Scene>, id: string, title: string, description: string,
                                 participants: seq<string>, content: string)
    requires OrdersArePermutation(scenes)
    ensures OrdersArePermutation(scenes + [AppendedScene(scenes, id, title, description, participants, content)])
  {
    var r := scenes + [AppendedScene(scenes, id, title, description, participants, content)];
    forall i, j | 0 <= i < j < |r| ensures r[i].order != r[j].order {
      if j < |scenes| {
        assert r[i] == scenes[i] && r[j] == scenes[j];
      } else {
        assert r[i] == scenes[i];
      }
    }
  }

  /** A scene edited in place keeps the numbering when it keeps its order. */
  lemma ReplaceSceneKeepsPermutation(scenes: seq<Scene>, scene: Scene, k: nat)
    requires OrdersArePermutation(scenes) && UniqueIds(scenes)
    requires k < |scenes| && scenes[k].id == scene.id && scenes[k].order == scene.order
    ensures OrdersArePermutation(ReplaceScene(scenes, scene)) && UniqueIds(ReplaceScene(scenes, scene))
  {
    var r := ReplaceScene(scenes, scene);
    forall i | 0 <= i < |scenes| ensures r[i].order == scenes[i].order {
      if scenes[i].id == scene.id {
        assert i == k;
      }
    }
  }

  class ScriptStore {
    var scripts: seq<Script>
    var currentId: Option<string>

    constructor()
      ensures scripts == [] && currentId == None
    {
      scripts := [];
      currentId := None;
    }

    function Current(): Option<Script>
      reads this
    {
      CurrentScript(scripts, currentId)
    }

    /** Appends a fresh script and selects it. */
    method CreateScript(title: string, description: string, freshId: string, now: int)
      modifies this
      ensures scripts == old(scripts) + [NewScript(freshId, title, description, now)]
      ensures currentId == Some(freshId)
      ensures freshId != "" && (forall i :: 0 <= i < |old(scripts)| ==> old(scripts)[i].id != freshId) ==>
                Current() == Some(NewScript(freshId, title, description, now))
    {
      var created := NewScript(freshId, title, description, now);
      scripts := scripts + [created];
      currentId := Some(freshId);
      if forall i :: 0 <= i < |old(scripts)| ==> old(scripts)[i].id != freshId {
        IndexOfAppendedScript(old(scripts), created);
      }
    }

    method UpdateScript(updated: Script, now: int)
      modifies this
      ensures scripts == ReplaceScript(old(scripts), updated, now)
      ensures currentId == old(currentId)
    {
      scripts := ReplaceScript(scripts, updated, now);
    }

    method SelectScript(id: string)
      modifies this
      ensures currentId == Some(id) && scripts == old(scripts)
    {
      currentId := Some(id);
    }

    /** Appends a character with a fresh id and an empty relationship list
      to the current script. */
    method AddCharacter(name: string, description: string, background: string, freshId: string, now: int)
      modifies this
      ensures currentId == old(currentId)
      ensures old(Current()).None? ==> scripts == old(scripts)
      ensures old(Current()).Some? ==>
                var cur := old(Current()).value;
                var changed := cur.(characters := cur.characters + [Character(freshId, name, description, background, RelArray([]))]);
                scripts == ReplaceScript(old(scripts), changed, now) && Current() == Some(changed.(updatedAt := now))
    {
      var cur := Current();
      if cur.None? { return; }
      var s := cur.value;
      var changed := s.(characters := s.characters + [Character(freshId, name, description, background, RelArray([]))]);
      CurrentAfterReplace(scripts, currentId, changed, now);
      UpdateScript(changed, now);
    }

    method UpdateCharacter(character: Character, now: int)
      modifies this
      ensures currentId == old(currentId)
      ensures old(Current()).None? ==> scripts == old(scripts)
      ensures old(Current()).Some? ==>
                var cur := old(Current()).value;
                var changed := cur.(characters := ReplaceCharacter(cur.characters, character));
                scripts == ReplaceScript(old(scripts), changed, now) && Current() == Some(changed.(updatedAt := now))
    {
      var cur := Current();
      if cur.None? { return; }
      var s := cur.value;
      var changed := s.(characters := ReplaceCharacter(s.characters, character));
      CurrentAfterReplace(scripts, currentId, changed, now);
      UpdateScript(changed, now);
    }

    /** Appends a scene numbered after the current script's scenes. */
    method AddScene(title: string, description: string, participants: seq<string>, content: string, freshId: string, now: int)
      modifies this
      ensures currentId == old(currentId)
      ensures old(Current()).None? ==> scripts == old(scripts)
      ensures old(Current()).Some? ==>
                var cur := old(Current()).value;
                var changed := cur.(scenes := cur.scenes + [AppendedScene(cur.scenes, freshId, title, description, participants, content)]);
                scripts == ReplaceScript(old(scripts), changed, now) && Current() == Some(changed.(updatedAt := now))
    {
      var cur := Current();
      if cur.None? { return; }
      var s := cur.value;
      var changed := s.(scenes := s.scenes + [AppendedScene(s.scenes, freshId, title, description, participants, content)]);
      CurrentAfterReplace(scripts, currentId, changed, now);
      UpdateScript(changed, now);
    }

    method UpdateScene(scene: Scene, now: int)
      modifies this
      ensures currentId == old(currentId)
      ensures old(Current()).None? ==> scripts == old(scripts)
      ensures old(Current()).Some? ==>
                var cur := old(Current()).value;
                var changed := cur.(scenes := ReplaceScene(cur.scenes, scene));
                scripts == ReplaceScript(old(scripts), changed, now) && Current() == Some(changed.(updatedAt := now))
    {
      var cur := Current();
      if cur.None? { return; }
      var s := cur.value;
      var changed := s.(scenes := ReplaceScene(s.scenes, scene));
      CurrentAfterReplace(scripts, currentId, changed, now);
      UpdateScript(changed, now);
    }

    method UpdateOutline(outline: string, now: int)
      modifies this
      ensures currentId == old(currentId)
      ensures old(Current()).None? ==> scripts == old(scripts)
      ensures old(Current()).Some? ==>
                var changed := old(Current()).value.(outline := outline);
                scripts == ReplaceScript(old(scripts), changed, now) && Current() == Some(changed.(updatedAt := now))
    {
      var cur := Current();
      if cur.None? { return; }
      var changed := cur.value.(outline := outline);
      CurrentAfterReplace(scripts, currentId, changed, now);
      UpdateScript(changed, now);
    }

    method SetWorkflowStep(step: WorkflowStep, now: int)
      modifies this
      ensures currentId == old(currentId)
      ensures old(Current()).None? ==> scripts == old(scripts)
      ensures old(Current()).Some? ==>
                var changed := old(Current()).value.(currentStep := step);
                scripts == ReplaceScript(old(scripts), changed, now) && Current() == Some(changed.(updatedAt := now))
    {
      var cur := Current();
      if cur.None? { return; }
      var changed := cur.value.(currentStep := step);
      CurrentAfterReplace(scripts, currentId, changed, now);
      UpdateScript(changed, now);
    }

    method SaveEditPosition(position: Option<EditPosition>, now: int)
      modifies this
      ensures currentId == old(currentId)
      ensures old(Current()).None? ==> scripts == old(scripts)
      ensures old(Current()).Some? ==>
                var changed := old(Current()).value.(lastEditPosition := position);
                scripts == ReplaceScript(old(scripts), changed, now) && Current() == Some(changed.(updatedAt := now))
    {
      var cur := Current();
      if cur.None? { return; }
      var changed := cur.value.(lastEditPosition := position);
      CurrentAfterReplace(scripts, currentId, changed, now);
      UpdateScript(changed, now);
    }
  }
}
