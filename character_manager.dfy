/** The character editor (src/components/CharacterManager.tsx): the edit
    buffer and forms it keeps, and the copies of a character's relationship
    dictionary that its handlers write back.  The editor writes
    relationships as an object from target id to text; the store creates
    them as the empty list, which spreads to the empty object. */
module CharacterManager {
  import opened Wrappers
  import opened Strings
  import opened Seqs
  import opened OrderedMap
  import opened Types
  import opened ScriptContext

  /** `{ ...(relationships || {}) }` read as a dictionary of strings. */
  function RelationshipEntries(rel: Relationships): Entries<string> {
    match rel
    case RelObject(entries) => entries
    case RelArray(_) => []
  }

  /** `description || type`: the text stored for a relationship. */
  function RelationshipText(kind: string, description: string): string {
    if description != "" then description else kind
  }

  /** A copy of the dictionary with `[targetId]: text` written into it: the
      spread always yields an object. */
  function WithRelationship(rel: Relationships, targetId: string, text: string): (r: Relationships)
    ensures r.RelObject?
    ensures Get(RelationshipEntries(r), targetId) == Some(text)
  {
    PutGet(RelationshipEntries(rel), targetId, text, targetId);
    RelObject(Put(RelationshipEntries(rel), targetId, text))
  }

  /** Writing a target sets that key and no other. */
  lemma WithRelationshipGet(rel: Relationships, targetId: string, text: string, k: string)
    ensures Get(RelationshipEntries(WithRelationship(rel, targetId, text)), k)
            == if k == targetId then Some(text) else Get(RelationshipEntries(rel), k)
  {
    PutGet(RelationshipEntries(rel), targetId, text, k);
  }

  /** Overwriting keeps the entry in its place; a new target is appended
      after every existing entry; the result is still a dictionary. */
  lemma WithRelationshipPlaces(rel: Relationships, targetId: string, text: string)
    requires UniqueKeys(RelationshipEntries(rel))
    ensures var m := RelationshipEntries(rel);
            var r := RelationshipEntries(WithRelationship(rel, targetId, text));
            UniqueKeys(r)
            && (targetId in Keys(m) ==> |r| == |m| && forall i :: 0 <= i < |m| ==> r[i].0 == m[i].0)
            && (targetId !in Keys(m) ==> r == m + [(targetId, text)])
  {
    PutUnique(RelationshipEntries(rel), targetId, text);
  }

  /** `Object.entries(rel)[index][0]` deleted from a copy; `None` where that
      lookup throws because `index` is out of range. */
  function RemoveRelationshipAt(rel: Relationships, index: int): (r: Option<Relationships>)
    ensures r.None? <==> !(0 <= index < |RelationshipEntries(rel)|)
    ensures r.Some? ==> RelationshipEntries(rel)[index].0 !in Keys(RelationshipEntries(r.value))
  {
    var m := RelationshipEntries(rel);
    if 0 <= index < |m| then
      assert Keys(m)[index] == m[index].0;
      Some(RelObject(Remove(m, m[index].0)))
    else
      None
  }

  /** Removing by position deletes exactly that entry: the others stay, in
      their order, and the removed key is gone. */
  lemma RemoveRelationshipAtDeletesEntry(rel: Relationships, index: nat)
    requires UniqueKeys(RelationshipEntries(rel))
    requires index < |RelationshipEntries(rel)|
    ensures var m := RelationshipEntries(rel);
            var r := RelationshipEntries(RemoveRelationshipAt(rel, index).value);
            r == m[..index] + m[index + 1..] && Get(r, m[index].0) == None
  {
    var m := RelationshipEntries(rel);
    RemoveAtKey(m, index);
  }

  /** The relationship form: the fields `newRelationship` and the draft of
      `editingRelationship` both hold. */
  datatype RelationshipForm = RelationshipForm(targetId: string, kind: string, description: string)

  const EmptyRelationshipForm := RelationshipForm("", "", "")

  /** `editingRelationship`: the entry's position and its draft. */
  datatype EditedRelationship = EditedRelationship(index: int, form: RelationshipForm)

  /** The draft the edit button fills in from an entry: text equal to the
      key reads as a custom relationship described by that text, any other
      text as the relationship's type. */
  function DraftOf(entry: (string, string)): (f: RelationshipForm)
    ensures f.targetId == entry.0
    ensures RelationshipText(f.kind, f.description) == (if entry.0 == entry.1 && entry.1 == "" then "自定义" else entry.1)
  {
    if entry.0 == entry.1 then RelationshipForm(entry.0, "自定义", entry.1)
    else RelationshipForm(entry.0, entry.1, "")
  }

  /** Opening an entry for editing and saving the draft untouched gives the
      dictionary back (unless key and text are both empty). */
  lemma {:induction false} EditUnchangedKeepsEntries(m: Entries<string>, index: nat)
    requires UniqueKeys(m) && index < |m|
    requires !(m[index].0 == "" && m[index].1 == "")
    ensures var f := DraftOf(m[index]);
            WithRelationship(RelObject(m), f.targetId, RelationshipText(f.kind, f.description)) == RelObject(m)
  {
    var f := DraftOf(m[index]);
    assert RelationshipText(f.kind, f.description) == m[index].1;
    PutSame(m, index);
  }

  /** `getOtherCharacters`: the script's characters other than the one being
      edited, in order; none while nothing is edited. */
  function OtherThan(id: string): Character -> bool {
    (c: Character) => c.id != id
  }

  function OtherCharacters(characters: seq<Character>, editing: Option<Character>): (r: seq<Character>)
    ensures |r| <= |characters|
    ensures forall i :: 0 <= i < |r| ==> editing.Some? && r[i].id != editing.value.id
  {
    match editing
    case None => []
    case Some(e) => Filter(characters, OtherThan(e.id))
  }

  lemma OtherCharactersMembers(characters: seq<Character>, editing: Option<Character>, c: Character)
    ensures c in OtherCharacters(characters, editing)
            <==> editing.Some? && c in characters && c.id != editing.value.id
  {
    if editing.Some? {
      FilterMembers(characters, OtherThan(editing.value.id));
    }
  }

  /** `newCharacter`: the creation form. */
  datatype CharacterForm = CharacterForm(name: string, description: string, background: string)

  const EmptyCharacterForm := CharacterForm("", "", "")

  /** The component's state.  `store` is the script store it reads the
      current script from and writes characters to. */
  class CharacterEditor {
    const store: ScriptStore
    var editing: Option<Character>
    var showAddForm: bool
    var showAddRelationshipForm: bool
    var editingRelationship: Option<EditedRelationship>
    var newRelationship: RelationshipForm
    var newCharacter: CharacterForm

    constructor(store: ScriptStore)
      ensures this.store == store
      ensures editing == None && !showAddForm && !showAddRelationshipForm && editingRelationship == None
      ensures newRelationship == EmptyRelationshipForm && newCharacter == EmptyCharacterForm
    {
      this.store := store;
      editing := None;
      showAddForm := false;
      showAddRelationshipForm := false;
      editingRelationship := None;
      newRelationship := EmptyRelationshipForm;
      newCharacter := EmptyCharacterForm;
    }

    /** The characters a relationship may point to. */
    function Others(): seq<Character>
      reads this, store
    {
      match store.Current()
      case None => []
      case Some(s) => OtherCharacters(s.characters, editing)
    }

    /** `handleEditCharacter`: a copy of the character goes into the buffer
      and every form closes. */
    method EditCharacter(character: Character)
      modifies this
      ensures editing == Some(character)
      ensures !showAddForm && !showAddRelationshipForm && editingRelationship == None
      ensures newRelationship == old(newRelationship) && newCharacter == old(newCharacter)
    {
      editing := Some(character);
      showAddForm := false;
      showAddRelationshipForm := false;
      editingRelationship := None;
    }

    /** `handleSaveEdit`: the only handler that writes the buffer back. */
    method SaveEdit(now: int)
      modifies this, store
      ensures old(editing).None? ==> store.scripts == old(store.scripts) && editing == None
      ensures old(editing).Some? ==> editing == None
      ensures old(editing).Some? && old(store.Current()).Some? ==>
                var cur := old(store.Current()).value;
                store.scripts == ReplaceScript(old(store.scripts), cur.(characters := ReplaceCharacter(cur.characters, old(editing).value)), now)
      ensures old(store.Current()).None? ==> store.scripts == old(store.scripts)
      ensures store.currentId == old(store.currentId)
      ensures showAddForm == old(showAddForm) && showAddRelationshipForm == old(showAddRelationshipForm)
      ensures editingRelationship == old(editingRelationship)
      ensures newRelationship == old(newRelationship) && newCharacter == old(newCharacter)
    {
      if editing.Some? {
        store.UpdateCharacter(editing.value, now);
        editing := None;
      }
    }

    /** `handleCreateCharacter`: only a name with a non-whitespace character
      reaches the store (untrimmed); then the form is emptied and closed. */
    method CreateCharacter(freshId: string, now: int)
      modifies this, store
      ensures Trim(old(newCharacter.name)) == "" ==>
                store.scripts == old(store.scripts) && newCharacter == old(newCharacter) && showAddForm == old(showAddForm)
      ensures Trim(old(newCharacter.name)) != "" ==>
                newCharacter == EmptyCharacterForm && !showAddForm
      ensures Trim(old(newCharacter.name)) != "" && old(store.Current()).Some? ==>
                var cur := old(store.Current()).value;
                var form := old(newCharacter);
                var added := Character(freshId, form.name, form.description, form.background, RelArray([]));
                store.scripts == ReplaceScript(old(store.scripts), cur.(characters := cur.characters + [added]), now)
      ensures old(store.Current()).None? ==> store.scripts == old(store.scripts)
      ensures store.currentId == old(store.currentId)
      ensures editing == old(editing) && editingRelationship == old(editingRelationship)
      ensures newRelationship == old(newRelationship) && showAddRelationshipForm == old(showAddRelationshipForm)
    {
      if Trim(newCharacter.name) != "" {
        store.AddCharacter(newCharacter.name, newCharacter.description, newCharacter.background, freshId, now);
        newCharacter := EmptyCharacterForm;
        showAddForm := false;
      }
    }

    /** The "add relationship" button: opens an empty form aimed at the
      first other character (or at no one). */
    method OpenRelationshipForm()
      modifies this
      ensures showAddRelationshipForm && editingRelationship == None
      ensures newRelationship == RelationshipForm(if old(Others()) == [] then "" else old(Others())[0].id, "", "")
      ensures editing == old(editing) && showAddForm == old(showAddForm) && newCharacter == old(newCharacter)
    {
      var others := Others();
      showAddRelationshipForm := true;
      editingRelationship := None;
      newRelationship := RelationshipForm(if others == [] then "" else others[0].id, "", "");
    }

    /** `handleAddRelationship`: with a character in the buffer, a target and
      a non-blank type, writes `description || type` under the target and
      empties and closes the form; otherwise nothing happens. */
    method AddRelationship()
      modifies this
      ensures var f := old(newRelationship);
              old(editing).None? || f.targetId == "" || Trim(f.kind) == "" ==>
                editing == old(editing) && newRelationship == old(newRelationship)
                && showAddRelationshipForm == old(showAddRelationshipForm)
      ensures var f := old(newRelationship);
              old(editing).Some? && f.targetId != "" && Trim(f.kind) != "" ==>
                var e := old(editing).value;
                editing == Some(e.(relationships := WithRelationship(e.relationships, f.targetId, RelationshipText(f.kind, f.description))))
                && newRelationship == EmptyRelationshipForm && !showAddRelationshipForm
      ensures editingRelationship == old(editingRelationship) && showAddForm == old(showAddForm)
      ensures newCharacter == old(newCharacter)
    {
      if editing.None? || newRelationship.targetId == "" || Trim(newRelationship.kind) == "" {
        return;
      }
      var e := editing.value;
      var f := newRelationship;
      editing := Some(e.(relationships := WithRelationship(e.relationships, f.targetId, RelationshipText(f.kind, f.description))));
      newRelationship := EmptyRelationshipForm;
      showAddRelationshipForm := false;
    }

    /** The edit button of the entry at `index` of the listed dictionary. */
    method BeginEditRelationship(index: nat)
      requires editing.Some? && index < |RelationshipEntries(editing.value.relationships)|
      modifies this
      ensures editing == old(editing) && newRelationship == old(newRelationship)
      ensures editingRelationship == Some(EditedRelationship(index, DraftOf(RelationshipEntries(editing.value.relationships)[index])))
      ensures !showAddRelationshipForm
      ensures showAddForm == old(showAddForm) && newCharacter == old(newCharacter)
    {
      var m := RelationshipEntries(editing.value.relationships);
      editingRelationship := Some(EditedRelationship(index, DraftOf(m[index])));
      showAddRelationshipForm := false;
    }

    /** `handleUpdateRelationship`: writes the draft's `description || type`
      under the draft's (possibly changed) target; the key the entry had
      before is left in place. */
    method UpdateRelationship()
      modifies this
      ensures old(editing).None? || old(editingRelationship).None? ==>
                editing == old(editing) && editingRelationship == old(editingRelationship)
      ensures old(editing).Some? && old(editingRelationship).Some? ==>
                var e := old(editing).value;
                var f := old(editingRelationship).value.form;
                editing == Some(e.(relationships := WithRelationship(e.relationships, f.targetId, RelationshipText(f.kind, f.description))))
                && editingRelationship == None
      ensures newRelationship == old(newRelationship) && showAddRelationshipForm == old(showAddRelationshipForm)
      ensures showAddForm == old(showAddForm) && newCharacter == old(newCharacter)
    {
      if editing.None? || editingRelationship.None? {
        return;
      }
      var e := editing.value;
      var f := editingRelationship.value.form;
      editing := Some(e.(relationships := WithRelationship(e.relationships, f.targetId, RelationshipText(f.kind, f.description))));
      editingRelationship := None;
    }

    /** `handleRemoveRelationship`: deletes the `index`-th entry; an index
      with no entry makes the handler throw before any state is set. */
    method RemoveRelationship(index: int)
      modifies this
      ensures old(editing).None? ==> editing == old(editing)
      ensures old(editing).Some? ==>
                var e := old(editing).value;
                match RemoveRelationshipAt(e.relationships, index)
                case None => editing == old(editing)
                case Some(r) => editing == Some(e.(relationships := r))
      ensures editingRelationship == old(editingRelationship) && newRelationship == old(newRelationship)
      ensures showAddForm == old(showAddForm) && showAddRelationshipForm == old(showAddRelationshipForm)
      ensures newCharacter == old(newCharacter)
    {
      if editing.None? {
        return;
      }
      var e := editing.value;
      match RemoveRelationshipAt(e.relationships, index)
      case None =>
      case Some(r) =>
        editing := Some(e.(relationships := r));
    }
  }

  /** Opening an entry and saving it without touching the draft leaves the
      edited character as it was. */
  method EditWithoutChange(editor: CharacterEditor, index: nat)
    requires editor.editing.Some? && editor.editing.value.relationships.RelObject?
    requires UniqueKeys(editor.editing.value.relationships.entries)
    requires index < |editor.editing.value.relationships.entries|
    requires var entry := editor.editing.value.relationships.entries[index]; !(entry.0 == "" && entry.1 == "")
    modifies editor
    ensures editor.editing == old(editor.editing) && editor.editingRelationship == None
  {
    editor.BeginEditRelationship(index);
    EditUnchangedKeepsEntries(editor.editing.value.relationships.entries, index);
    editor.UpdateRelationship();
  }
}
