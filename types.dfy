/** The application's records (src/types.ts).  Timestamps are integers from
    a clock the caller supplies; ids are strings the caller supplies. */
module Types {
  import opened Wrappers
  import OrderedMap

  /** `WorkflowStep`; `Clues` and `Refinement` exist in the type but not in
      the workflow's step list. */
  datatype WorkflowStep = Outline | Characters | Relationships | Clues | Scenes | Draft | Refinement

  /** One relationship as the draft generator reads it (`rel.target`,
      `rel.type`, `rel.description`). */
  datatype Relationship = Relationship(source: string, target: string, description: string, kind: string)

  /** At run time `relationships` holds either the array the store creates
      (`[]`) or the object the character editor writes (target id to text). */
  datatype Relationships =
    | RelArray(items: seq<Relationship>)
    | RelObject(entries: OrderedMap.Entries<string>)

  datatype Character = Character(
    id: string,
    name: string,
    description: string,
    background: string,
    relationships: Relationships)

  datatype Scene = Scene(
    id: string,
    title: string,
    description: string,
    characters: seq<string>,
    content: string,
    order: int)

  datatype EditPosition = EditPosition(step: WorkflowStep, position: int)

  datatype Script = Script(
    id: string,
    title: string,
    description: string,
    outline: string,
    currentStep: WorkflowStep,
    createdAt: int,
    updatedAt: int,
    characters: seq<Character>,
    scenes: seq<Scene>,
    lastEditPosition: Option<EditPosition>)

  datatype KnowledgeFragment = KnowledgeFragment(
    id: string,
    title: string,
    content: string,
    tags: seq<string>,
    source: string,
    createdAt: Option<int>)

  datatype Role = User | Ai

  datatype CopilotMessage = CopilotMessage(
    id: string,
    content: string,
    role: Role,
    timestamp: int,
    fragmentIds: seq<string>)

  /** The position of the first character with id `id`, or `|characters|`. */
  function IndexOfCharacter(characters: seq<Character>, id: string): (i: nat)
    ensures i <= |characters|
    ensures i < |characters| ==> characters[i].id == id
    ensures forall j :: 0 <= j < i ==> characters[j].id != id
  {
    if characters == [] then 0
    else if characters[0].id == id then 0
    else 1 + IndexOfCharacter(characters[1..], id)
  }

  /** `characters.find(c => c.id === id)`. */
  function FindCharacter(characters: seq<Character>, id: string): (r: Option<Character>)
    ensures r.None? <==> forall i :: 0 <= i < |characters| ==> characters[i].id != id
    ensures r.Some? ==> r.value.id == id && r.value in characters
  {
    var i := IndexOfCharacter(characters, id);
    if i < |characters| then Some(characters[i]) else None
  }
}
