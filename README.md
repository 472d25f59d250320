# Script-writing assistant core, in Dafny

This project models the logic of a React application for writing
murder-mystery scripts (剧本杀), and proves properties of that model. The
application keeps a list of scripts, each with an outline, characters,
scenes and a workflow step. It helps the writer through a keyword
retriever over a knowledge base and prompts sent to a text-generation
model. The model covers these parts:

- `Rag` (rag.dfy): the knowledge-base service.
  - Keyword extraction and scoring.
  - Stable ranking, with the top-K cut and the zero-score filter.
  - The grounded or ungrounded answer, with its catch-all fallback.
  - The mutable knowledge base, as a class.
- `Gemini` (gemini.dfy): the wrapper around the text-generation call.
  - The backend is a function parameter.
  - The reply text extraction with optional chaining.
  - The failure messages.
  - The three prompt templates with their fixed temperatures and token limits.
- `ScriptContext` (script_context.dfy): the script store, as a class with
  `scripts` and `currentId` fields and one method per store operation.
- `SceneManager` (scene_manager.dfy): sorting scenes by `order`,
  delete-with-renumber, drag-and-drop reordering, participant names and the
  participant checkbox.
- `CharacterManager` (character_manager.dfy): relationship-map editing on an
  insertion-ordered map (`OrderedMap`), and the character editor's state, as
  a class.
- `CompletionParsers` and `CharacterCompletion` (completion_parsers.dfy,
  character_completion.dfy): the character-completion wizard.
  - The candidate-block parser, written as the source's regex loop.
  - The fallback aspect-list extraction and the profession extraction.
  - The knowledge queries, the style toggle, selection, merge and adding to
    the script.
- `DraftGenerator` (draft_generator.dfy): the Markdown draft serializer and
  the guard that stops it from re-running.
- `CopilotContext` and `Copilot` (copilot_context.dfy, copilot.dfy): fragment
  search, the message log, selection toggles and guided creation.
- `KnowledgeManager` (knowledge_manager.dfy): the upload guard, tag parsing
  and fragment filtering.
- `WorkflowView` (workflow_view.dfy): the step bar.

Shared helpers:

- `Strings` (strings.dfy): JavaScript's `\s`, `trim`, `split`, `join`,
  `includes` and ASCII lowercasing over `seq<char>`. Each `char` is one
  UTF-16 code unit.
- `Seqs` (seqs.dfy): `filter` and friends.
- `StableSort` (stable_sort.dfy): a stable insertion sort, the behaviour
  `Array.prototype.sort` guarantees.
- `OrderedMap` (ordered_map.dfy): an object's string keys in insertion order.
- `Types` (types.dfy): the records.
- `Wrappers` (wrappers.dfy): `Option` and `Result`.

Ids, clocks and the model backend are parameters:

- A fresh id is an argument.
- `now` is an integer timestamp.
- The backend is a function from a request to an optional reply. `None`
  stands for a transport failure.

## Model

| member | source | states |
|---|---|---|
| Rag.Keywords | src/services/RagService.ts:47-51 | every keyword is longer than one character, and is made only of characters the cleaning keeps: no whitespace, no upper case |
| Rag.StrippedQueryHasNoKeywords | src/services/RagService.ts:47-51 | a query made only of characters the cleaning removes has no keywords |
| Rag.ShortTokensGiveNoKeywords | src/services/RagService.ts:47-51 | a query whose whitespace-separated tokens all have at most one character has no keywords |
| Rag.Score | src/services/RagService.ts:55-60 | the score is at most the number of keywords; it is 0 exactly when no keyword occurs in the text; it equals the keyword count exactly when all occur |
| Rag.ScoreAppend | src/services/RagService.ts:58-60 | the score of a concatenated keyword list is the sum of the scores |
| Rag.RepeatedKeywordCountsTwice | src/services/RagService.ts:58-60 | a keyword repeated in the query counts once per occurrence in the list |
| Rag.ScoreIgnoresTagsAndSource | src/services/RagService.ts:55 | changing a fragment's tags or source never changes its score |
| Rag.ScoreAll | src/services/RagService.ts:54-63 | one scored entry per fragment, in knowledge-base order, pairing it with its score |
| Rag.Retrieve | src/services/RagService.ts:42-71 | the result has at most `topK` fragments when `topK >= 0`, and never more than the knowledge base |
| Rag.RankingConsistent | src/services/RagService.ts:54-69 | every entry of the positive ranking carries its fragment's true score, and that score is at least 1 |
| Rag.RetrieveIsTopOfRanking | src/services/RagService.ts:66-70 | the result is the first `topK` entries of the stable descending ranking of positive scores, so slicing before filtering loses nothing |
| Rag.RetrievedAreRelevantAndOrdered | src/services/RagService.ts:66-70 | at most `topK` results, each with score at least 1, in non-increasing score order |
| Rag.TopOfRanking | src/services/RagService.ts:68-70 | cutting a consistent, positive, descending ranking keeps all three properties |
| Rag.RankingKeepsTies | src/services/RagService.ts:66-67 | fragments with equal positive scores come out in knowledge-base order (stable sort) |
| Rag.NoKeywordsRetrievesNothing | src/services/RagService.ts:47-69 | with no keyword, retrieval returns nothing |
| Rag.CutFromScores | src/services/RagService.ts:66-68 | everything the sorted cut keeps comes from the scored list |
| Rag.RetrievedFromKnowledgeBase | src/services/RagService.ts:54-70 | every retrieved fragment is in the knowledge base |
| Rag.FormatDocs | src/services/RagService.ts:91-93 | one `标题: …\n内容: …` block per retrieved fragment, in retrieval order |
| Rag.AnswerQuery | src/services/RagService.ts:78-101 | the answer is the backend's text for the request `AnswerRequest` builds, or the fixed apology when the call fails or yields no text |
| Rag.AnswerRequest | src/services/RagService.ts:81-96 | the request always quotes the query, with topP 0.9 and topK 40. Without retrieved fragments it is the ungrounded prompt at 0.7 / 1024; with fragments, the grounded prompt at 0.3 / 1500 |
| Rag.UngroundedQuotes | src/services/RagService.ts:85-87 | the ungrounded prompt quotes the query |
| Rag.GroundedRequestQuotesDocs | src/services/RagService.ts:90-96 | with retrieved fragments, the prompt quotes every formatted fragment |
| Rag.RagService.constructor | src/services/RagService.ts:10-17 | the knowledge base starts empty |
| Rag.RagService.SetKnowledgeBase | src/services/RagService.ts:23-26 | the knowledge base becomes exactly the given list |
| Rag.RagService.AddKnowledgeFragment | src/services/RagService.ts:32-34 | exactly one fragment is appended at the end, with no check for duplicates |
| Rag.RagService.RetrieveRelevantDocuments | src/services/RagService.ts:42-71 | at most `topK` fragments, all taken from the knowledge base; reading it changes nothing |
| Rag.RagService.GetKnowledgeByTopic | src/services/RagService.ts:108-110 | retrieval with `topK` 5, so at most five fragments |
| Rag.RagService.Answer | src/services/RagService.ts:78-101 | `answerQuery` reads the service's current knowledge base: the backend's text for that request, or the fixed apology |
| Rag.SetThenAdd | src/services/RagService.ts:23-71 | after `setKnowledgeBase` and one `addKnowledgeFragment`, retrieval reads the extended list, leaves it unchanged and returns at most three fragments |
| Gemini.ReplyText | src/services/GeminiService.ts:53 | the optional chain fails only where the source would throw: no candidates array, or content without parts. A non-empty text is the first part of the first candidate |
| Gemini.Complete | src/services/GeminiService.ts:53-58 | `generateText` yields the extracted text (`''` when it is missing or empty); every failure carries the one fixed message |
| Gemini.GenerateRagResponse | src/services/GeminiService.ts:67-86 | fails exactly when the call at 0.3 / 1500 fails, and then with its own fixed message; otherwise it returns that call's text |
| Strings.JoinContainsPiece | src/services/GeminiService.ts:70 | every piece occurs in the joined string |
| Gemini.RagPromptQuotes | src/services/GeminiService.ts:70-78 | the prompt quotes every document and the query, with the whole context ending before the query starts |
| Gemini.TemplatesQuoteInput | src/services/GeminiService.ts:94-127 | the character and outline prompts quote the caller's text verbatim |
| Gemini.CreateCharacter | src/services/GeminiService.ts:93-108 | `createCharacter` posts its prompt at 0.8 / 2000 and succeeds exactly when that call yields a text, which it returns; with no catch of its own, a failure keeps `generateText`'s message |
| Gemini.ImproveOutline | src/services/GeminiService.ts:115-130 | `improveOutline` posts its prompt at 0.6 / 3000 and succeeds exactly when that call yields a text, which it returns; a failure keeps `generateText`'s message |
| Gemini.GenerateText | src/services/GeminiService.ts:30-58 | the request carries the prompt, the temperature, the token limit, topP 0.9 and topK 40. The call succeeds exactly when the backend answers and the reply text can be read, and then returns that text; every failure carries the one fixed message |
| ScriptContext.IndexOfScript | src/context/ScriptContext.tsx:34 | the position of the first script with the id, or the length when there is none |
| ScriptContext.FindScript | src/context/ScriptContext.tsx:34 | `find` by id: nothing exactly when no script has the id; otherwise a script of the list with that id |
| ScriptContext.CurrentScript | src/context/ScriptContext.tsx:33-35 | nothing when no id (or the empty id) is selected; otherwise a script exists exactly when some script has the id, and it is one of the list with that id |
| ScriptContext.ReplaceScript | src/context/ScriptContext.tsx:54-60 | same length and ids; scripts with another id are unchanged; the matching ones become the update stamped with `now` |
| ScriptContext.ReplaceUnknownScript | src/context/ScriptContext.tsx:54-60 | an update whose id no script has leaves the list unchanged |
| ScriptContext.ReplaceScriptTwice | src/context/ScriptContext.tsx:54-60 | of two updates of the same script, only the later one shows |
| ScriptContext.CurrentAfterReplace | src/context/ScriptContext.tsx:33-60 | after the current script is updated, it is the update, stamped |
| ScriptContext.ReplaceCharacter | src/context/ScriptContext.tsx:86-88 | same length and ids; only the character with the matching id is replaced, in place |
| ScriptContext.ReplaceScene | src/context/ScriptContext.tsx:112-114 | same length and ids; only the scene with the matching id is replaced, in place |
| ScriptContext.AddSceneKeepsPermutation | src/context/ScriptContext.tsx:95-104 | a scene added with `order = scenes.length` turns orders 0..n-1 into 0..n |
| ScriptContext.ReplaceSceneKeepsPermutation | src/context/ScriptContext.tsx:107-116 | an in-place edit that keeps the scene's order keeps the numbering and the unique ids |
| ScriptContext.ScriptStore.constructor | src/context/ScriptContext.tsx:30-31 | no scripts, nothing selected |
| ScriptContext.ScriptStore.CreateScript | src/context/ScriptContext.tsx:37-52 | exactly one new script is appended, empty, with outline `''` and step `outline`. It is selected, and with a fresh id it becomes the current script |
| ScriptContext.ScriptStore.UpdateScript | src/context/ScriptContext.tsx:54-60 | the list becomes the replacement by id; the selection is unchanged |
| ScriptContext.ScriptStore.SelectScript | src/context/ScriptContext.tsx:62-64 | only the selection changes |
| ScriptContext.ScriptStore.AddCharacter | src/context/ScriptContext.tsx:66-79 | a no-op without a current script; otherwise one character with the fresh id and an empty relationship array is appended, and the current script becomes the stamped result |
| ScriptContext.ScriptStore.UpdateCharacter | src/context/ScriptContext.tsx:81-90 | a no-op without a current script; otherwise the current script's characters are replaced by id in place |
| ScriptContext.ScriptStore.AddScene | src/context/ScriptContext.tsx:92-105 | a no-op without a current script; otherwise one scene is appended with the fresh id and `order` equal to the old scene count |
| ScriptContext.ScriptStore.UpdateScene | src/context/ScriptContext.tsx:107-116 | a no-op without a current script; otherwise the current script's scenes are replaced by id in place |
| ScriptContext.ScriptStore.UpdateOutline | src/context/ScriptContext.tsx:118-125 | a no-op without a current script; otherwise only the outline (and the stamp) of the current script changes |
| ScriptContext.ScriptStore.SetWorkflowStep | src/context/ScriptContext.tsx:127-134 | a no-op without a current script; otherwise only the step (and the stamp) of the current script changes |
| ScriptContext.ScriptStore.SaveEditPosition | src/context/ScriptContext.tsx:136-143 | a no-op without a current script; otherwise only the edit position (and the stamp) of the current script changes |
| SceneManager.SortedScenes | src/components/SceneManager.tsx:26 | a permutation of the scenes, ascending by `order`, and scenes of equal order keep their stored order |
| SceneManager.SortedPositionIsOrder | src/components/SceneManager.tsx:26 | with orders 0..n-1 the scene shown at position i has order i |
| SceneManager.SortedOrdersStrict | src/components/SceneManager.tsx:26 | with orders 0..n-1 the displayed orders strictly increase |
| SceneManager.DeleteScene | src/components/SceneManager.tsx:56-77 | an unknown id changes nothing; otherwise the list shrinks and no scene with the id is left |
| SceneManager.DeleteSceneAt | src/components/SceneManager.tsx:60-71 | with unique ids, deleting the scene at position k removes exactly that position, and the scenes ordered after it move up by one |
| SceneManager.DeleteKeepsPermutation | src/components/SceneManager.tsx:64-71 | orders 0..n-1 become 0..n-2, and ids stay unique |
| SceneManager.MovedOrderPermutes | src/components/SceneManager.tsx:98-111 | the renumbering of a move is a bijection of 0..n-1 |
| SceneManager.Drop | src/components/SceneManager.tsx:88-118 | only `order` fields change. It is a no-op when nothing is dragged, when the target is the dragged scene, or when either id is missing |
| SceneManager.DropRenumbers | src/components/SceneManager.tsx:97-113 | the dragged scene takes the target's order. Moving down shifts (src, tgt] down by one, moving up shifts [tgt, src) up by one, and every other order stays |
| SceneManager.DropKeepsPermutation | src/components/SceneManager.tsx:97-118 | a drop keeps the orders a permutation of 0..n-1 and the ids unique |
| SceneManager.DropKeepsIds | src/components/SceneManager.tsx:97-113 | any drop keeps every id where it was |
| SceneManager.DropShowsDraggedAtTarget | src/components/SceneManager.tsx:97-113 | after a drop the dragged scene is displayed at the target's old position |
| SceneManager.NamesOf | src/components/SceneManager.tsx:166-169 | one name per id, in order: the character's name, or `未知角色` |
| SceneManager.CharacterNamesSplit | src/components/SceneManager.tsx:163-172 | when no name contains `、`, the joined line splits back into exactly those names, and an unresolved id shows as `未知角色` |
| SceneManager.CharacterNames | src/components/SceneManager.tsx:163-172 | `无角色` for no ids; otherwise each id's name (or `未知角色`) occurs in the line |
| SceneManager.ToggleParticipant | src/components/SceneManager.tsx:142-148 | checking appends the id; unchecking removes every copy of it and keeps all other ids |
| SceneManager.MayCreateSceneIff | src/components/SceneManager.tsx:41 | a scene is created exactly when the title has a non-whitespace character |
| CharacterManager.WithRelationshipGet | src/components/CharacterManager.tsx:66-90 | writing a target sets that key to the text and leaves every other key's value as it was |
| CharacterManager.WithRelationshipPlaces | src/components/CharacterManager.tsx:68-71 | an existing target keeps its place in entry order; a new target is appended after all entries; keys stay unique |
| CharacterManager.WithRelationship | src/components/CharacterManager.tsx:66-71 | the spread always yields an object map, in which the target key reads the text |
| CharacterManager.RemoveRelationshipAt | src/components/CharacterManager.tsx:103-107 | fails exactly when the index has no entry (the source throws there); otherwise the index-th key is gone |
| CharacterManager.RemoveRelationshipAtDeletesEntry | src/components/CharacterManager.tsx:103-107 | removing by index deletes exactly the index-th entry; the others stay, in order |
| CharacterManager.DraftOf | src/components/CharacterManager.tsx:468-476 | the edit draft keeps the target id, and saving it writes the entry's text back (`自定义` for the one ambiguous empty entry) |
| CharacterManager.EditUnchangedKeepsEntries | src/components/CharacterManager.tsx:466-477 | opening an entry and saving the draft untouched gives the same map back |
| CharacterManager.OtherCharacters | src/components/CharacterManager.tsx:116-119 | nothing while no character is edited; otherwise no listed character has the edited id |
| CharacterManager.OtherCharactersMembers | src/components/CharacterManager.tsx:116-119 | a character is listed exactly when one is edited, it belongs to the script and its id differs from the edited one |
| CharacterManager.CharacterEditor.constructor | src/components/CharacterManager.tsx:7-27 | no edit buffer, forms closed, form fields empty |
| CharacterManager.CharacterEditor.EditCharacter | src/components/CharacterManager.tsx:37-42 | the character goes into the buffer and all forms close; the form fields are kept |
| CharacterManager.CharacterEditor.SaveEdit | src/components/CharacterManager.tsx:44-49 | with a buffer, the store's current script gets the buffered character by id and the buffer empties; without one nothing changes |
| CharacterManager.CharacterEditor.CreateCharacter | src/components/CharacterManager.tsx:51-61 | a name with a non-whitespace character is added (untrimmed) with the fresh id and an empty relationship array, and the form is emptied and closed; otherwise nothing changes |
| CharacterManager.CharacterEditor.OpenRelationshipForm | src/components/CharacterManager.tsx:271-279 | the form opens empty, aimed at the first other character or at no one |
| CharacterManager.CharacterEditor.AddRelationship | src/components/CharacterManager.tsx:63-81 | without a buffer, a target or a non-blank type nothing changes; otherwise the target's entry becomes the description (or the type), and the form is emptied and closed |
| CharacterManager.CharacterEditor.BeginEditRelationship | src/components/CharacterManager.tsx:466-477 | the index-th entry's draft goes into the relationship editor and the add form closes |
| CharacterManager.CharacterEditor.UpdateRelationship | src/components/CharacterManager.tsx:83-98 | writes only the draft's (possibly new) target key, leaving any previous key in place, and closes the editor |
| CharacterManager.CharacterEditor.RemoveRelationship | src/components/CharacterManager.tsx:100-113 | deletes the index-th entry of the buffered character; an index with no entry changes nothing |
| CharacterManager.EditWithoutChange | src/components/CharacterManager.tsx:83-98 | opening an entry and saving it untouched leaves the edited character as it was |
| OrderedMap.Get | src/components/CharacterManager.tsx:89-103 | a key reads nothing exactly when it is absent; otherwise it reads the entry's value |
| OrderedMap.Put | src/components/CharacterManager.tsx:68-71 | `{ ...m, [k]: v }`: an existing key is overwritten in place; a new key is appended at the end |
| OrderedMap.Remove | src/components/CharacterManager.tsx:106-107 | `delete` on a copy: the key is gone, nothing new appears, every other entry stays |
| OrderedMap.PutGet | src/components/CharacterManager.tsx:68-71 | after a write, the key reads the new value and every other key reads what it did |
| OrderedMap.RemoveGet | src/components/CharacterManager.tsx:106-107 | after a delete, the key reads nothing and every other key reads what it did |
| OrderedMap.PutUnique | src/components/CharacterManager.tsx:68-71 | a write keeps keys unique |
| OrderedMap.RemoveAtKey | src/components/CharacterManager.tsx:103-107 | in a map with unique keys, removing entry i's key removes exactly entry i |
| CompletionParsers.MatchAt | src/components/CharacterCompletion.tsx:171 | a match of the candidate pattern at p starts with `===候选` at p and ends inside the text |
| CompletionParsers.MatchShape | src/components/CharacterCompletion.tsx:171 | a match's number is one or more digits, its title holds no `=`, and its content never contains `\n===` |
| CompletionParsers.NextMatch | src/components/CharacterCompletion.tsx:171-175 | a match found from `lastIndex` starts at or after it, is not empty and ends inside the text |
| CompletionParsers.Matches | src/components/CharacterCompletion.tsx:174-185 | every reported match lies between the start position and the end of the text |
| CompletionParsers.NextMatchSpec | src/components/CharacterCompletion.tsx:171-175 | `exec` from `lastIndex` finds the pattern's match at the leftmost position where it matches, and nothing before it |
| CompletionParsers.MatchesAreMatches | src/components/CharacterCompletion.tsx:174-185 | every match the loop reports is the pattern's match at its start |
| CompletionParsers.MatchesOrdered | src/components/CharacterCompletion.tsx:174-185 | the reported matches come in text order and never overlap |
| CompletionParsers.MatchesComplete | src/components/CharacterCompletion.tsx:174-185 | no match is skipped: every position where the pattern matches starts or lies inside a reported match |
| CompletionParsers.CandidatesOf | src/components/CharacterCompletion.tsx:176-184 | one candidate per match, in the same order |
| CompletionParsers.BlockCandidate | src/components/CharacterCompletion.tsx:176-184 | a block's candidate has the id `candidate` + number, the trimmed title and the trimmed content |
| CompletionParsers.ParseCandidates | src/components/CharacterCompletion.tsx:171-185 | the `while (exec)` loop pushes exactly the candidates of all matches, in order |
| CompletionParsers.ParseRendered | src/components/CharacterCompletion.tsx:156-185 | text written in the requested `===候选N: title===` block format reads back as one candidate per block, in order, with its number, trimmed title and trimmed body |
| CompletionParsers.AspectsAt | src/components/CharacterCompletion.tsx:78 | a match of the `missingAspects` pattern starts with the key, and its list holds no `]` |
| CompletionParsers.FirstAspectsLeftmost | src/components/CharacterCompletion.tsx:78 | no match of the pattern starts before the one the search finds |
| CompletionParsers.CleanAll | src/components/CharacterCompletion.tsx:81 | every piece is unquoted and trimmed, in order |
| CompletionParsers.CleanAspectChars | src/components/CharacterCompletion.tsx:81 | a cleaned piece holds only characters of the piece, no quotes, and is trimmed |
| CompletionParsers.FallbackAspectsShape | src/components/CharacterCompletion.tsx:78-84 | without a match the five-item default comes back; otherwise every aspect is non-empty, trimmed and holds no quote, comma or `]` |
| CompletionParsers.FallbackAspects | src/components/CharacterCompletion.tsx:78-84 | without a `missingAspects` list the five-item default comes back, and no aspect is empty |
| CompletionParsers.CleanQuote | src/components/CharacterCompletion.tsx:81 | removing the quotes of a quoted plain aspect gives it back |
| CompletionParsers.FallbackReadsList | src/components/CharacterCompletion.tsx:66-83 | a `"missingAspects": [...]` list written as the analysis prompt asks reads back exactly |
| CompletionParsers.AspectsMatchNeedsKey | src/components/CharacterCompletion.tsx:78-84 | a list is only read from a text that contains `missingAspects` |
| CompletionParsers.ProfessionAt | src/components/CharacterCompletion.tsx:95 | a profession match starts at the `职业` label and captures a non-empty text free of stop characters |
| CompletionParsers.FirstProfessionLeftmost | src/components/CharacterCompletion.tsx:95 | no profession match starts before the one the search finds |
| CompletionParsers.ProfessionShape | src/components/CharacterCompletion.tsx:95-96 | the profession is trimmed and holds no newline, `.`, `,`, `，` or `。` |
| CompletionParsers.ProfessionAsWritten | src/components/CharacterCompletion.tsx:95-96 | as written (`\s*` after the label): the profession is trimmed, free of stop characters, and non-empty only when the notes spell `职业` |
| CompletionParsers.ProfessionOnLine | src/components/CharacterCompletion.tsx:95-96 | the corrected reading, spacing kept on the label's line: the same shape, and non-empty only when the notes spell `职业` |
| CompletionParsers.ProfessionNeedsLabel | src/components/CharacterCompletion.tsx:95 | a profession is only read from notes that contain the `职业` label |
| CompletionParsers.ProfessionReads | src/components/CharacterCompletion.tsx:95-96 | a profession written after `职业：` or `职业:` and spacing, up to a stop character or the end, reads back exactly |
| CompletionParsers.BlankProfessionTakesNextLine | src/components/CharacterCompletion.tsx:95 | as written, a blank `职业：` label followed by a line break takes the next line as the profession |
| CompletionParsers.BlankProfessionStaysBlank | src/components/CharacterCompletion.tsx:95-96 | with spacing kept on the label's line, a blank label gives the empty profession |
| CharacterCompletion.ToggleStyleSelects | src/components/CharacterCompletion.tsx:335-341 | at most three styles stay selected. A click selects the style exactly when it was unselected and fewer than three were selected. Every other style keeps its state |
| CharacterCompletion.ToggleStyleTwice | src/components/CharacterCompletion.tsx:335-341 | two clicks on an unselected style, with room for it, restore the selection |
| CharacterCompletion.ToggleStyle | src/components/CharacterCompletion.tsx:335-341 | the toggled selection grows by at most one and holds only styles that were selected or the clicked one |
| CharacterCompletion.AnalyzeAspects | src/components/CharacterCompletion.tsx:47-90 | a failed generation yields the five-item default list |
| CharacterCompletion.AnalysisPromptQuotes | src/components/CharacterCompletion.tsx:49-68 | the analysis request quotes the character's name and notes |
| CharacterCompletion.AnalysisReadsReply | src/components/CharacterCompletion.tsx:75-84 | a reply that is not JSON yields the default list or aspects that are non-empty, trimmed and free of commas and `]` |
| CharacterCompletion.KnowledgeQueries | src/components/CharacterCompletion.tsx:95-116 | the profession query is sent exactly when the profession is non-empty and comes first; the personality query is sent exactly when `性格特点` is missing and comes last |
| CharacterCompletion.KnowledgeFollowsQueries | src/components/CharacterCompletion.tsx:99-117 | the knowledge text is the answers to the queries sent, in that order, each under its heading, and nothing else |
| CharacterCompletion.RetrievedKnowledge | src/components/CharacterCompletion.tsx:93-117 | the knowledge text is empty exactly when no query is sent, and it carries the answer to each query sent under its heading |
| CharacterCompletion.BlankProfessionQueries | src/components/CharacterCompletion.tsx:95-106 | as written, notes with a blank `职业：` label followed by a line make the first knowledge query ask about that line; the corrected reading sends no profession query |
| CharacterCompletion.CandidatePrompt | src/components/CharacterCompletion.tsx:137-166 | the prompt cannot be built exactly when fewer than two styles are selected (`selectedStyles[1]` throws) |
| CharacterCompletion.CandidatePromptQuotes | src/components/CharacterCompletion.tsx:137-146 | the prompt quotes the notes and the retrieved knowledge |
| CharacterCompletion.CandidatePromptQuotesStyles | src/components/CharacterCompletion.tsx:151-153 | the prompt quotes the description of each of the first three selected styles |
| CharacterCompletion.CandidateText | src/components/CharacterCompletion.tsx:129-191 | with fewer than two styles there is no candidate text (`selectedStyles[1]` throws and the failure is caught); `CharacterCompletion.CandidateTextAsks` states what is asked otherwise |
| CharacterCompletion.CandidateTextAsks | src/components/CharacterCompletion.tsx:129-169 | with two styles or more, the candidate text is the model's answer at 0.8 / 3000 to a prompt that quotes the notes, the retrieved knowledge and each of the first three styles; a failed call gives no text |
| CharacterCompletion.AskCandidates | src/components/CharacterCompletion.tsx:130-169 | the analysis, the knowledge queries and the generation, made in order, give exactly the candidate text, and nothing with fewer than two styles |
| CharacterCompletion.SelectionEntries | src/components/CharacterCompletion.tsx:220-221 | one labelled passage per selected entry, in entry order |
| CharacterCompletion.SelectionLabelNumber | src/components/CharacterCompletion.tsx:221 | the key `candidateN` is labelled `N` |
| CharacterCompletion.MergePromptQuotes | src/components/CharacterCompletion.tsx:220-233 | the merge prompt quotes the notes and every picked passage under its candidate's label |
| CharacterCompletion.MergePrompt | src/components/CharacterCompletion.tsx:220-233 | the merge prompt quotes the notes |
| CharacterCompletion.Summary | src/components/CharacterCompletion.tsx:252 | the first 100 characters (or all, when shorter) followed by `...` |
| CharacterCompletion.Wizard.constructor | src/components/CharacterCompletion.tsx:19-38 | empty input, no candidates, no selection, no result, on the input step, with the first two styles selected |
| CharacterCompletion.Wizard.ClickStyle | src/components/CharacterCompletion.tsx:335-341 | the selection becomes the toggled one, at most three styles, and nothing else changes |
| CharacterCompletion.Wizard.GenerateCandidates | src/components/CharacterCompletion.tsx:121-195 | without a name or notes nothing changes. Otherwise the candidate text is asked for over the service's knowledge base and the selected styles. When there is none (always so with fewer than two styles) nothing changes; otherwise the candidates become those parsed from it and the select step opens. The input, the selection, the result and the styles stay |
| CharacterCompletion.Wizard.ShowCandidates | src/components/CharacterCompletion.tsx:171-188 | the candidates become those parsed from the text, the select step opens, and nothing else changes |
| CharacterCompletion.Wizard.SelectContent | src/components/CharacterCompletion.tsx:198-208 | picking stores the passage under the candidate id; dropping deletes only that key |
| CharacterCompletion.Wizard.Merge | src/components/CharacterCompletion.tsx:211-244 | an empty selection or a failed call changes nothing. Otherwise the merged text (at 0.7 / 2000) becomes the result, and the result step opens |
| CharacterCompletion.Wizard.AddToScript | src/components/CharacterCompletion.tsx:247-264 | an empty result changes nothing. Otherwise a character is added with the summary as description and the full result as background, and the wizard starts over |
| CharacterCompletion.SelectThenRead | src/components/CharacterCompletion.tsx:198-208 | after a pick the key reads the passage, after a drop it reads nothing, and other keys are untouched |
| DraftGenerator.Cast | src/components/DraftGenerator.tsx:38-41 | the resolved participants, at most one per id, all characters of the script |
| DraftGenerator.CastMembers | src/components/DraftGenerator.tsx:38-41 | a character is in the cast exactly when some participant id resolves to it |
| DraftGenerator.CastEmptyIff | src/components/DraftGenerator.tsx:38-48 | the cast is empty exactly when no participant id resolves |
| DraftGenerator.Names | src/components/DraftGenerator.tsx:49 | the cast's names, in cast order |
| DraftGenerator.SceneLinksOf | src/components/DraftGenerator.tsx:56-61 | every note links a participant to a resolved target that is also a participant of the scene, through one of its relationships |
| DraftGenerator.SceneLinksOfComplete | src/components/DraftGenerator.tsx:56-61 | every relationship to another participant gives a note |
| DraftGenerator.SceneLinks | src/components/DraftGenerator.tsx:53-62 | the notes fail exactly when a participant's relationships are an object (the `forEach` throws); otherwise every note is sound |
| DraftGenerator.SceneLinksComplete | src/components/DraftGenerator.tsx:53-62 | when the notes are produced, every relationship between two participants is among them |
| DraftGenerator.CollectLinks | src/components/DraftGenerator.tsx:52-62 | the nested `forEach` loops collect exactly the scene's notes, or fail as the function says |
| DraftGenerator.NoLinksPastObject | src/components/DraftGenerator.tsx:53-62 | once a prefix of the cast fails, the whole cast fails |
| DraftGenerator.CastPartIff | src/components/DraftGenerator.tsx:48-71 | the participant block is empty exactly when no participant id resolves |
| DraftGenerator.PlaceholderIff | src/components/DraftGenerator.tsx:74-79 | the placeholder `*此场景内容待补充*` is shown exactly when the content is empty or all whitespace |
| DraftGenerator.SceneSectionFrame | src/components/DraftGenerator.tsx:44-81 | a section opens with `## 第<order+1>幕：<title>` and closes with `\n\n---\n\n` |
| DraftGenerator.SceneSectionFailsIff | src/components/DraftGenerator.tsx:36-82 | a section fails exactly when a resolved participant's relationships are an object |
| DraftGenerator.RelLinesOmitUnresolved | src/components/DraftGenerator.tsx:100-105 | relationships whose target does not resolve leave no line |
| DraftGenerator.NoResolvedNoLines | src/components/DraftGenerator.tsx:100-105 | with no resolving target there are no relationship lines |
| DraftGenerator.BuildCharacterSection | src/components/DraftGenerator.tsx:92-109 | the `+=` loop over the characters builds exactly the character section |
| DraftGenerator.BuildRelBlock | src/components/DraftGenerator.tsx:98-107 | the `+=` loop over one character's relationships builds exactly its relationship block |
| DraftGenerator.SortedSameScenes | src/components/DraftGenerator.tsx:34-35 | sorting keeps the same scenes |
| DraftGenerator.DraftFailsIff | src/components/DraftGenerator.tsx:32-118 | the draft is produced exactly when no scene has a resolved participant whose relationships are an object |
| DraftGenerator.SectionsFailIff | src/components/DraftGenerator.tsx:34-83 | the scene sections fail exactly when one scene does |
| DraftGenerator.DraftScenesInOrder | src/components/DraftGenerator.tsx:34-112 | the draft is the title line, then the overview, characters and sections. There is one section per scene, and the i-th section belongs to the i-th scene in ascending `order` |
| DraftGenerator.DraftStopsAutoGeneration | src/components/DraftGenerator.tsx:10-19 | once the draft is stored as the outline, the effect no longer generates it |
| DraftGenerator.FirstDraft | src/components/DraftGenerator.tsx:32-118 | a produced draft opens with the marker `# <title> - 初稿` that the effect looks for |
| DraftGenerator.SortCurrentScenes | src/components/DraftGenerator.tsx:34-35 | the in-place `sort` reorders only the current script's scenes, whether or not the draft is produced later |
| DraftGenerator.DraftPanel.constructor | src/components/DraftGenerator.tsx:7 | the panel starts with no draft shown |
| DraftGenerator.DraftPanel.GenerateDraft | src/components/DraftGenerator.tsx:29-122 | the current scenes are sorted in place. The draft is shown and stored as the outline, or, when it throws, the shown text and the list stay as they were after the sort |
| DraftGenerator.DraftPanel.OnCurrentScript | src/components/DraftGenerator.tsx:10-19 | the selection never changes. Without a script nothing happens. When the outline holds `# <title> - 初稿` the outline is shown and the list is unchanged. Otherwise the current script's scenes are sorted in place; a draft that can be built is shown and stored, stamped, as the outline of the sorted script, after which the guard no longer fires; a draft that cannot be built leaves the outline shown and only the sort in the list |
| CopilotContext.Search | src/context/CopilotContext.tsx:74-85 | nothing for a blank query; otherwise exactly the fragments whose lowercased title, content or some tag contains the lowercased query |
| CopilotContext.SearchAppend | src/context/CopilotContext.tsx:78-84 | the search keeps the fragments' order: searching a concatenation concatenates the searches |
| CopilotContext.QueryIsNotTrimmed | src/context/CopilotContext.tsx:75-77 | the query is lowercased but not trimmed: `场景` finds the fragment titled `场景`, ` 场景` does not |
| CopilotContext.CopilotLog.constructor | src/context/CopilotContext.tsx:45-46 | an empty log over the fixed fragment list |
| CopilotContext.CopilotLog.SendMessage | src/context/CopilotContext.tsx:49-59 | exactly one message is appended at the end; earlier messages are unchanged |
| CopilotContext.CopilotLog.SendText | src/context/CopilotContext.tsx:49 | with the defaults: role `user`, no fragment ids |
| CopilotContext.CopilotLog.ClearMessages | src/context/CopilotContext.tsx:62-64 | the log becomes empty |
| KnowledgeManager.ParsedTagsShape | src/components/KnowledgeManager.tsx:25 | every parsed tag is non-empty, trimmed and free of commas |
| KnowledgeManager.ParseTags | src/components/KnowledgeManager.tsx:25 | at most one tag per comma-separated piece, and no tag is empty |
| KnowledgeManager.TrimAll | src/components/KnowledgeManager.tsx:25 | every piece trimmed, in order |
| KnowledgeManager.ParseJoinedTags | src/components/KnowledgeManager.tsx:25 | tags written out with commas read back as they were, when each is non-empty, trimmed and free of commas |
| KnowledgeManager.MayUploadIff | src/components/KnowledgeManager.tsx:19 | an upload goes ahead exactly when both title and content have a non-whitespace character |
| KnowledgeManager.FilteredFragments | src/components/KnowledgeManager.tsx:35-41 | every fragment for a blank filter; otherwise the same fragments the Copilot search finds |
| KnowledgeManager.FilterAgreesWithSearch | src/components/KnowledgeManager.tsx:35-41 | a non-blank filter keeps exactly the matching fragments. On a blank text the page shows everything, while the Copilot search shows nothing |
| KnowledgeManager.UploadForm.constructor | src/components/KnowledgeManager.tsx:11-15 | empty fields, modal closed |
| KnowledgeManager.UploadForm.HandleUpload | src/components/KnowledgeManager.tsx:18-33 | without a non-blank title and content nothing happens. Otherwise the fragment with its parsed tags is handed over, every field is cleared and the modal closes |
| Copilot.Toggle | src/components/Copilot.tsx:48-54 | a selected id is removed (every copy) and all other ids stay; an unselected id is appended |
| Copilot.ToggleTwice | src/components/Copilot.tsx:48-54 | toggling twice restores membership, and the exact list when the id was unselected |
| Copilot.CharacterName | src/components/Copilot.tsx:88 | never empty; either `未命名角色` or a trimmed text without `:` made of the line's characters |
| Copilot.NamedLine | src/components/Copilot.tsx:88 | a line `name:rest` with a trimmed name gives that name back |
| Copilot.UnnamedLine | src/components/Copilot.tsx:88 | a line with nothing before its first `:` gives `未命名角色` |
| Copilot.NewCharactersFollowLines | src/components/Copilot.tsx:85-95 | one character per non-blank line, in line order, each described by its whole line |
| Copilot.NewCharactersShape | src/components/Copilot.tsx:88-93 | each added character is named from its line, has the background `<name>的背景故事` and no relationships yet |
| Copilot.GuidedOutlineQuotes | src/components/Copilot.tsx:75 | the outline opens with `# <title>` and quotes the background verbatim |
| Copilot.GenerationMovesForward | src/components/Copilot.tsx:72-111 | the stages are the bar's steps in order with `characters` skipped, and the progress strictly rises to 100 |
| Copilot.ApplyAllAppend | src/components/Copilot.tsx:76-108 | applying two runs of writes is applying them one after the other |
| Copilot.CastWritesAppend | src/components/Copilot.tsx:86-95 | adding characters one by one appends them in order |
| Copilot.GuidedResult | src/components/Copilot.tsx:75-108 | the writes of guided creation, each applied to the previous result, leave the guided outline, the added characters and the `draft` step, and nothing else changed |
| Copilot.Guided | src/components/Copilot.tsx:75-108 | the guided result keeps the script's id, title and scenes, moves it to `draft`, quotes the background in its outline and only appends characters |
| Copilot.StaleRunLast | src/components/Copilot.tsx:66-108 | when every write maps the same captured list, only the last write survives |
| Copilot.StaleGuidedCreation | src/components/Copilot.tsx:66-120 | the code as written (see Findings): without a current script the list is unchanged; otherwise it keeps its length and every id in place |
| Copilot.StaleGuidedKeepsOnlyStep | src/components/Copilot.tsx:66-120 | as written, guided creation only moves the current script to `draft` |
| Copilot.StaleGuidedLosesWork | src/components/Copilot.tsx:75-95 | as written, the guided outline and at least one added character are lost |
| Copilot.CopilotPanel.constructor | src/components/Copilot.tsx:9-22 | the panel's initial state |
| Copilot.CopilotPanel.ToggleFragmentSelection | src/components/Copilot.tsx:48-54 | the selection becomes the toggled one |
| Copilot.CopilotPanel.HandleSendMessage | src/components/Copilot.tsx:38-46 | a blank input changes nothing. Otherwise one user message carrying the input and the selected fragments is logged, and the input, selection and search text are cleared |
| Copilot.CopilotPanel.OnSearchQuery | src/components/Copilot.tsx:30-36 | the results are the search for the current text, and nothing for a blank text |
| Copilot.CopilotPanel.SimulateAiGeneration | src/components/Copilot.tsx:66-120 | the corrected model of the Findings row on Copilot.tsx (the code as written is `Copilot.StaleGuidedCreation`): without a current script nothing happens. Otherwise the current script ends with the guided outline, one added character per non-blank settings line and the `draft` step. The completion message is logged, the progress reads `draft` at 100 and the form closes |
| Copilot.CopilotPanel.WriteGuided | src/components/Copilot.tsx:75-108 | the corrected model of the Findings row on Copilot.tsx (the code as written is `Copilot.StaleGuidedCreation`): the store calls in order, each on the state the previous one left, replace the current script by the guided result |
| Copilot.CopilotPanel.AddCharacters | src/components/Copilot.tsx:85-95 | the loop adds the characters of the non-blank lines, in order, to the current script |
| Copilot.CopilotPanel.SetStep | src/components/Copilot.tsx:77-108 | a step write on top of the earlier writes changes only the step |
| Copilot.CopilotPanel.FinishGeneration | src/components/Copilot.tsx:105-119 | the progress reaches `draft` at 100, the form closes and the fixed completion message is logged |
| WorkflowView.IndexIn | src/components/WorkflowView.tsx:19 | `findIndex`: the first position holding the step, and -1 exactly when the step is not in the list |
| WorkflowView.CurrentLabel | src/components/WorkflowView.tsx:11-62 | a label exists exactly when the step is on the bar, and it is the label of the step's position |
| WorkflowView.ActiveIff | src/components/WorkflowView.tsx:11-32 | the step at position k is active exactly when it is the current step |
| WorkflowView.CompletedPrefix | src/components/WorkflowView.tsx:33 | completed steps are exactly those before the current one, a prefix of the bar, and never the active step |
| WorkflowView.OffBarIdle | src/components/WorkflowView.tsx:19-62 | for `clues` or `refinement` nothing is active or completed and no label exists |
| WorkflowView.ClickStep | src/components/WorkflowView.tsx:38 | any step may be clicked. Without a current script nothing changes. Otherwise the current script, stamped, gets the clicked step and every other script stays as it was; the selection stays and exactly the clicked position is active |
| StableSort.Sort | src/services/RagService.ts:67 | a permutation of the input, ascending by key |
| StableSort.SortStable | src/services/RagService.ts:67 | elements with equal keys keep their relative order |
| StableSort.SortUnique | src/components/SceneManager.tsx:26 | any ascending, stable rearrangement is the sort's result, so the order a stable sort produces is determined |
| Strings.Split | src/components/KnowledgeManager.tsx:25 | `split` on one character: at least one piece, none containing the separator |
| Strings.SplitJoin | src/components/Copilot.tsx:85 | joining the pieces of a split with the separator gives the text back |
| Strings.JoinSplit | src/components/KnowledgeManager.tsx:25 | splitting a join of separator-free pieces gives the pieces back |
| Strings.TrimEmptyIff | src/components/KnowledgeManager.tsx:19 | `trim()` is empty exactly when every character is JavaScript whitespace |
| Strings.TrimShape | src/components/KnowledgeManager.tsx:25 | `trim` gives a slice of the text with no whitespace at either end |
| Strings.Contains | src/context/CopilotContext.tsx:79-81 | `includes` holds exactly when the needle occurs in the text |
| Strings.Lower | src/context/CopilotContext.tsx:76 | same length, each character mapped by the ASCII lowercasing |
| Strings.SplitWs | src/services/RagService.ts:50 | at least one piece; every piece is free of whitespace and made of characters of the text |
| Strings.JoinContainsAll | src/components/SceneManager.tsx:171 | every piece occurs in the joined string |
| Strings.SplitWsConcat | src/services/RagService.ts:50 | the pieces of `split(/\s+/)` are the text with its whitespace removed, in order |

## Left out

- HTTP: `generateText` posts through axios. Here the backend is a function from the request to an optional reply, and `None` stands for any thrown error. The API key, URL, model name and console logging are not modelled.
- Floating point: temperatures and `topP` are kept in tenths (0.8 is `8`). Nothing computes with them.
- `JSON.parse` in `analyzeCharacterInfo` is a parameter (`JsonReader`). Only the regex fallback and the default list are modelled in full.
- Lowercasing: `toLowerCase` maps only `A`–`Z`. Full Unicode case mapping is not modelled.
- Characters: a `char` is one UTF-16 code unit. Characters outside the Basic Multilingual Plane are not modelled.
- Ids and clocks: `crypto.randomUUID`, `uuidv4`, `Date.now` and `new Date` are parameters: a fresh id per call and one timestamp `now` per operation.
- Timers: the `setTimeout` delays in `simulateAiGeneration` and in the context's `generateDraft` are dropped. Each operation runs as straight-line code, and all its writes share one `now`.
- Copilot.CopilotPanel.SimulateAiGeneration: only the final progress values are set. The intermediate ones (20, 40, 60, 90) are listed and ordered by `Copilot.GenerationMovesForward`.
- Loading flags: `isGenerating` is set and cleared by the Copilot panel. The loading flags of the other components only drive rendering and are not modelled.
- CopilotContext's `generateDraft` returns a canned string after a delay. No component of the model calls it.
- `uploadKnowledgeFragment` only logs. `KnowledgeManager.UploadForm.HandleUpload` returns the fragment it would log as `sent`.
- Rendering: JSX, CSS classes, drag events other than drop, `alert`/`confirm`, scrolling, notification toggles, the quick-prompt buttons and the panel's expand toggle are not modelled.
- Markdown-to-HTML rendering in `DraftGenerator.tsx` and `ScriptEditor.tsx` is presentation only and is not modelled.
- Editors whose only logic is copying form fields: SceneManager's `handleEditScene`/`handleSaveEdit` and DraftGenerator's `handleContentChange`/`handleSave`. They reach the store through `updateScene` and `updateOutline`, which are modelled.
- Spreading a non-empty relationship array: CharacterManager always writes an object map. The store only ever creates empty arrays, so this case never arises and is not modelled.
- Type files: the two type files disagree. The model follows `src/types.ts`, which the store imports. Relationships are either an array of `{source, target, …}` records or a string-keyed object, because CharacterManager writes objects and DraftGenerator reads arrays.
- CharacterCompletion.RetrieveKnowledge: reads the profession with the corrected `CompletionParsers.ProfessionOnLine`, not with line 95 as written. The query the code as written sends under a blank label is shown by `CharacterCompletion.BlankProfessionQueries` (see Findings).
- Pure display files (`CharacterView`, `OutlineView`, `ActsView`, `ScriptView`, `Copilot-fixed`, `Layout`, `App`, the pages) are not part of this model.

## Findings

| source | as written | input that shows it | evidently intended | confidence | as-written member | corrected member |
|---|---|---|---|---|---|---|
| src/components/CharacterCompletion.tsx:95 | the spacing after `职业：` is `\s*`, which also matches line breaks, so a blank profession label takes the whole next line | notes `职业：\n年龄：30` give the profession `年龄：30`, and the knowledge query asks about it | the profession is read from the label's own line, and a blank label gives no profession query | not executed | CompletionParsers.ProfessionAsWritten, CompletionParsers.BlankProfessionTakesNextLine, CharacterCompletion.BlankProfessionQueries | CompletionParsers.ProfessionOnLine, CompletionParsers.BlankProfessionStaysBlank, CharacterCompletion.RetrieveKnowledge |
| src/components/Copilot.tsx:66-120 | every store call in `simulateAiGeneration` maps the `scripts` list captured when the run began, so each write replaces the previous one | any current script, with background `B` and settings `甲:x`: afterwards the outline and characters are as before and only the step is `draft` | each write builds on the previous one: the script ends with the guided outline, the new characters and the step `draft` | not executed | Copilot.StaleGuidedCreation, Copilot.StaleGuidedKeepsOnlyStep, Copilot.StaleGuidedLosesWork | Copilot.CopilotPanel.SimulateAiGeneration, Copilot.GuidedResult |
