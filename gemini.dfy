/** The text-generation client (src/services/GeminiService.ts): the request
    it sends, how it reads the reply, how it reports failures, and the three
    prompt builders.  The HTTP call is a `Backend` function supplied by the
    caller: `None` stands for a rejected request (network error or non-2xx
    status), `Some(reply)` for the parsed response body. */
module Gemini {
  import opened Wrappers
  import opened Strings

  /** `generationConfig`; temperature and topP are kept in tenths. */
  datatype GenerationConfig = GenerationConfig(
    temperatureTenths: nat,
    maxOutputTokens: nat,
    topPTenths: nat,
    topK: nat)

  datatype Request = Request(prompt: string, config: GenerationConfig)

  /** The reply body; every `Option` is a property that may be absent. */
  datatype Part = Part(text: Option<string>)
  datatype Content = Content(parts: Option<seq<Part>>)
  datatype Candidate = Candidate(content: Option<Content>)
  datatype Reply = Reply(candidates: Option<seq<Candidate>>)

  type Backend = Request -> Option<Reply>

  const DefaultTemperatureTenths: nat := 7
  const DefaultMaxTokens: nat := 1024
  const TopPTenths: nat := 9
  const TopK: nat := 40

  const GenerateTextFailed := "生成文本失败，请稍后重试"
  const RagResponseFailed := "无法生成回复，请稍后重试"

  /** `response.data.candidates[0]?.content?.parts[0]?.text || ''`; `None`
      when evaluating it throws (no `candidates`, or a `content` without
      `parts`). */
  function ReplyText(reply: Reply): (r: Option<string>)
    ensures r.None? <==>
      reply.candidates.None?
      || (reply.candidates.value != [] && reply.candidates.value[0].content.Some?
          && reply.candidates.value[0].content.value.parts.None?)
    ensures r.Some? && r.value != [] ==>
      reply.candidates.Some? && reply.candidates.value != []
      && reply.candidates.value[0].content.Some?
      && reply.candidates.value[0].content.value.parts.Some?
      && reply.candidates.value[0].content.value.parts.value != []
      && reply.candidates.value[0].content.value.parts.value[0].text == Some(r.value)
  {
    match reply.candidates
    case None => None
    case Some(cs) =>
      if cs == [] then Some("")
      else match cs[0].content
        case None => Some("")
        case Some(content) =>
          match content.parts
          case None => None
          case Some(ps) =>
            if ps == [] then Some("")
            else match ps[0].text
              case None => Some("")
              case Some(t) => Some(t)
  }

  /** The request `generateText(prompt, temperature, maxTokens)` posts. */
  function TextRequest(prompt: string, temperatureTenths: nat, maxTokens: nat): Request {
    Request(prompt, GenerationConfig(temperatureTenths, maxTokens, TopPTenths, TopK))
  }

  /** What `generateText` resolves to: the reply's text, or a failure carrying
      the one fixed message whatever went wrong. */
  function Complete(reply: Option<Reply>): (r: Result<string, string>)
    ensures r.Err? ==> r.error == GenerateTextFailed
    ensures r.Err? <==> reply.None? || ReplyText(reply.value).None?
    ensures r.Ok? ==> r.value == ReplyText(reply.value).value
  {
    match reply
    case None => Err(GenerateTextFailed)
    case Some(body) =>
      match ReplyText(body)
      case None => Err(GenerateTextFailed)
      case Some(t) => Ok(t)
  }

  /** `generateText`: posts the prompt with the given temperature and token
      limit and the fixed `topP` and `topK`; the result is the reply's text,
      or the one fixed message. */
  function GenerateText(backend: Backend, prompt: string, temperatureTenths: nat, maxTokens: nat): (r: Result<string, string>)
    ensures var reply := backend(Request(prompt, GenerationConfig(temperatureTenths, maxTokens, 9, 40)));
            (r.Ok? <==> reply.Some? && ReplyText(reply.value).Some?)
            && (r.Ok? ==> ReplyText(reply.value) == Some(r.value))
    ensures r.Err? ==> r.error == GenerateTextFailed
  {
    Complete(backend(TextRequest(prompt, temperatureTenths, maxTokens)))
  }

  /** `generateText(prompt)` with its default temperature 0.7 and 1024 tokens. */
  function GenerateTextWithDefaults(backend: Backend, prompt: string): Result<string, string> {
    GenerateText(backend, prompt, DefaultTemperatureTenths, DefaultMaxTokens)
  }

  function RagPrompt(query: string, documents: seq<string>): string {
    "我将给你一个问题和一些相关文档内容作为背景信息。\n请基于这些信息回答问题，如果无法从提供的信息中找到答案，请明确说明。\n\n背景信息:\n"
    + Join(documents, "\n\n") + "\n\n问题:\n" + query
  }

  /** `generateRagResponse`: temperature 0.3, 1500 tokens, and every failure
      replaced by its own fixed message. */
  function GenerateRagResponse(backend: Backend, query: string, documents: seq<string>): (r: Result<string, string>)
    ensures r.Err? <==> GenerateText(backend, RagPrompt(query, documents), 3, 1500).Err?
    ensures r.Err? ==> r.error == RagResponseFailed
    ensures r.Ok? ==> r == GenerateText(backend, RagPrompt(query, documents), 3, 1500)
  {
    match GenerateText(backend, RagPrompt(query, documents), 3, 1500)
    case Ok(text) => Ok(text)
    case Err(_) => Err(RagResponseFailed)
  }

  function CharacterPrompt(notes: string): string {
    CharacterIntro + notes + CharacterAsk
  }

  const CharacterIntro := "请为一个剧本杀游戏创建一个引人入胜的角色。根据以下信息创建:\n"
  const CharacterAsk :=
    "\n\n请提供:\n1. 角色姓名\n2. 年龄和职业\n3. 详细的背景故事\n4. 性格特点\n5. 主要动机和目标\n6. 与其他角色的潜在关系\n\n以详细的角色描述形式回复，不要使用标题或分隔符。"

  /** `createCharacter`: temperature 0.8, 2000 tokens, no catch of its own,
      so a failure keeps `generateText`'s message. */
  function CreateCharacter(backend: Backend, notes: string): (r: Result<string, string>)
    ensures var reply := backend(Request(CharacterPrompt(notes), GenerationConfig(8, 2000, 9, 40)));
            (r.Ok? <==> reply.Some? && ReplyText(reply.value).Some?)
            && (r.Ok? ==> ReplyText(reply.value) == Some(r.value))
    ensures r.Err? ==> r.error == GenerateTextFailed
  {
    GenerateText(backend, CharacterPrompt(notes), 8, 2000)
  }

  function ImprovePrompt(outline: string): string {
    ImproveIntro + outline + ImproveAsk
  }

  const ImproveIntro := "我有一个剧本杀游戏的初步大纲，请帮我完善和优化它，使其更加引人入胜和逻辑严密。\n\n原始大纲:\n"
  const ImproveAsk :=
    "\n\n请优化以下几个方面:\n1. 故事结构和情节节奏\n2. 核心矛盾和冲突\n3. 悬念和线索设计\n4. 世界观和背景细节\n\n请保持原始大纲的主要元素和主题，但可以添加细节、调整结构或提出改进建议。"

  /** `improveOutline`: temperature 0.6, 3000 tokens, no catch of its own,
      so a failure keeps `generateText`'s message. */
  function ImproveOutline(backend: Backend, outline: string): (r: Result<string, string>)
    ensures var reply := backend(Request(ImprovePrompt(outline), GenerationConfig(6, 3000, 9, 40)));
            (r.Ok? <==> reply.Some? && ReplyText(reply.value).Some?)
            && (r.Ok? ==> ReplyText(reply.value) == Some(r.value))
    ensures r.Err? ==> r.error == GenerateTextFailed
  {
    GenerateText(backend, ImprovePrompt(outline), 6, 3000)
  }

  /** The grounding prompt quotes every document and then the question:
      each document lies inside the context block, and the context block
      ends before the question starts. */
  lemma RagPromptQuotes(query: string, documents: seq<string>, k: nat)
    requires k < |documents|
    ensures Occurs(documents[k], RagPrompt(query, documents))
    ensures Occurs(query, RagPrompt(query, documents))
    ensures exists i, j :: i + |Join(documents, "\n\n")| <= j
                           && OccursAt(Join(documents, "\n\n"), RagPrompt(query, documents), i)
                           && OccursAt(query, RagPrompt(query, documents), j)
  {
    var head := "我将给你一个问题和一些相关文档内容作为背景信息。\n请基于这些信息回答问题，如果无法从提供的信息中找到答案，请明确说明。\n\n背景信息:\n";
    var context := Join(documents, "\n\n");
    var tail := "\n\n问题:\n";
    var p := RagPrompt(query, documents);
    assert p == head + context + (tail + query);
    JoinContainsPiece(documents, "\n\n", k);
    OccursInConcat(documents[k], head, context, tail + query);
    var i := |head|;
    var j := |head| + |context| + |tail|;
    assert p[i..i + |context|] == context;
    assert p[j..j + |query|] == query;
    assert OccursAt(context, p, i) && OccursAt(query, p, j);
  }

  /** The character and outline prompts quote the caller's text verbatim. */
  lemma TemplatesQuoteInput(notes: string, outline: string)
    ensures Occurs(notes, CharacterPrompt(notes))
    ensures Occurs(outline, ImprovePrompt(outline))
  {
    QuotedIn(notes, CharacterIntro, CharacterAsk);
    QuotedIn(outline, ImproveIntro, ImproveAsk);
  }
}
