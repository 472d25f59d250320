/** The character-completion wizard (src/components/CharacterCompletion.tsx):
    the character's notes are analysed for missing aspects, background is
    fetched from the knowledge base, two or three candidate settings are
    generated in the chosen styles, the user picks passages from them, the
    picks are merged into one setting, and that setting becomes a new
    character of the current script.  The text generator is a
    `Gemini.Backend` and `JSON.parse` a `JsonReader`, both supplied by the
    caller. */
module CharacterCompletion {
  import opened Wrappers
  import opened Strings
  import opened Seqs
  import opened OrderedMap
  import opened Types
  import opened CompletionParsers
  import ScriptContext
  import Gemini
  import Rag

  datatype CharacterInfo = CharacterInfo(name: string, basicInfo: string)

  datatype Style = Style(id: string, name: string, description: string)

  /** `candidateStyles`. */
  const Styles: seq<Style> := [
    Style("style1", "心理深度型", "注重心理描写和内心成长"),
    Style("style2", "关系导向型", "侧重社会关系和外部冲突"),
    Style("style3", "专业能力型", "强调独特能力和专业背景")]

  const MaxStyles := 3

  /** The wizard's page. */
  datatype Step = InputStep | SelectStep | ResultStep

  // Style selection.

  function StyleIds(styles: seq<Style>): (r: seq<string>)
    ensures |r| == |styles|
    ensures forall i :: 0 <= i < |r| ==> r[i] == styles[i].id
  {
    seq(|styles|, i requires 0 <= i < |styles| => styles[i].id)
  }

  function OtherStyle(id: string): Style -> bool {
    (s: Style) => s.id != id
  }

  /** A click on a style button: a selected style is dropped, another one
      is appended while fewer than three are selected. */
  function ToggleStyle(selected: seq<Style>, style: Style): (r: seq<Style>)
    ensures |r| <= |selected| + 1
    ensures forall s :: s in r ==> s in selected || s == style
  {
    if style.id in StyleIds(selected) then
      FilterMembers(selected, OtherStyle(style.id));
      Filter(selected, OtherStyle(style.id))
    else if |selected| < MaxStyles then selected + [style]
    else selected
  }

  /** At most three styles are ever selected; the clicked style ends up
      selected exactly when it was not and there was room for it; every
      other style keeps its state. */
  lemma ToggleStyleSelects(selected: seq<Style>, style: Style, id: string)
    ensures |selected| <= MaxStyles ==> |ToggleStyle(selected, style)| <= MaxStyles
    ensures style.id in StyleIds(ToggleStyle(selected, style))
            <==> style.id !in StyleIds(selected) && |selected| < MaxStyles
    ensures id != style.id ==> (id in StyleIds(ToggleStyle(selected, style)) <==> id in StyleIds(selected))
  {
    var r := ToggleStyle(selected, style);
    if style.id in StyleIds(selected) {
      FilterMembers(selected, OtherStyle(style.id));
      forall x | x in StyleIds(r) ensures x != style.id && x in StyleIds(selected) {
        var i :| 0 <= i < |r| && StyleIds(r)[i] == x;
        assert r[i] in selected;
      }
      if id in StyleIds(selected) && id != style.id {
        var i :| 0 <= i < |selected| && StyleIds(selected)[i] == id;
        assert selected[i] in r;
        var j :| 0 <= j < |r| && r[j] == selected[i];
        assert StyleIds(r)[j] == id;
      }
    } else if |selected| < MaxStyles {
      assert StyleIds(r) == StyleIds(selected) + [style.id];
    }
  }

  /** Two clicks on a style that was not selected, with room for it, leave
      the selection as it was. */
  lemma ToggleStyleTwice(selected: seq<Style>, style: Style)
    requires style.id !in StyleIds(selected) && |selected| < MaxStyles
    ensures ToggleStyle(ToggleStyle(selected, style), style) == selected
  {
    var once := selected + [style];
    assert StyleIds(once) == StyleIds(selected) + [style.id];
    FilterAppend(selected, [style], OtherStyle(style.id));
    forall i | 0 <= i < |selected| ensures OtherStyle(style.id)(selected[i]) {
      assert StyleIds(selected)[i] == selected[i].id;
    }
    FilterAll(selected, OtherStyle(style.id));
    assert Filter([style], OtherStyle(style.id)) == [];
  }

  // Analysis of the notes.

  /** What `JSON.parse(text).missingAspects || []` evaluates to: `NotJson`
      when parsing or the property access throws, otherwise the property,
      `None` when it is absent. */
  datatype JsonAnalysis = NotJson | JsonObject(missingAspects: Option<seq<string>>)

  type JsonReader = string -> JsonAnalysis

  const AnalysisHead := "\n我需要分析以下角色的基础信息，并判断哪些方面需要补充：\n\n角色名称: "
  const AnalysisMiddle := "\n已知信息: "
  const AnalysisTail := "\n\n请分析这个角色的以下方面是否已经明确：\n1. 基本信息（年龄、性别、职业）\n2. 外貌特征\n3. 性格特点\n4. 成长背景\n5. 目标和动机\n6. 能力和特长\n7. 弱点和缺陷\n8. 与其他角色的关系\n\n对于每个缺失的方面，请提供一个标记，我将用这些标记来指导后续生成。\n输出格式为JSON，包含missingAspects数组：\n{\"missingAspects\": [\"方面1\", \"方面2\", ...]}\n"

  function AnalysisPrompt(info: CharacterInfo): string {
    AnalysisHead + info.name + AnalysisMiddle + info.basicInfo + AnalysisTail
  }

  /** `analyzeCharacterInfo`: the parsed list, the list read from a reply
      that is not JSON, or the default list when generation fails. */
  function AnalyzeAspects(backend: Gemini.Backend, readJson: JsonReader, info: CharacterInfo): (r: seq<string>)
    ensures Gemini.GenerateTextWithDefaults(backend, AnalysisPrompt(info)).Err? ==> r == DefaultAspects
  {
    match Gemini.GenerateTextWithDefaults(backend, AnalysisPrompt(info))
    case Err(_) => DefaultAspects
    case Ok(text) =>
      match readJson(text)
      case NotJson => FallbackAspects(text)
      case JsonObject(None) => []
      case JsonObject(Some(aspects)) => aspects
  }

  /** The analysis request quotes the character's name and notes. */
  lemma AnalysisPromptQuotes(info: CharacterInfo)
    ensures Occurs(info.name, AnalysisPrompt(info)) && Occurs(info.basicInfo, AnalysisPrompt(info))
  {
    QuotedTwice(AnalysisHead, info.name, AnalysisMiddle, info.basicInfo, AnalysisTail);
  }

  /** A reply that is not JSON yields either the default list or aspects
      that are non-empty, trimmed and free of commas and brackets. */
  lemma AnalysisReadsReply(backend: Gemini.Backend, readJson: JsonReader, info: CharacterInfo)
    ensures var reply := Gemini.GenerateTextWithDefaults(backend, AnalysisPrompt(info));
            var r := AnalyzeAspects(backend, readJson, info);
            reply.Ok? && readJson(reply.value).NotJson? ==>
              r == DefaultAspects
              || forall i :: 0 <= i < |r| ==> r[i] != [] && Trim(r[i]) == r[i] && ',' !in r[i] && ']' !in r[i]
  {
    var reply := Gemini.GenerateTextWithDefaults(backend, AnalysisPrompt(info));
    if reply.Ok? {
      FallbackAspectsShape(reply.value);
    }
  }

  // Background knowledge.

  const PersonalityAspect := "性格特点"
  const PersonalityQuery := "剧本角色 常见性格特质 行为表现 言语特征 决策倾向"
  const ProfessionHeading := "\n## 职业背景\n"
  const PersonalityHeading := "\n## 性格参考\n"

  function ProfessionQuery(profession: string, name: string): string {
    profession + " 专业知识 日常工作 行业术语 " + name + "类型角色"
  }

  /** The queries `retrieveRelevantKnowledge` sends for the profession
      found in the notes (`""` for none) and the missing aspects: the
      profession query exactly when there is a profession, and the
      personality query exactly when that aspect is missing, in that
      order. */
  function KnowledgeQueries(profession: string, name: string, aspects: seq<string>): (qs: seq<string>)
    ensures |qs| == (if profession != "" then 1 else 0) + (if PersonalityAspect in aspects then 1 else 0)
    ensures profession != "" ==> qs[0] == ProfessionQuery(profession, name)
    ensures PersonalityAspect in aspects ==> qs[|qs| - 1] == PersonalityQuery
  {
    (if profession != "" then [ProfessionQuery(profession, name)] else [])
    + (if PersonalityAspect in aspects then [PersonalityQuery] else [])
  }

  /** `retrieveRelevantKnowledge`: each answer of `answerQuery` under its
      heading, profession first.  `answerQuery` never fails, so neither
      does this. */
  function RetrieveKnowledge(kb: seq<KnowledgeFragment>, backend: Gemini.Backend,
                             info: CharacterInfo, aspects: seq<string>): (r: string)
  {
    var profession := ProfessionOnLine(info.basicInfo);
    (if profession != "" then ProfessionHeading + Rag.AnswerQuery(kb, backend, ProfessionQuery(profession, info.name)) else "")
    + (if PersonalityAspect in aspects then PersonalityHeading + Rag.AnswerQuery(kb, backend, PersonalityQuery) else "")
  }

  /** The knowledge text is empty exactly when no query is sent, and it
      carries the answer to each query sent under its heading. */
  lemma RetrievedKnowledge(kb: seq<KnowledgeFragment>, backend: Gemini.Backend,
                           info: CharacterInfo, aspects: seq<string>)
    ensures var r := RetrieveKnowledge(kb, backend, info, aspects);
            var profession := ProfessionOnLine(info.basicInfo);
            (r == "" <==> KnowledgeQueries(profession, info.name, aspects) == [])
            && (profession != "" ==>
                  Occurs(ProfessionHeading + Rag.AnswerQuery(kb, backend, ProfessionQuery(profession, info.name)), r))
            && (PersonalityAspect in aspects ==>
                  Occurs(PersonalityHeading + Rag.AnswerQuery(kb, backend, PersonalityQuery), r))
  {
    var answer := q => Rag.AnswerQuery(kb, backend, q);
    KnowledgeFollowsQueries(kb, backend, info, aspects);
    SectionsShape(answer, ProfessionOnLine(info.basicInfo), info.name, aspects);
  }

  lemma SectionsShape(answer: string -> string, profession: string, name: string, aspects: seq<string>)
    ensures var r := Sections(answer, profession, KnowledgeQueries(profession, name, aspects));
            (r == "" <==> KnowledgeQueries(profession, name, aspects) == [])
            && (profession != "" ==> Occurs(ProfessionHeading + answer(ProfessionQuery(profession, name)), r))
            && (PersonalityAspect in aspects ==> Occurs(PersonalityHeading + answer(PersonalityQuery), r))
  {
    var pa := if profession != "" then ProfessionHeading + answer(ProfessionQuery(profession, name)) else "";
    var pe := if PersonalityAspect in aspects then PersonalityHeading + answer(PersonalityQuery) else "";
    SectionsInOrder(answer, profession, name, aspects);
    OccursAtStart(pa, pe);
    OccursAtEnd(pe, pa);
  }

  /** `retrieveRelevantKnowledge` reads the profession with line 95's
      `\s*`, which crosses a line break: under a blank label the source
      asks about the next line, the corrected reading asks nothing about a
      profession. */
  lemma BlankProfessionQueries(pre: string, sep: char, line: string, post: string,
                               name: string, aspects: seq<string>)
    requires '职' !in pre && '职' !in line && '职' !in post && IsProfessionSep(sep)
    requires line != [] && !IsSpace(line[0]) && !IsSpace(line[|line| - 1])
    requires forall c :: c in line ==> !IsProfessionStop(c)
    requires post == [] || IsProfessionStop(post[0])
    ensures var notes := pre + ProfessionKey + [sep] + "\n" + line + post;
            ProfessionAsWritten(notes) == line
            && KnowledgeQueries(ProfessionAsWritten(notes), name, aspects)[0] == ProfessionQuery(line, name)
            && KnowledgeQueries(ProfessionOnLine(notes), name, aspects)
               == if PersonalityAspect in aspects then [PersonalityQuery] else []
  {
    var rest := "\n" + line + post;
    assert pre + ProfessionKey + [sep] + rest == pre + ProfessionKey + [sep] + "\n" + line + post;
    BlankProfessionTakesNextLine(pre, sep, line, post);
    BlankProfessionStaysBlank(pre, sep, rest);
  }

  /** The knowledge text is the answers to the queries sent, in the order
      sent, each under its heading, and nothing else. */
  lemma KnowledgeFollowsQueries(kb: seq<KnowledgeFragment>, backend: Gemini.Backend,
                                info: CharacterInfo, aspects: seq<string>)
    ensures var profession := ProfessionOnLine(info.basicInfo);
            var qs := KnowledgeQueries(profession, info.name, aspects);
            var answer := q => Rag.AnswerQuery(kb, backend, q);
            RetrieveKnowledge(kb, backend, info, aspects) == Sections(answer, profession, qs)
  {
    var profession := ProfessionOnLine(info.basicInfo);
    var answer := q => Rag.AnswerQuery(kb, backend, q);
    var pa := ProfessionHeading + answer(ProfessionQuery(profession, info.name));
    var pe := PersonalityHeading + answer(PersonalityQuery);
    SectionsInOrder(answer, profession, info.name, aspects);
    assert RetrieveKnowledge(kb, backend, info, aspects)
        == (if profession != "" then pa else "") + (if PersonalityAspect in aspects then pe else "");
  }

  /** The answers to the queries `qs`, each under its heading, in order. */
  function Sections(answer: string -> string, profession: string, qs: seq<string>): string {
    Concat(seq(|qs|, i requires 0 <= i < |qs| =>
             (if i == 0 && profession != "" then ProfessionHeading else PersonalityHeading) + answer(qs[i])))
  }

  lemma SectionsInOrder(answer: string -> string, profession: string, name: string, aspects: seq<string>)
    ensures var pa := ProfessionHeading + answer(ProfessionQuery(profession, name));
            var pe := PersonalityHeading + answer(PersonalityQuery);
            Sections(answer, profession, KnowledgeQueries(profession, name, aspects))
              == (if profession != "" then pa else "") + (if PersonalityAspect in aspects then pe else "")
  {
    var qs := KnowledgeQueries(profession, name, aspects);
    var sections := seq(|qs|, i requires 0 <= i < |qs| =>
                      (if i == 0 && profession != "" then ProfessionHeading else PersonalityHeading) + answer(qs[i]));
    var pa := ProfessionHeading + answer(ProfessionQuery(profession, name));
    var pe := PersonalityHeading + answer(PersonalityQuery);
    if profession != "" && PersonalityAspect in aspects {
      assert sections == [pa, pe];
      ConcatPair(pa, pe);
    } else if profession != "" {
      assert sections == [pa];
      ConcatPair(pa, []);
    } else if PersonalityAspect in aspects {
      assert sections == [pe];
      ConcatPair(pe, []);
    } else {
      assert sections == [];
    }
  }

  lemma ConcatPair(a: string, b: string)
    ensures Concat([a, b]) == a + b
    ensures Concat([a]) == a
  {
    assert [a, b][1..] == [b];
    assert [b][1..] == [];
    assert [a][1..] == [];
    assert Concat([b]) == b + Concat([]) == b;
    assert Concat([a]) == a + Concat([]) == a;
  }

  // Candidate generation.

  const CandidateIntro := "\n请为剧本角色\""
  const CandidateCount := "\"生成"
  const CandidateKnown := "个不同风格的完整角色设定。已知的信息如下：\n\n"
  const CandidateMissing := "\n\n基于分析，需要补充的方面包括："
  const CandidateReference := "\n\n从知识库中获取的相关参考信息：\n"
  const CandidateAsk := "\n\n请生成"
  const CandidateRules := "个差异化的角色设定，确保它们符合以下条件：\n1. 保持与已知信息一致\n2. 补充所有缺失的方面\n3. 每个候选项应有不同的风格或侧重点\n4. 候选项1应更加"
  const CandidateSecond := "\n5. 候选项2应更加"
  const CandidateThird := "6. 候选项3应更加"
  const CandidateFormat := "\n\n为每个候选项提供一个简短标题，概括其特点。\n输出格式如下：\n\n===候选1: [标题]===\n[详细内容]\n\n===候选2: [标题]===\n[详细内容]\n\n"
  const CandidateThirdFormat := "===候选3: [标题]===\n[详细内容]"

  /** The part of the prompt after the second style's description. */
  function CandidateEnding(styles: seq<Style>): string {
    "\n" + (if |styles| > 2 then CandidateThird + styles[2].description else "")
    + CandidateFormat + (if |styles| > 2 then CandidateThirdFormat else "") + "\n"
  }

  /** The generation prompt, or `None` when fewer than two styles are
      selected and reading `selectedStyles[1].description` throws. */
  function CandidatePrompt(info: CharacterInfo, styles: seq<Style>, aspects: seq<string>, knowledge: string): (r: Option<string>)
    ensures r.None? <==> |styles| < 2
  {
    if |styles| < 2 then None
    else
      Some(CandidateHead(info, |styles|, aspects, knowledge) + styles[0].description
        + CandidateSecond + styles[1].description + CandidateEnding(styles))
  }

  /** The part of the prompt before the first style's description. */
  function CandidateHead(info: CharacterInfo, styleCount: nat, aspects: seq<string>, knowledge: string): string {
    var count := NatToString(styleCount);
    CandidateIntro + info.name + CandidateCount + count + CandidateKnown
    + info.basicInfo + CandidateMissing + Join(aspects, ", ") + CandidateReference + knowledge
    + CandidateAsk + count + CandidateRules
  }

  /** With a third style, the ending quotes its description. */
  lemma EndingQuotesThird(styles: seq<Style>)
    requires |styles| > 2
    ensures Occurs(styles[2].description, CandidateEnding(styles))
  {
    var d := styles[2].description;
    var third := CandidateThird + d;
    OccursAtEnd(d, CandidateThird);
    OccursInSuffix(d, "\n", third);
    OccursInPrefix(d, "\n" + third, CandidateFormat);
    OccursInPrefix(d, "\n" + third + CandidateFormat, CandidateThirdFormat);
    OccursInPrefix(d, "\n" + third + CandidateFormat + CandidateThirdFormat, "\n");
  }

  /** The prompt quotes the notes and the knowledge. */
  lemma CandidatePromptQuotes(info: CharacterInfo, styles: seq<Style>, aspects: seq<string>, knowledge: string)
    requires |styles| >= 2
    ensures Occurs(info.basicInfo, CandidatePrompt(info, styles, aspects, knowledge).value)
    ensures Occurs(knowledge, CandidatePrompt(info, styles, aspects, knowledge).value)
  {
    var count := NatToString(|styles|);
    var s1 := CandidateIntro + info.name + CandidateCount + count + CandidateKnown + info.basicInfo;
    var s2 := s1 + CandidateMissing + Join(aspects, ", ") + CandidateReference + knowledge;
    var s3 := s2 + CandidateAsk + count + CandidateRules + styles[0].description;
    var s4 := s3 + CandidateSecond + styles[1].description;
    var e := CandidateEnding(styles);
    assert CandidatePrompt(info, styles, aspects, knowledge).value == s4 + e;
    OccursAtEnd(info.basicInfo, CandidateIntro + info.name + CandidateCount + count + CandidateKnown);
    OccursInPrefix(info.basicInfo, s1, CandidateMissing);
    OccursInPrefix(info.basicInfo, s1 + CandidateMissing, Join(aspects, ", "));
    OccursInPrefix(info.basicInfo, s1 + CandidateMissing + Join(aspects, ", "), CandidateReference);
    OccursInPrefix(info.basicInfo, s1 + CandidateMissing + Join(aspects, ", ") + CandidateReference, knowledge);
    OccursInPrefix(info.basicInfo, s2, CandidateAsk);
    OccursInPrefix(info.basicInfo, s2 + CandidateAsk, count);
    OccursInPrefix(info.basicInfo, s2 + CandidateAsk + count, CandidateRules);
    OccursInPrefix(info.basicInfo, s2 + CandidateAsk + count + CandidateRules, styles[0].description);
    OccursInPrefix(info.basicInfo, s3, CandidateSecond);
    OccursInPrefix(info.basicInfo, s3 + CandidateSecond, styles[1].description);
    OccursInPrefix(info.basicInfo, s4, e);
    OccursAtEnd(knowledge, s1 + CandidateMissing + Join(aspects, ", ") + CandidateReference);
    OccursInPrefix(knowledge, s2, CandidateAsk);
    OccursInPrefix(knowledge, s2 + CandidateAsk, count);
    OccursInPrefix(knowledge, s2 + CandidateAsk + count, CandidateRules);
    OccursInPrefix(knowledge, s2 + CandidateAsk + count + CandidateRules, styles[0].description);
    OccursInPrefix(knowledge, s3, CandidateSecond);
    OccursInPrefix(knowledge, s3 + CandidateSecond, styles[1].description);
    OccursInPrefix(knowledge, s4, e);
  }

  /** The prompt quotes the description of each of the first three
      selected styles. */
  lemma CandidatePromptQuotesStyles(info: CharacterInfo, styles: seq<Style>, aspects: seq<string>, knowledge: string, k: nat)
    requires |styles| >= 2 && k < |styles| && k < MaxStyles
    ensures Occurs(styles[k].description, CandidatePrompt(info, styles, aspects, knowledge).value)
  {
    var h := CandidateHead(info, |styles|, aspects, knowledge);
    var d0, d1 := styles[0].description, styles[1].description;
    var e := CandidateEnding(styles);
    assert CandidatePrompt(info, styles, aspects, knowledge).value == h + d0 + CandidateSecond + d1 + e;
    if k == 0 {
      QuotedIn(d0, h, CandidateSecond + d1 + e);
      assert h + d0 + (CandidateSecond + d1 + e) == h + d0 + CandidateSecond + d1 + e;
    } else if k == 1 {
      QuotedIn(d1, h + d0 + CandidateSecond, e);
    } else {
      EndingQuotesThird(styles);
      OccursInSuffix(styles[2].description, h + d0 + CandidateSecond + d1, e);
    }
  }

  /** The text the generator returns for the candidates, or `None` when the
      prompt cannot be built or generation fails (both caught). */
  function CandidateText(kb: seq<KnowledgeFragment>, backend: Gemini.Backend, readJson: JsonReader,
                         info: CharacterInfo, styles: seq<Style>): (r: Option<string>)
    ensures |styles| < 2 ==> r.None?
  {
    var aspects := AnalyzeAspects(backend, readJson, info);
    var knowledge := RetrieveKnowledge(kb, backend, info, aspects);
    match CandidatePrompt(info, styles, aspects, knowledge)
    case None => None
    case Some(prompt) =>
      match Gemini.GenerateText(backend, prompt, 8, 3000)
      case Err(_) => None
      case Ok(text) => Some(text)
  }

  /** The requests `generateCandidates` makes, in order: the analysis, the
      knowledge queries, then the generation itself. */
  method AskCandidates(kb: seq<KnowledgeFragment>, backend: Gemini.Backend, readJson: JsonReader,
                       info: CharacterInfo, styles: seq<Style>) returns (reply: Option<string>)
    ensures reply == CandidateText(kb, backend, readJson, info, styles)
    ensures |styles| < 2 ==> reply.None?
  {
    var aspects := AnalyzeAspects(backend, readJson, info);
    var knowledge := RetrieveKnowledge(kb, backend, info, aspects);
    var prompt := CandidatePrompt(info, styles, aspects, knowledge);
    if prompt.None? {
      return None;
    }
    var text := Gemini.GenerateText(backend, prompt.value, 8, 3000);
    reply := if text.Ok? then Some(text.value) else None;
  }

  /** With two styles or more, the candidate text is the generator's answer
      at 0.8 and 3000 tokens to a prompt that quotes the notes, the
      retrieved knowledge and the first three selected styles; a failed
      request gives no text. */
  lemma CandidateTextAsks(kb: seq<KnowledgeFragment>, backend: Gemini.Backend, readJson: JsonReader,
                          info: CharacterInfo, styles: seq<Style>)
    requires |styles| >= 2
    ensures var aspects := AnalyzeAspects(backend, readJson, info);
            var knowledge := RetrieveKnowledge(kb, backend, info, aspects);
            var prompt := CandidatePrompt(info, styles, aspects, knowledge).value;
            var r := CandidateText(kb, backend, readJson, info, styles);
            (r.Some? <==> Gemini.GenerateText(backend, prompt, 8, 3000).Ok?)
            && (r.Some? ==> r.value == Gemini.GenerateText(backend, prompt, 8, 3000).value)
            && Occurs(info.basicInfo, prompt) && Occurs(knowledge, prompt)
            && forall k :: 0 <= k < |styles| && k < MaxStyles ==> Occurs(styles[k].description, prompt)
  {
    var aspects := AnalyzeAspects(backend, readJson, info);
    var knowledge := RetrieveKnowledge(kb, backend, info, aspects);
    CandidatePromptQuotes(info, styles, aspects, knowledge);
    forall k | 0 <= k < |styles| && k < MaxStyles
      ensures Occurs(styles[k].description, CandidatePrompt(info, styles, aspects, knowledge).value)
    {
      CandidatePromptQuotesStyles(info, styles, aspects, knowledge, k);
    }
  }

  // Merging the picked passages.

  /** The candidate number shown for a selection key. */
  function SelectionLabel(key: string): string {
    ReplaceFirst(key, "candidate", "")
  }

  const EntryFrom := "从候选项"
  const EntryChosen := "中选择的内容:\n"

  function SelectionEntry(entry: (string, string)): string {
    EntryFrom + SelectionLabel(entry.0) + EntryChosen + entry.1
  }

  function SelectionEntries(selection: Entries<string>): (r: seq<string>)
    ensures |r| == |selection|
    ensures forall i :: 0 <= i < |r| ==> r[i] == SelectionEntry(selection[i])
  {
    seq(|selection|, i requires 0 <= i < |selection| => SelectionEntry(selection[i]))
  }

  const MergeIntro := "\n用户选择了以下几个候选角色设定中的部分内容，请将它们融合为一个连贯一致的完整角色设定：\n\n原始基础信息：\n"
  const MergeRequest := "\n\n请生成一个连贯、一致、自然的角色设定，无缝融合上述内容，并确保角色特点和动机具有内在逻辑性。\n"

  /** The prompt of `mergeSelectedContent`; it quotes the notes. */
  function MergePrompt(basicInfo: string, selection: Entries<string>): (r: string)
    ensures Occurs(basicInfo, r)
  {
    var joined := Join(SelectionEntries(selection), "\n\n");
    OccursAtEnd(basicInfo, MergeIntro);
    OccursInPrefix(basicInfo, MergeIntro + basicInfo, "\n\n");
    OccursInPrefix(basicInfo, MergeIntro + basicInfo + "\n\n", joined);
    OccursInPrefix(basicInfo, MergeIntro + basicInfo + "\n\n" + joined, MergeRequest);
    MergeIntro + basicInfo + "\n\n" + joined + MergeRequest
  }

  /** A key `candidateN` is shown as `N`. */
  lemma SelectionLabelNumber(n: string)
    ensures SelectionLabel("candidate" + n) == n
  {
    assert ("candidate" + n)[..|"candidate"|] == "candidate";
    assert ("candidate" + n)[|"candidate"|..] == n;
  }

  /** The merge prompt quotes every picked passage under the label of its
      candidate. */
  lemma MergePromptQuotes(basicInfo: string, selection: Entries<string>, k: nat)
    requires k < |selection|
    ensures Occurs(SelectionEntry(selection[k]), MergePrompt(basicInfo, selection))
    ensures Occurs(selection[k].1, MergePrompt(basicInfo, selection))
  {
    var joined := Join(SelectionEntries(selection), "\n\n");
    JoinContainsPiece(SelectionEntries(selection), "\n\n", k);
    var entry := SelectionEntry(selection[k]);
    OccursInConcat(entry, MergeIntro + basicInfo + "\n\n", joined, MergeRequest);
    OccursAtEnd(selection[k].1, EntryFrom + SelectionLabel(selection[k].0) + EntryChosen);
    OccursTrans(selection[k].1, entry, MergePrompt(basicInfo, selection));
  }

  /** `finalResult.substring(0, 100) + '...'`. */
  function Summary(result: string): (r: string)
    ensures |r| == (if |result| < 100 then |result| else 100) + 3
    ensures r[..|r| - 3] == result[..|r| - 3] && r[|r| - 3..] == "..."
  {
    (if |result| < 100 then result else result[..100]) + "..."
  }

  /** The wizard's state, writing into the script store. */
  class Wizard {
    const store: ScriptContext.ScriptStore
    const rag: Rag.RagService
    var info: CharacterInfo
    var candidates: seq<Candidate>
    var selection: Entries<string>
    var finalResult: string
    var step: Step
    var selectedStyles: seq<Style>

    /** At most three styles are selected. */
    predicate Valid()
      reads this
    {
      |selectedStyles| <= MaxStyles
    }

    constructor(store: ScriptContext.ScriptStore, rag: Rag.RagService)
      ensures this.store == store && this.rag == rag
      ensures info == CharacterInfo("", "") && candidates == [] && selection == []
      ensures finalResult == "" && step == InputStep
      ensures selectedStyles == [Styles[0], Styles[1]]
      ensures Valid()
    {
      this.store := store;
      this.rag := rag;
      info := CharacterInfo("", "");
      candidates := [];
      selection := [];
      finalResult := "";
      step := InputStep;
      selectedStyles := [Styles[0], Styles[1]];
    }

    /** A click on a style button. */
    method ClickStyle(style: Style)
      requires Valid()
      modifies this
      ensures Valid()
      ensures selectedStyles == ToggleStyle(old(selectedStyles), style)
      ensures info == old(info) && candidates == old(candidates) && selection == old(selection)
      ensures finalResult == old(finalResult) && step == old(step)
    {
      ToggleStyleSelects(selectedStyles, style, style.id);
      selectedStyles := ToggleStyle(selectedStyles, style);
    }

    /** `generateCandidates`: refused without a name or notes; otherwise
      the analysis, the knowledge queries against the service's knowledge
      base and the generation request give `CandidateText`.  On success the
      parsed candidates replace the old ones and the selection page opens;
      with fewer than two styles, or when generation fails, nothing
      changes.  The earlier selection is kept. */
    method GenerateCandidates(backend: Gemini.Backend, readJson: JsonReader)
      modifies this
      ensures info == old(info) && selection == old(selection) && finalResult == old(finalResult)
      ensures selectedStyles == old(selectedStyles)
      ensures var reply := CandidateText(old(rag.knowledgeBase), backend, readJson, old(info), old(selectedStyles));
              if old(info).name == "" || old(info).basicInfo == "" || reply.None? then
                candidates == old(candidates) && step == old(step)
              else
                candidates == CandidatesOf(Matches(reply.value, 0)) && step == SelectStep
      ensures |old(selectedStyles)| < 2 ==> candidates == old(candidates) && step == old(step)
    {
      if info.name == "" || info.basicInfo == "" {
        return;
      }
      var reply := AskCandidates(rag.knowledgeBase, backend, readJson, info, selectedStyles);
      if reply.Some? {
        ShowCandidates(reply.value);
      }
    }

    /** The end of `generateCandidates`: the candidates parsed from the
        generated text replace the old ones and the selection page opens. */
    method ShowCandidates(text: string)
      modifies this
      ensures candidates == CandidatesOf(Matches(text, 0)) && step == SelectStep
      ensures info == old(info) && selection == old(selection) && finalResult == old(finalResult)
      ensures selectedStyles == old(selectedStyles)
    {
      var parsed := ParseCandidates(text);
      candidates := parsed;
      step := SelectStep;
    }

    /** `handleContentSelect`: picking stores the passage under the
      candidate's id, dropping deletes only that id. */
    method SelectContent(candidateId: string, content: string, selected: bool)
      modifies this
      ensures selection == if selected then Put(old(selection), candidateId, content) else Remove(old(selection), candidateId)
      ensures info == old(info) && candidates == old(candidates) && finalResult == old(finalResult)
      ensures step == old(step) && selectedStyles == old(selectedStyles)
    {
      if selected {
        selection := Put(selection, candidateId, content);
      } else {
        selection := Remove(selection, candidateId);
      }
    }

    /** `mergeSelectedContent`: refused for an empty selection; on success
      the merged text is the result and the result page opens. */
    method Merge(backend: Gemini.Backend)
      modifies this
      ensures info == old(info) && candidates == old(candidates) && selection == old(selection)
      ensures selectedStyles == old(selectedStyles)
      ensures var reply := Gemini.GenerateText(backend, MergePrompt(info.basicInfo, selection), 7, 2000);
              if selection == [] || reply.Err? then
                finalResult == old(finalResult) && step == old(step)
              else
                finalResult == reply.value && step == ResultStep
    {
      if selection == [] {
        return;
      }
      var reply := Gemini.GenerateText(backend, MergePrompt(info.basicInfo, selection), 7, 2000);
      if reply.Ok? {
        finalResult := reply.value;
        step := ResultStep;
      }
    }

    /** `addToScript`: nothing without a result; otherwise the current
      script gains the character, with the first hundred code units of the
      result as its description and the whole result as its background,
      and the wizard starts over (the styles stay selected). */
    method AddToScript(freshId: string, now: int)
      modifies this, store
      ensures old(finalResult) == "" ==>
                store.scripts == old(store.scripts) && info == old(info) && candidates == old(candidates)
                && selection == old(selection) && finalResult == old(finalResult) && step == old(step)
      ensures old(finalResult) != "" ==>
                info == CharacterInfo("", "") && candidates == [] && selection == []
                && finalResult == "" && step == InputStep
      ensures old(finalResult) != "" && old(store.Current()).Some? ==>
                var cur := old(store.Current()).value;
                var added := Character(freshId, old(info).name, Summary(old(finalResult)), old(finalResult), RelArray([]));
                store.scripts == ScriptContext.ReplaceScript(old(store.scripts), cur.(characters := cur.characters + [added]), now)
      ensures old(store.Current()).None? ==> store.scripts == old(store.scripts)
      ensures store.currentId == old(store.currentId) && selectedStyles == old(selectedStyles)
    {
      if finalResult == "" {
        return;
      }
      store.AddCharacter(info.name, Summary(finalResult), finalResult, freshId, now);
      info := CharacterInfo("", "");
      candidates := [];
      selection := [];
      finalResult := "";
      step := InputStep;
    }
  }

  /** Picking then dropping a passage leaves no entry for that candidate and
      the other entries as they were. */
  lemma SelectThenRead(selection: Entries<string>, candidateId: string, content: string, other: string)
    ensures Get(Put(selection, candidateId, content), other)
            == if other == candidateId then Some(content) else Get(selection, other)
    ensures Get(Remove(selection, candidateId), other)
            == if other == candidateId then None else Get(selection, other)
  {
    PutGet(selection, candidateId, content, other);
    RemoveGet(selection, candidateId, other);
  }
}
