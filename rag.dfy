/** The retrieval-augmented question answering of src/services/RagService.ts:
    keyword extraction, keyword-count scoring, ranking by a stable sort, the
    top-K cut, and the `answerQuery` orchestration with its catch-all
    fallback.  The service object holds the mutable knowledge base. */
module Rag {
  import opened Wrappers
  import opened Strings
  import opened Seqs
  import opened StableSort
  import opened Types
  import opened Gemini

  const DefaultTopK := 3
  const TopicTopK := 5
  const AnswerFallback := "抱歉，我无法处理您的问题，请稍后再试。"

  /** The characters `.replace(/[^\w\s一-龥]/g, '')` keeps. */
  predicate KeptInQuery(c: char) {
    IsWordChar(c) || IsSpace(c) || ('\U{4E00}' <= c <= '\U{9FA5}')
  }

  predicate IsKeyword(w: string) {
    |w| > 1
  }

  /** The query's keywords: lowercased, stripped of every other character,
      split on whitespace runs, tokens of one character or none dropped. */
  function Keywords(query: string): (r: seq<string>)
    ensures forall i :: 0 <= i < |r| ==> |r[i]| > 1
    ensures forall i, k :: 0 <= i < |r| && 0 <= k < |r[i]| ==>
              KeptInQuery(r[i][k]) && !IsSpace(r[i][k]) && !('A' <= r[i][k] <= 'Z')
  {
    var r := Filter(SplitWs(Filter(Lower(query), KeptInQuery)), IsKeyword);
    FilterMembers(SplitWs(Filter(Lower(query), KeptInQuery)), IsKeyword);
    KeywordChars(query, r);
    r
  }

  /** Every character of a keyword survived the cleaning and is neither
      whitespace nor upper case. */
  lemma KeywordChars(query: string, r: seq<string>)
    requires r == Filter(SplitWs(Filter(Lower(query), KeptInQuery)), IsKeyword)
    ensures forall i, k :: 0 <= i < |r| && 0 <= k < |r[i]| ==>
              KeptInQuery(r[i][k]) && !IsSpace(r[i][k]) && !('A' <= r[i][k] <= 'Z')
  {
    var stripped := Filter(Lower(query), KeptInQuery);
    StrippedChars(query, stripped);
    var pieces := SplitWs(stripped);
    FilterMembers(pieces, IsKeyword);
    forall i, k | 0 <= i < |r| && 0 <= k < |r[i]|
      ensures KeptInQuery(r[i][k]) && !IsSpace(r[i][k]) && !('A' <= r[i][k] <= 'Z')
    {
      assert r[i] in pieces;
      var j :| 0 <= j < |pieces| && pieces[j] == r[i];
      assert pieces[j][k] in stripped;
    }
  }

  /** The cleaned query keeps only kept characters, none upper case. */
  lemma StrippedChars(query: string, stripped: string)
    requires stripped == Filter(Lower(query), KeptInQuery)
    ensures forall c :: c in stripped ==> KeptInQuery(c) && !('A' <= c <= 'Z')
  {
    FilterMembers(Lower(query), KeptInQuery);
    forall c | c in stripped ensures KeptInQuery(c) && !('A' <= c <= 'Z') {
      var lowered := Lower(query);
      assert c in lowered;
      var m :| 0 <= m < |lowered| && lowered[m] == c;
      LowerCharNotUpper(query[m]);
    }
  }

  /** A query made only of characters the cleaning removes has no keyword. */
  lemma StrippedQueryHasNoKeywords(query: string)
    requires forall k :: 0 <= k < |query| ==> !KeptInQuery(LowerChar(query[k]))
    ensures Keywords(query) == []
  {
    FilterNone(Lower(query), KeptInQuery);
    assert SplitWs([]) == [[]];
    assert Filter([[]], IsKeyword) == [];
  }

  /** A query whose whitespace-separated tokens are all single characters
      has no keyword. */
  lemma ShortTokensGiveNoKeywords(query: string)
    requires forall i :: 0 <= i < |SplitWs(Filter(Lower(query), KeptInQuery))| ==>
               |SplitWs(Filter(Lower(query), KeptInQuery))[i]| <= 1
    ensures Keywords(query) == []
  {
    FilterNone(SplitWs(Filter(Lower(query), KeptInQuery)), IsKeyword);
  }

  /** The text a fragment is matched against. */
  function Haystack(doc: KnowledgeFragment): string {
    Lower(doc.title + " " + doc.content)
  }

  /** The number of entries of `keywords` (a repeated keyword counts each
      time) that occur in `hay`. */
  function Score(keywords: seq<string>, hay: string): (r: nat)
    ensures r <= |keywords|
    ensures r == 0 <==> forall i :: 0 <= i < |keywords| ==> !Occurs(keywords[i], hay)
    ensures r == |keywords| <==> forall i :: 0 <= i < |keywords| ==> Occurs(keywords[i], hay)
  {
    if keywords == [] then 0
    else (if Contains(hay, keywords[0]) then 1 else 0) + Score(keywords[1..], hay)
  }

  lemma {:induction false} ScoreAppend(a: seq<string>, b: seq<string>, hay: string)
    ensures Score(a + b, hay) == Score(a, hay) + Score(b, hay)
  {
    if a == [] {
      assert a + b == b;
    } else {
      assert (a + b)[1..] == a[1..] + b;
      ScoreAppend(a[1..], b, hay);
    }
  }

  /** Repeating a keyword in the query counts its match again. */
  lemma RepeatedKeywordCountsTwice(keywords: seq<string>, w: string, hay: string)
    ensures Score(keywords + [w, w], hay) == Score(keywords, hay) + (if Occurs(w, hay) then 2 else 0)
  {
    ScoreAppend(keywords, [w, w], hay);
    assert [w, w][1..] == [w];
  }

  /** Tags and source take no part in matching. */
  lemma ScoreIgnoresTagsAndSource(keywords: seq<string>, doc: KnowledgeFragment, tags: seq<string>, source: string)
    ensures Score(keywords, Haystack(doc.(tags := tags, source := source))) == Score(keywords, Haystack(doc))
  {
  }

  datatype Scored = Scored(doc: KnowledgeFragment, score: int)

  function NegScore(e: Scored): int { -e.score }

  predicate Positive(e: Scored) { e.score > 0 }

  predicate NotPositive(e: Scored) { e.score <= 0 }

  function ScoreAll(kb: seq<KnowledgeFragment>, keywords: seq<string>): (r: seq<Scored>)
    ensures |r| == |kb|
    ensures forall i :: 0 <= i < |kb| ==> r[i] == Scored(kb[i], Score(keywords, Haystack(kb[i])))
  {
    seq(|kb|, i requires 0 <= i < |kb| => Scored(kb[i], Score(keywords, Haystack(kb[i]))))
  }

  function Docs(entries: seq<Scored>): (r: seq<KnowledgeFragment>)
    ensures |r| == |entries|
    ensures forall i :: 0 <= i < |entries| ==> r[i] == entries[i].doc
  {
    seq(|entries|, i requires 0 <= i < |entries| => entries[i].doc)
  }

  /** `retrieveRelevantDocuments(query, topK)` over the knowledge base `kb`:
      score, sort by descending score, cut to `topK`, drop zero scores. */
  function Retrieve(kb: seq<KnowledgeFragment>, query: string, topK: int): (r: seq<KnowledgeFragment>)
    ensures topK >= 0 ==> |r| <= topK
    ensures |r| <= |kb|
  {
    var scored := ScoreAll(kb, Keywords(query));
    Docs(Filter(SliceTo(Sort(scored, NegScore), topK), Positive))
  }

  /** The ranking the retrieval cuts from: the fragments with a positive
      score, by descending score, ties in knowledge-base order. */
  function Ranking(kb: seq<KnowledgeFragment>, keywords: seq<string>): seq<Scored> {
    Sort(Filter(ScoreAll(kb, keywords), Positive), NegScore)
  }

  ghost predicate Consistent(keywords: seq<string>, entries: seq<Scored>) {
    forall i :: 0 <= i < |entries| ==> entries[i].score == Score(keywords, Haystack(entries[i].doc))
  }

  lemma RankingConsistent(kb: seq<KnowledgeFragment>, keywords: seq<string>)
    ensures Consistent(keywords, Ranking(kb, keywords))
    ensures forall i :: 0 <= i < |Ranking(kb, keywords)| ==> Ranking(kb, keywords)[i].score >= 1
  {
    var s := ScoreAll(kb, keywords);
    var f := Filter(s, Positive);
    var r := Ranking(kb, keywords);
    FilterMembers(s, Positive);
    forall i | 0 <= i < |r| ensures r[i].score == Score(keywords, Haystack(r[i].doc)) && r[i].score >= 1 {
      var x := r[i];
      assert x in multiset(r);
      assert x in multiset(f);
      assert x in f;
      var j :| 0 <= j < |s| && s[j] == x;
    }
  }

  /** Cutting before dropping zero scores gives the same result as dropping
      them first: the zero scores all sort after the positive ones.  So the
      retrieval returns the first `min(topK, positives)` fragments of the
      ranking. */
  lemma RetrieveIsTopOfRanking(kb: seq<KnowledgeFragment>, query: string, topK: int)
    requires topK >= 0
    ensures Retrieve(kb, query, topK) == Docs(SliceTo(Ranking(kb, Keywords(query)), topK))
  {
    var s := ScoreAll(kb, Keywords(query));
    var sp := Sort(Filter(s, Positive), NegScore);
    var sq := Sort(Filter(s, NotPositive), NegScore);
    SortSplit(s, NegScore, Positive, NotPositive, 0);
    SortFilterHolds(s, NegScore, Positive);
    SortFilterHolds(s, NegScore, NotPositive);
    FilterSlicePrefix(sp, sq, Positive, topK);
  }

  /** At most `topK` fragments, every one with a positive score, in
      non-increasing score order. */
  lemma RetrievedAreRelevantAndOrdered(kb: seq<KnowledgeFragment>, query: string, topK: int)
    requires topK >= 0
    ensures |Retrieve(kb, query, topK)| <= topK
    ensures forall i :: 0 <= i < |Retrieve(kb, query, topK)| ==>
              Score(Keywords(query), Haystack(Retrieve(kb, query, topK)[i])) >= 1
    ensures forall i, j :: 0 <= i < j < |Retrieve(kb, query, topK)| ==>
              Score(Keywords(query), Haystack(Retrieve(kb, query, topK)[i]))
              >= Score(Keywords(query), Haystack(Retrieve(kb, query, topK)[j]))
  {
    var kws := Keywords(query);
    var rk := Ranking(kb, kws);
    RetrieveIsTopOfRanking(kb, query, topK);
    RankingConsistent(kb, kws);
    forall i, j | 0 <= i < j < |rk| ensures rk[i].score >= rk[j].score {
      assert NegScore(rk[i]) <= NegScore(rk[j]);
    }
    TopOfRanking(kws, rk, topK);
  }

  /** The first `topK` of a consistent ranking of positive, non-increasing
      scores keep those properties. */
  lemma TopOfRanking(keywords: seq<string>, rk: seq<Scored>, topK: int)
    requires topK >= 0 && Consistent(keywords, rk)
    requires forall i :: 0 <= i < |rk| ==> rk[i].score >= 1
    requires forall i, j :: 0 <= i < j < |rk| ==> rk[i].score >= rk[j].score
    ensures var d := Docs(SliceTo(rk, topK));
            |d| <= topK
            && (forall i :: 0 <= i < |d| ==> Score(keywords, Haystack(d[i])) >= 1)
            && (forall i, j :: 0 <= i < j < |d| ==> Score(keywords, Haystack(d[i])) >= Score(keywords, Haystack(d[j])))
  {
    var cut := SliceTo(rk, topK);
    assert forall i :: 0 <= i < |cut| ==> cut[i] == rk[i];
  }

  /** Fragments with equal scores come out in knowledge-base order. */
  lemma RankingKeepsTies(kb: seq<KnowledgeFragment>, keywords: seq<string>, score: int)
    requires score >= 1
    ensures WithKey(Ranking(kb, keywords), NegScore, -score) == WithKey(ScoreAll(kb, keywords), NegScore, -score)
  {
    var s := ScoreAll(kb, keywords);
    SortStable(Filter(s, Positive), NegScore, -score);
    WithKeyFilter(s, NegScore, -score, Positive);
    var w := WithKey(s, NegScore, -score);
    assert forall i :: 0 <= i < |w| ==> Positive(w[i]);
    FilterAll(w, Positive);
  }

  /** With no keyword every score is zero, and nothing is retrieved. */
  lemma NoKeywordsRetrievesNothing(kb: seq<KnowledgeFragment>, query: string, topK: int)
    requires Keywords(query) == []
    ensures Retrieve(kb, query, topK) == []
  {
    var s := ScoreAll(kb, []);
    var cut := SliceTo(Sort(s, NegScore), topK);
    CutFromScores(s, topK);
    forall i | 0 <= i < |cut| ensures !Positive(cut[i]) {
      assert cut[i] in s;
      var j :| 0 <= j < |s| && s[j] == cut[i];
    }
    FilterNone(cut, Positive);
  }

  /** What the cut keeps comes from the scored list. */
  lemma CutFromScores(s: seq<Scored>, topK: int)
    ensures forall x :: x in SliceTo(Sort(s, NegScore), topK) ==> x in s
  {
    var sorted := Sort(s, NegScore);
    var cut := SliceTo(sorted, topK);
    forall x | x in cut ensures x in s {
      var i :| 0 <= i < |cut| && cut[i] == x;
      assert cut[i] == sorted[i];
      assert sorted[i] in multiset(sorted);
    }
  }

  /** The ungrounded prompt used when nothing is retrieved. */
  function UngroundedPrompt(query: string): string {
    "请回答以下问题，如果不确定，请明确表示：\"" + query + "\""
  }

  /** One grounding block. */
  function FormatDoc(doc: KnowledgeFragment): string {
    "标题: " + doc.title + "\n内容: " + doc.content
  }

  function FormatDocs(docs: seq<KnowledgeFragment>): (r: seq<string>)
    ensures |r| == |docs|
    ensures forall i :: 0 <= i < |docs| ==> r[i] == FormatDoc(docs[i])
  {
    seq(|docs|, i requires 0 <= i < |docs| => FormatDoc(docs[i]))
  }

  /** `answerQuery` with knowledge base `kb`: ungrounded generation when
      nothing is retrieved, grounded generation otherwise, and the fixed
      apology for any failure. */
  function AnswerQuery(kb: seq<KnowledgeFragment>, backend: Backend, query: string): (r: string)
    ensures var outcome := Complete(backend(AnswerRequest(kb, query)));
            r == if outcome.Ok? then outcome.value else AnswerFallback
  {
    var docs := Retrieve(kb, query, DefaultTopK);
    var outcome :=
      if docs == [] then GenerateTextWithDefaults(backend, UngroundedPrompt(query))
      else GenerateRagResponse(backend, query, FormatDocs(docs));
    match outcome
    case Ok(text) => text
    case Err(_) => AnswerFallback
  }

  /** The one request `answerQuery` sends: the ungrounded prompt at the
      default 0.7 and 1024 tokens when nothing is retrieved, the grounded
      prompt at 0.3 and 1500 tokens otherwise; the query is quoted either
      way. */
  function AnswerRequest(kb: seq<KnowledgeFragment>, query: string): (r: Request)
    ensures Occurs(query, r.prompt)
    ensures r.config.topPTenths == 9 && r.config.topK == 40
    ensures Retrieve(kb, query, DefaultTopK) == [] ==>
              r.config.temperatureTenths == 7 && r.config.maxOutputTokens == 1024
    ensures Retrieve(kb, query, DefaultTopK) != [] ==>
              r.config.temperatureTenths == 3 && r.config.maxOutputTokens == 1500
  {
    var docs := Retrieve(kb, query, DefaultTopK);
    if docs == [] then
      UngroundedQuotes(query);
      TextRequest(UngroundedPrompt(query), DefaultTemperatureTenths, DefaultMaxTokens)
    else
      RagPromptQuotes(query, FormatDocs(docs), 0);
      TextRequest(RagPrompt(query, FormatDocs(docs)), 3, 1500)
  }

  lemma UngroundedQuotes(query: string)
    ensures Occurs(query, UngroundedPrompt(query))
  {
    var p := UngroundedPrompt(query);
    var h := "请回答以下问题，如果不确定，请明确表示：\"";
    assert p[|h|..|h| + |query|] == query;
    assert OccursAt(query, p, |h|);
  }

  /** A grounded request quotes every retrieved fragment. */
  lemma GroundedRequestQuotesDocs(kb: seq<KnowledgeFragment>, backend: Backend, query: string)
    ensures Retrieve(kb, query, DefaultTopK) != [] ==>
              forall k :: 0 <= k < |Retrieve(kb, query, DefaultTopK)| ==>
                Occurs(FormatDoc(Retrieve(kb, query, DefaultTopK)[k]), AnswerRequest(kb, query).prompt)
  {
    var docs := Retrieve(kb, query, DefaultTopK);
    if docs != [] {
      forall k | 0 <= k < |docs| ensures Occurs(FormatDoc(docs[k]), RagPrompt(query, FormatDocs(docs))) {
        RagPromptQuotes(query, FormatDocs(docs), k);
      }
    }
  }

  /** The service singleton and its knowledge base. */
  class RagService {
    var knowledgeBase: seq<KnowledgeFragment>

    constructor()
      ensures knowledgeBase == []
    {
      knowledgeBase := [];
    }

    /** Replaces the whole knowledge base. */
    method SetKnowledgeBase(fragments: seq<KnowledgeFragment>)
      modifies this
      ensures knowledgeBase == fragments
    {
      knowledgeBase := fragments;
    }

    /** Appends one fragment; an id already present is not checked. */
    method AddKnowledgeFragment(fragment: KnowledgeFragment)
      modifies this
      ensures knowledgeBase == old(knowledgeBase) + [fragment]
    {
      knowledgeBase := knowledgeBase + [fragment];
    }

    function RetrieveRelevantDocuments(query: string, topK: int): (r: seq<KnowledgeFragment>)
      reads this
      ensures topK >= 0 ==> |r| <= topK
      ensures forall i :: 0 <= i < |r| ==> r[i] in knowledgeBase
    {
      var r := Retrieve(knowledgeBase, query, topK);
      RetrievedFromKnowledgeBase(knowledgeBase, query, topK);
      r
    }

    /** `getKnowledgeByTopic`: at most five fragments. */
    function GetKnowledgeByTopic(topic: string): (r: seq<KnowledgeFragment>)
      reads this
      ensures |r| <= TopicTopK
      ensures r == RetrieveRelevantDocuments(topic, TopicTopK)
    {
      RetrieveRelevantDocuments(topic, TopicTopK)
    }

    /** `answerQuery` over the service's current knowledge base. */
    function Answer(backend: Backend, query: string): (r: string)
      reads this
      ensures var outcome := Complete(backend(AnswerRequest(knowledgeBase, query)));
              r == if outcome.Ok? then outcome.value else AnswerFallback
    {
      AnswerQuery(knowledgeBase, backend, query)
    }
  }

  /** Every retrieved fragment is one of the knowledge base's. */
  lemma RetrievedFromKnowledgeBase(kb: seq<KnowledgeFragment>, query: string, topK: int)
    ensures forall i :: 0 <= i < |Retrieve(kb, query, topK)| ==> Retrieve(kb, query, topK)[i] in kb
  {
    var s := ScoreAll(kb, Keywords(query));
    var sorted := Sort(s, NegScore);
    var cut := SliceTo(sorted, topK);
    var f := Filter(cut, Positive);
    FilterMembers(cut, Positive);
    CutFromScores(s, topK);
    forall i | 0 <= i < |f| ensures f[i].doc in kb {
      assert f[i] in cut;
      var k :| 0 <= k < |cut| && cut[k] == f[i];
      assert cut[k] in s;
      var j :| 0 <= j < |s| && s[j] == f[i];
      assert kb[j] == f[i].doc;
    }
  }

  /** Scenario: after `setKnowledgeBase` and an `addKnowledgeFragment`, a
      retrieval reads the extended list and leaves it unchanged. */
  method SetThenAdd(service: RagService, fragments: seq<KnowledgeFragment>, extra: KnowledgeFragment, query: string)
    returns (found: seq<KnowledgeFragment>)
    modifies service
    ensures service.knowledgeBase == fragments + [extra]
    ensures found == Retrieve(fragments + [extra], query, DefaultTopK)
    ensures |found| <= DefaultTopK
  {
    service.SetKnowledgeBase(fragments);
    service.AddKnowledgeFragment(extra);
    found := service.RetrieveRelevantDocuments(query, DefaultTopK);
  }
}
