/** The Copilot context of src/context/CopilotContext.tsx: the message log
    the panel appends to and clears, and the search over the knowledge
    fragments, which are fixed when the context is created (the state has
    no setter).  Message ids and timestamps come from the caller. */
module CopilotContext {
  import opened Wrappers
  import opened Strings
  import opened Seqs
  import opened Types

  /** Some tag, lowercased, contains `q`. */
  predicate TagMatches(tags: seq<string>, q: string) {
    exists i :: 0 <= i < |tags| && Contains(Lower(tags[i]), q)
  }

  /** The lowercased title, content or a tag contains `q`. */
  predicate Matches(f: KnowledgeFragment, q: string) {
    Contains(Lower(f.title), q) || Contains(Lower(f.content), q) || TagMatches(f.tags, q)
  }

  /** `searchKnowledgeFragments`: nothing for a blank query; otherwise the
      fragments that match the lowercased query, which is not trimmed. */
  function Search(fragments: seq<KnowledgeFragment>, query: string): (r: seq<KnowledgeFragment>)
    ensures Trim(query) == "" ==> r == []
    ensures Trim(query) != "" ==> forall f :: f in r <==> f in fragments && Matches(f, Lower(query))
  {
    if Trim(query) == "" then []
    else
      FilterMembers(fragments, f => Matches(f, Lower(query)));
      Filter(fragments, f => Matches(f, Lower(query)))
  }

  /** The search keeps the fragments' order: searching a concatenation is
      concatenating the searches. */
  lemma SearchAppend(a: seq<KnowledgeFragment>, b: seq<KnowledgeFragment>, query: string)
    ensures Search(a + b, query) == Search(a, query) + Search(b, query)
  {
    if Trim(query) != "" {
      FilterAppend(a, b, f => Matches(f, Lower(query)));
    }
  }

  /** A fragment titled "场景" and nothing else. */
  function Sample(): KnowledgeFragment {
    KnowledgeFragment("k1", "场景", "", [], "", None)
  }

  /** Surrounding spaces take part in the match: " 场景" does not find the
      fragment titled "场景", while "场景" does. */
  lemma QueryIsNotTrimmed()
    ensures Search([Sample()], "场景") == [Sample()] && Search([Sample()], " 场景") == []
  {
    PlainQueryFinds();
    SpacedQueryMisses();
  }

  lemma PlainQueryFinds()
    ensures Search([Sample()], "场景") == [Sample()]
  {
    var plain := "场景";
    assert Lower(plain) == plain by {
      assert Lower(plain)[0] == plain[0] && Lower(plain)[1] == plain[1];
    }
    assert Matches(Sample(), Lower(plain)) by {
      OccursAtStart(plain, []);
      assert plain + [] == plain;
    }
    TrimEmptyIff(plain);
    assert !IsSpace(plain[0]);
    FilterAll([Sample()], g => Matches(g, Lower(plain)));
  }

  lemma SpacedQueryMisses()
    ensures Search([Sample()], " 场景") == []
  {
    var spaced := " 场景";
    assert Lower(spaced) == spaced by {
      assert Lower(spaced)[0] == spaced[0] && Lower(spaced)[1] == spaced[1] && Lower(spaced)[2] == spaced[2];
    }
    LongerNeverOccurs(spaced, Lower(Sample().title));
    LongerNeverOccurs(spaced, Lower(Sample().content));
    TrimEmptyIff(spaced);
    assert !IsSpace(spaced[1]);
    FilterNone([Sample()], g => Matches(g, Lower(spaced)));
  }

  /** The provider's state. */
  class CopilotLog {
    var messages: seq<CopilotMessage>
    const fragments: seq<KnowledgeFragment>

    constructor(fragments: seq<KnowledgeFragment>)
      ensures messages == [] && this.fragments == fragments
    {
      messages := [];
      this.fragments := fragments;
    }

    /** `sendMessage`: appends one message; the others stay as they were. */
    method SendMessage(content: string, fragmentIds: seq<string>, role: Role, freshId: string, now: int)
      modifies this
      ensures messages == old(messages) + [CopilotMessage(freshId, content, role, now, fragmentIds)]
    {
      messages := messages + [CopilotMessage(freshId, content, role, now, fragmentIds)];
    }

    /** `sendMessage(content)` with the defaults: role `user`, no fragments. */
    method SendText(content: string, freshId: string, now: int)
      modifies this
      ensures messages == old(messages) + [CopilotMessage(freshId, content, User, now, [])]
    {
      SendMessage(content, [], User, freshId, now);
    }

    method ClearMessages()
      modifies this
      ensures messages == []
    {
      messages := [];
    }
  }
}
