/** The knowledge library page of src/components/KnowledgeManager.tsx: the
    upload form with its guard and tag parsing, and the filter over the
    fragments of the Copilot context.  The upload target only logs the
    fragment, so an upload never reaches the fragment list; the form hands
    back what it would log. */
module KnowledgeManager {
  import opened Wrappers
  import opened Strings
  import opened Seqs
  import opened Types
  import opened CopilotContext

  /** `tags.split(',').map(tag => tag.trim()).filter(Boolean)`. */
  function ParseTags(tags: string): (r: seq<string>)
    ensures |r| <= |Split(tags, ',')|
    ensures forall i :: 0 <= i < |r| ==> r[i] != ""
  {
    Filter(TrimAll(Split(tags, ',')), NonEmpty)
  }

  /** Parsed tags are non-empty, trimmed and free of commas. */
  lemma ParsedTagsShape(tags: string)
    ensures forall i :: 0 <= i < |ParseTags(tags)| ==>
              var t := ParseTags(tags)[i]; t != "" && Trim(t) == t && ',' !in t
  {
    var pieces := Split(tags, ',');
    var trimmed := TrimAll(pieces);
    var r := Filter(trimmed, NonEmpty);
    FilterMembers(trimmed, NonEmpty);
    forall i | 0 <= i < |r| ensures r[i] != "" && Trim(r[i]) == r[i] && ',' !in r[i] {
      assert r[i] in trimmed;
      var j :| 0 <= j < |trimmed| && trimmed[j] == r[i];
      TrimTwice(pieces[j]);
      TrimChars(pieces[j]);
      SplitChars(tags, ',', j);
    }
  }

  predicate NonEmpty(s: string) {
    s != ""
  }

  function TrimAll(pieces: seq<string>): (r: seq<string>)
    ensures |r| == |pieces|
    ensures forall i :: 0 <= i < |pieces| ==> r[i] == Trim(pieces[i])
  {
    seq(|pieces|, i requires 0 <= i < |pieces| => Trim(pieces[i]))
  }

  /** Tags written out with commas are read back as they were, when each is
      non-empty, trimmed and free of commas. */
  lemma ParseJoinedTags(tags: seq<string>)
    requires forall i :: 0 <= i < |tags| ==> tags[i] != "" && Trim(tags[i]) == tags[i] && ',' !in tags[i]
    ensures ParseTags(Join(tags, ",")) == tags
  {
    if tags == [] {
      NoTagsParsed();
    } else {
      JoinSplit(tags, ',');
      assert Join(tags, ",") == Join(tags, [',']);
      TrimAllTrimmed(tags);
      FilterAll(tags, NonEmpty);
    }
  }

  lemma NoTagsParsed()
    ensures ParseTags(Join([], ",")) == []
  {
    assert IndexOfChar("", ',') == 0;
    assert Split("", ',') == [""];
    var t := TrimAll([""]);
    assert t[0] == Trim("");
    TrimEmptyIff("");
    assert t == [""];
    FilterNone([""], NonEmpty);
  }

  lemma TrimAllTrimmed(tags: seq<string>)
    requires forall i :: 0 <= i < |tags| ==> Trim(tags[i]) == tags[i]
    ensures TrimAll(tags) == tags
  {
  }

  /** Upload is allowed when title and content both have a non-whitespace
      character. */
  predicate MayUpload(title: string, content: string) {
    Trim(title) != "" && Trim(content) != ""
  }

  lemma MayUploadIff(title: string, content: string)
    ensures MayUpload(title, content) <==>
              (exists k :: 0 <= k < |title| && !IsSpace(title[k])) && (exists k :: 0 <= k < |content| && !IsSpace(content[k]))
  {
    TrimEmptyIff(title);
    TrimEmptyIff(content);
  }

  /** `filteredFragments`: every fragment for a blank filter, otherwise the
      fragments that match the lowercased filter. */
  function FilteredFragments(fragments: seq<KnowledgeFragment>, filter: string): (r: seq<KnowledgeFragment>)
    ensures Trim(filter) == "" ==> r == fragments
    ensures Trim(filter) != "" ==> r == Search(fragments, filter)
  {
    if Trim(filter) != "" then Filter(fragments, f => Matches(f, Lower(filter))) else fragments
  }

  /** The page's filter and the Copilot search differ only on a blank text:
      the page shows everything, the search nothing. */
  lemma FilterAgreesWithSearch(fragments: seq<KnowledgeFragment>, filter: string)
    ensures Trim(filter) != "" ==> forall f :: f in FilteredFragments(fragments, filter) <==> f in fragments && Matches(f, Lower(filter))
    ensures Trim(filter) == "" ==> FilteredFragments(fragments, filter) == fragments && Search(fragments, filter) == []
  {
  }

  /** What `uploadKnowledgeFragment` receives. */
  datatype Upload = Upload(title: string, content: string, source: string, tags: seq<string>)

  /** The upload form's fields. */
  class UploadForm {
    var title: string
    var content: string
    var source: string
    var tags: string
    var showModal: bool

    constructor()
      ensures title == "" && content == "" && source == "" && tags == "" && !showModal
    {
      title, content, source, tags := "", "", "", "";
      showModal := false;
    }

    /** `handleUpload`: with a blank title or content nothing happens;
        otherwise the fragment is handed on with its parsed tags, every
        field is cleared and the modal closes. */
    method HandleUpload() returns (sent: Option<Upload>)
      modifies this
      ensures !MayUpload(old(title), old(content)) ==>
                sent == None && title == old(title) && content == old(content) && source == old(source)
                && tags == old(tags) && showModal == old(showModal)
      ensures MayUpload(old(title), old(content)) ==>
                sent == Some(Upload(old(title), old(content), old(source), ParseTags(old(tags))))
                && title == "" && content == "" && source == "" && tags == "" && !showModal
    {
      if !MayUpload(title, content) {
        return None;
      }
      sent := Some(Upload(title, content, source, ParseTags(tags)));
      title, content, source, tags := "", "", "", "";
      showModal := false;
    }
  }
}
