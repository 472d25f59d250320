/** The three text extractors of the character-completion wizard
    (src/components/CharacterCompletion.tsx): the `===候选N: title===` block
    parser over the generated candidates, the `missingAspects` list read
    from an analysis that is not valid JSON, and the profession read from
    the character's notes.  Each regular expression is modelled by the
    match its backtracking engine finds: a match function at one position
    and a leftmost search over positions. */
module CompletionParsers {
  import opened Wrappers
  import opened Strings
  import opened Seqs

  /** `needle` occurs in `s` at position `i`. */
  predicate StartsAt(s: string, needle: string, i: nat) {
    i + |needle| <= |s| && s[i..i + |needle|] == needle
  }

  /** The end of the run of digits starting at `i` (`DigitsEndSpec`). */
  function DigitsEnd(s: string, i: nat): (j: nat)
    requires i <= |s|
    ensures i <= j <= |s|
    decreases |s| - i
  {
    if i < |s| && IsDigit(s[i]) then DigitsEnd(s, i + 1) else i
  }

  /** The first position at or after `i` holding `c`, or `|s|`
      (`CharFromSpec`). */
  function CharFrom(s: string, c: char, i: nat): (j: nat)
    requires i <= |s|
    ensures i <= j <= |s|
    decreases |s| - i
  {
    if i == |s| || s[i] == c then i else CharFrom(s, c, i + 1)
  }


  /** `DigitsEnd` stops at the first character that is not a digit. */
  lemma {:induction false} DigitsEndSpec(s: string, i: nat)
    requires i <= |s|
    ensures forall k :: i <= k < DigitsEnd(s, i) ==> IsDigit(s[k])
    ensures DigitsEnd(s, i) < |s| ==> !IsDigit(s[DigitsEnd(s, i)])
    decreases |s| - i
  {
    if i < |s| && IsDigit(s[i]) { DigitsEndSpec(s, i + 1); }
  }

  /** `CharFrom` stops at the first `c`. */
  lemma {:induction false} CharFromSpec(s: string, c: char, i: nat)
    requires i <= |s|
    ensures forall k :: i <= k < CharFrom(s, c, i) ==> s[k] != c
    ensures CharFrom(s, c, i) < |s| ==> s[CharFrom(s, c, i)] == c
    decreases |s| - i
  {
    if i < |s| && s[i] != c { CharFromSpec(s, c, i + 1); }
  }


  lemma {:induction false} DigitsEndIs(s: string, i: nat, j: nat)
    requires i <= j <= |s|
    requires forall k :: i <= k < j ==> IsDigit(s[k])
    requires j < |s| ==> !IsDigit(s[j])
    ensures DigitsEnd(s, i) == j
    decreases j - i
  {
    if i < j { DigitsEndIs(s, i + 1, j); }
  }

  lemma {:induction false} CharFromIs(s: string, c: char, i: nat, j: nat)
    requires i <= j <= |s|
    requires forall k :: i <= k < j ==> s[k] != c
    requires j < |s| ==> s[j] == c
    ensures CharFrom(s, c, i) == j
    decreases j - i
  {
    if i < j { CharFromIs(s, c, i + 1, j); }
  }


  // ---------------------------------------------------------------------
  // The candidate parser: /===候选(\d+):\s*([^=]+)===\n([\s\S]*?)(?=\n===|$)/g

  const Header: string := "===候选"
  const TitleEnd: string := "===\n"
  const BlockBreak: string := "\n==="

  /** `===候选` at `i`, compared character by character as the engine does. */
  predicate HeaderAt(s: string, i: nat) {
    i + 5 <= |s| && s[i] == '=' && s[i + 1] == '=' && s[i + 2] == '=' && s[i + 3] == '候' && s[i + 4] == '选'
  }

  /** `===\n` at `i`. */
  predicate TitleEndAt(s: string, i: nat) {
    i + 4 <= |s| && s[i] == '=' && s[i + 1] == '=' && s[i + 2] == '=' && s[i + 3] == '\n'
  }

  /** `\n===` at `i`: the lookahead that ends a block's content. */
  predicate BreakAt(s: string, i: nat) {
    i + 4 <= |s| && s[i] == '\n' && s[i + 1] == '=' && s[i + 2] == '=' && s[i + 3] == '='
  }

  /** The character test for the header is an occurrence of `Header`. */
  lemma HeaderLiteral(s: string, i: nat)
    ensures HeaderAt(s, i) <==> StartsAt(s, Header, i)
  {
    if i + 5 <= |s| {
      var w := s[i..i + 5];
      assert w[0] == s[i] && w[1] == s[i + 1] && w[2] == s[i + 2] && w[3] == s[i + 3] && w[4] == s[i + 4];
      assert Header == ['=', '=', '=', '候', '选'];
      assert w == [w[0], w[1], w[2], w[3], w[4]];
    }
  }

  /** The character test for the title's end is an occurrence of `TitleEnd`. */
  lemma TitleEndLiteral(s: string, i: nat)
    ensures TitleEndAt(s, i) <==> StartsAt(s, TitleEnd, i)
  {
    if i + 4 <= |s| {
      var w := s[i..i + 4];
      assert w[0] == s[i] && w[1] == s[i + 1] && w[2] == s[i + 2] && w[3] == s[i + 3];
      assert TitleEnd == ['=', '=', '=', '\n'];
      assert w == [w[0], w[1], w[2], w[3]];
    }
  }

  /** The character test for the lookahead is an occurrence of `BlockBreak`. */
  lemma BreakLiteral(s: string, i: nat)
    ensures BreakAt(s, i) <==> StartsAt(s, BlockBreak, i)
  {
    if i + 4 <= |s| {
      var w := s[i..i + 4];
      assert w[0] == s[i] && w[1] == s[i + 1] && w[2] == s[i + 2] && w[3] == s[i + 3];
      assert BlockBreak == ['\n', '=', '=', '='];
      assert w == [w[0], w[1], w[2], w[3]];
    }
  }

  /** The first position at or after `i` where `\n===` occurs, or `|s|`
      (`BreakFromSpec`). */
  function BreakFrom(s: string, i: nat): (j: nat)
    requires i <= |s|
    ensures i <= j <= |s|
    decreases |s| - i
  {
    if i == |s| || BreakAt(s, i) then i else BreakFrom(s, i + 1)
  }

  /** `BreakFrom` stops at the first occurrence. */
  lemma {:induction false} BreakFromSpec(s: string, i: nat)
    requires i <= |s|
    ensures forall k :: i <= k < BreakFrom(s, i) ==> !BreakAt(s, k)
    ensures BreakFrom(s, i) < |s| ==> BreakAt(s, BreakFrom(s, i))
    decreases |s| - i
  {
    if i < |s| && !BreakAt(s, i) { BreakFromSpec(s, i + 1); }
  }

  lemma {:induction false} BreakFromIs(s: string, i: nat, j: nat)
    requires i <= j <= |s|
    requires forall k :: i <= k < j ==> !BreakAt(s, k)
    requires j < |s| ==> BreakAt(s, j)
    ensures BreakFrom(s, i) == j
    decreases j - i
  {
    if i < j { BreakFromIs(s, i + 1, j); }
  }

  /** One match: where it starts, the digits, the text between `:` and
      `===` (the title group and the spaces `\s*` took before it), the
      content group, and where the next search resumes. */
  datatype CandidateMatch = CandidateMatch(start: nat, number: string, title: string, content: string, end: nat)

  /** The match at position `p`, if any.  Backtracking cannot change its
      shape: the digits run to the `:`, the title runs to the first `=`,
      which must open `===\n`, and the content stops lazily before the
      first `\n===` or at the end of the text. */
  function MatchAt(text: string, p: nat): (r: Option<CandidateMatch>)
    requires p <= |text|
    ensures r.Some? ==> r.value.start == p && p < r.value.end <= |text| && HeaderAt(text, p)
  {
    if !HeaderAt(text, p) then None
    else
      var d := DigitsEnd(text, p + |Header|);
      if d == p + |Header| || d == |text| || text[d] != ':' then None
      else
        var e := CharFrom(text, '=', d + 1);
        if e == d + 1 || !TitleEndAt(text, e) then None
        else
          var j := BreakFrom(text, e + |TitleEnd|);
          Some(CandidateMatch(p, text[p + |Header|..d], text[d + 1..e], text[e + |TitleEnd|..j], j))
  }

  /** A match's number is made of digits, its title holds no `=`, and its
      content never runs into the next block. */
  lemma MatchShape(text: string, p: nat)
    requires p <= |text| && MatchAt(text, p).Some?
    ensures var m := MatchAt(text, p).value;
            m.number != [] && (forall k :: 0 <= k < |m.number| ==> IsDigit(m.number[k]))
            && '=' !in m.title && NoBreak(m.content)
  {
    MatchNumber(text, p);
    MatchTitle(text, p);
    MatchContent(text, p);
  }

  lemma MatchNumber(text: string, p: nat)
    requires p <= |text| && MatchAt(text, p).Some?
    ensures var n := MatchAt(text, p).value.number;
            n != [] && forall k :: 0 <= k < |n| ==> IsDigit(n[k])
  {
    var d, e, j := MatchAtParts(text, p);
    DigitsEndSpec(text, p + |Header|);
    DigitsSlice(text, p + |Header|, d);
  }

  lemma MatchTitle(text: string, p: nat)
    requires p <= |text| && MatchAt(text, p).Some?
    ensures '=' !in MatchAt(text, p).value.title
  {
    var d, e, j := MatchAtParts(text, p);
    CharFromSpec(text, '=', d + 1);
    CharAbsentSlice(text, '=', d + 1, e);
  }

  lemma MatchContent(text: string, p: nat)
    requires p <= |text| && MatchAt(text, p).Some?
    ensures NoBreak(MatchAt(text, p).value.content)
  {
    var d, e, j := MatchAtParts(text, p);
    NoBreakUpToBreak(text, e + |TitleEnd|);
  }

  /** The text from `i` up to the next `\n===` holds no `\n===`. */
  lemma NoBreakUpToBreak(text: string, i: nat)
    requires i <= |text|
    ensures NoBreak(text[i..BreakFrom(text, i)])
  {
    BreakFromSpec(text, i);
    NoBreakSlice(text, i, BreakFrom(text, i));
  }

  /** Where the groups of the match at `p` start and end. */
  lemma MatchAtParts(text: string, p: nat) returns (d: nat, e: nat, j: nat)
    requires p <= |text| && MatchAt(text, p).Some?
    ensures p + |Header| < d < e && e + |TitleEnd| <= j <= |text|
    ensures MatchAt(text, p).value
            == CandidateMatch(p, text[p + |Header|..d], text[d + 1..e], text[e + |TitleEnd|..j], j)
    ensures d == DigitsEnd(text, p + |Header|) && e == CharFrom(text, '=', d + 1)
            && j == BreakFrom(text, e + |TitleEnd|)
  {
    d := DigitsEnd(text, p + |Header|);
    e := CharFrom(text, '=', d + 1);
    j := BreakFrom(text, e + |TitleEnd|);
  }

  lemma DigitsSlice(s: string, i: nat, j: nat)
    requires i <= j <= |s| && forall k :: i <= k < j ==> IsDigit(s[k])
    ensures forall k :: 0 <= k < |s[i..j]| ==> IsDigit(s[i..j][k])
  {
    forall k | 0 <= k < |s[i..j]| ensures IsDigit(s[i..j][k]) {
      assert s[i..j][k] == s[i + k];
    }
  }

  lemma CharAbsentSlice(s: string, c: char, i: nat, j: nat)
    requires i <= j <= |s| && forall k :: i <= k < j ==> s[k] != c
    ensures c !in s[i..j]
  {
    forall k | 0 <= k < |s[i..j]| ensures s[i..j][k] != c {
      assert s[i..j][k] == s[i + k];
    }
  }

  lemma NoBreakSlice(s: string, i: nat, j: nat)
    requires i <= j <= |s| && forall k :: i <= k < j ==> !BreakAt(s, k)
    ensures NoBreak(s[i..j])
  {
    var t := s[i..j];
    forall k | 0 <= k < |t| ensures !BreakAt(t, k) {
      if BreakAt(t, k) {
        assert BreakAt(s, i + k);
      }
    }
  }

  /** `regex.exec` from `lastIndex = from`: the leftmost match. */
  function NextMatch(text: string, from: nat): (r: Option<CandidateMatch>)
    requires from <= |text|
    ensures r.Some? ==> from <= r.value.start < r.value.end <= |text|
    decreases |text| - from
  {
    var m := MatchAt(text, from);
    if m.Some? then m
    else if from == |text| then None
    else NextMatch(text, from + 1)
  }

  /** `NextMatch` finds the leftmost position where the pattern matches. */
  lemma {:induction false} NextMatchSpec(text: string, from: nat)
    requires from <= |text|
    ensures var r := NextMatch(text, from);
            r.Some? ==> MatchAt(text, r.value.start) == r
    ensures var r := NextMatch(text, from);
            forall p :: from <= p <= |text| && (r.None? || p < r.value.start) ==> MatchAt(text, p).None?
    decreases |text| - from
  {
    if MatchAt(text, from).None? && from < |text| {
      NextMatchSpec(text, from + 1);
    }
  }

  /** Every match the `exec` loop sees, from `from` on, in order. */
  function Matches(text: string, from: nat): (ms: seq<CandidateMatch>)
    requires from <= |text|
    ensures forall i :: 0 <= i < |ms| ==> from <= ms[i].start < ms[i].end <= |text|
    decreases |text| - from
  {
    match NextMatch(text, from)
    case None => []
    case Some(m) => [m] + Matches(text, m.end)
  }

  /** `Matches` unfolded once, when there is a next match. */
  lemma MatchesStep(text: string, from: nat, m: CandidateMatch)
    requires from <= |text| && NextMatch(text, from) == Some(m)
    ensures Matches(text, from) == [m] + Matches(text, m.end)
  {
  }

  /** The `i`-th match from `from`, when the first one is `m`. */
  lemma MatchesIndex(text: string, from: nat, m: CandidateMatch, i: nat)
    requires from <= |text| && NextMatch(text, from) == Some(m)
    ensures |Matches(text, from)| == 1 + |Matches(text, m.end)|
    ensures i == 0 ==> Matches(text, from)[0] == m
    ensures 0 < i < |Matches(text, from)| ==> Matches(text, from)[i] == Matches(text, m.end)[i - 1]
  {
    MatchesStep(text, from, m);
  }

  /** Each reported match is the pattern's match at its start. */
  lemma {:induction false} MatchesAreMatches(text: string, from: nat, i: nat)
    requires from <= |text| && i < |Matches(text, from)|
    ensures var m := Matches(text, from)[i]; MatchAt(text, m.start) == Some(m)
    decreases |text| - from
  {
    var m := NextMatch(text, from).value;
    MatchesIndex(text, from, m, i);
    if i == 0 {
      NextMatchSpec(text, from);
    } else {
      MatchesAreMatches(text, m.end, i - 1);
      var rest := Matches(text, m.end);
      assert Matches(text, from)[i] == rest[i - 1];
    }
  }

  /** Matches come out in order and never overlap. */
  lemma {:induction false} MatchesOrdered(text: string, from: nat)
    requires from <= |text|
    ensures var ms := Matches(text, from);
            forall i, j :: 0 <= i < j < |ms| ==> ms[i].end <= ms[j].start
    decreases |text| - from
  {
    var ms := Matches(text, from);
    if ms != [] {
      var m := NextMatch(text, from).value;
      MatchesOrdered(text, m.end);
      forall i, j | 0 <= i < j < |ms| ensures ms[i].end <= ms[j].start {
        MatchesIndex(text, from, m, i);
        MatchesIndex(text, from, m, j);
      }
    }
  }

  /** No match is skipped: every position where the pattern matches is the
      start of a reported match or lies inside one. */
  lemma {:induction false} MatchesComplete(text: string, from: nat, p: nat)
    requires from <= p <= |text| && MatchAt(text, p).Some?
    ensures exists i :: 0 <= i < |Matches(text, from)|
                        && Matches(text, from)[i].start <= p < Matches(text, from)[i].end
    decreases |text| - from
  {
    var ms := Matches(text, from);
    var m := NextMatch(text, from);
    NextMatchSpec(text, from);
    assert m.Some?;
    var rest := Matches(text, m.value.end);
    assert m.value.start <= p;
    if p < m.value.end {
      MatchesIndex(text, from, m.value, 0);
      assert ms[0].start <= p < ms[0].end;
    } else {
      MatchesComplete(text, m.value.end, p);
      var i :| 0 <= i < |rest| && rest[i].start <= p < rest[i].end;
      MatchesIndex(text, from, m.value, i + 1);
      assert ms[i + 1] == rest[i];
    }
  }

  /** `{ id: 'candidate' + N, title, content }`. */
  datatype Candidate = Candidate(id: string, title: string, content: string)

  function ToCandidate(m: CandidateMatch): Candidate {
    Candidate("candidate" + m.number, Trim(m.title), Trim(m.content))
  }

  /** One candidate per match, in order. */
  function CandidatesOf(ms: seq<CandidateMatch>): (cs: seq<Candidate>)
    ensures |cs| == |ms|
    ensures forall i :: 0 <= i < |ms| ==> cs[i] == ToCandidate(ms[i])
  {
    seq(|ms|, i requires 0 <= i < |ms| => ToCandidate(ms[i]))
  }

  lemma CandidatesCons(m: CandidateMatch, rest: seq<CandidateMatch>)
    ensures CandidatesOf([m] + rest) == [ToCandidate(m)] + CandidatesOf(rest)
  {
    var l, r := CandidatesOf([m] + rest), [ToCandidate(m)] + CandidatesOf(rest);
    assert |l| == |r|;
    forall i | 0 <= i < |l| ensures l[i] == r[i] {
      if i > 0 { assert ([m] + rest)[i] == rest[i - 1]; }
    }
  }

  lemma AppendAssoc<T>(a: seq<T>, b: seq<T>, c: seq<T>)
    ensures a + (b + c) == a + b + c
  {
  }

  /** A line break cannot start a match, so the search moves past it. */
  lemma SkipBreak(text: string, i: nat)
    requires i < |text| && text[i] == '\n'
    ensures Matches(text, i) == Matches(text, i + 1)
  {
    assert NextMatch(text, i) == NextMatch(text, i + 1);
  }

  /** The `exec` loop of `generateCandidates`, pushing one candidate per
      match. */
  method ParseCandidates(text: string) returns (parsed: seq<Candidate>)
    ensures parsed == CandidatesOf(Matches(text, 0))
  {
    parsed := [];
    var lastIndex := 0;
    while true
      invariant lastIndex <= |text|
      invariant parsed + CandidatesOf(Matches(text, lastIndex)) == CandidatesOf(Matches(text, 0))
      decreases |text| - lastIndex
    {
      var m := NextMatch(text, lastIndex);
      if m.None? {
        assert Matches(text, lastIndex) == [];
        assert parsed + [] == parsed;
        break;
      }
      var rest := Matches(text, m.value.end);
      assert Matches(text, lastIndex) == [m.value] + rest;
      CandidatesCons(m.value, rest);
      AppendAssoc(parsed, [ToCandidate(m.value)], CandidatesOf(rest));
      parsed := parsed + [ToCandidate(m.value)];
      lastIndex := m.value.end;
    }
  }

  // ---------------------------------------------------------------------
  // The format the candidate prompt asks for, and reading it back.

  /** One block as requested: `===候选N: 标题===\n` and its body. */
  datatype Block = Block(number: string, title: string, body: string)

  /** The body never starts a new block. */
  predicate NoBreak(body: string) {
    forall k :: 0 <= k < |body| ==> !BreakAt(body, k)
  }

  predicate WellFormed(b: Block) {
    b.number != [] && (forall k :: 0 <= k < |b.number| ==> IsDigit(b.number[k]))
    && '=' !in b.title && NoBreak(b.body)
  }

  function RenderBlock(b: Block): string {
    Header + b.number + ":" + (" " + b.title) + TitleEnd + b.body
  }

  /** The blocks, one after the other, separated by a line break. */
  function Render(blocks: seq<Block>): string
    decreases |blocks|
  {
    if blocks == [] then ""
    else if |blocks| == 1 then RenderBlock(blocks[0])
    else RenderBlock(blocks[0]) + "\n" + Render(blocks[1..])
  }

  /** What the parser should make of rendered blocks. */
  function Expected(blocks: seq<Block>): (cs: seq<Candidate>)
    ensures |cs| == |blocks|
  {
    if blocks == [] then []
    else [Candidate("candidate" + blocks[0].number, Trim(blocks[0].title), Trim(blocks[0].body))] + Expected(blocks[1..])
  }

  lemma TrimLeadingSpace(t: string)
    ensures Trim(" " + t) == Trim(t)
  {
    assert (" " + t)[1..] == t;
  }

  /** `w` sits in `text` at `p`, character by character. */
  ghost predicate At(text: string, p: nat, w: string) {
    p + |w| <= |text| && forall x :: 0 <= x < |w| ==> text[p + x] == w[x]
  }

  lemma SliceAt(text: string, p: nat, w: string)
    requires p + |w| <= |text| && text[p..p + |w|] == w
    ensures At(text, p, w)
  {
    forall x | 0 <= x < |w| ensures text[p + x] == w[x] {
      assert text[p..p + |w|][x] == text[p + x];
    }
  }

  lemma AtSlice(text: string, p: nat, w: string)
    requires At(text, p, w)
    ensures text[p..p + |w|] == w
  {
    var a := text[p..p + |w|];
    forall x | 0 <= x < |w| ensures a[x] == w[x] {
      assert a[x] == text[p + x];
    }
    assert a == w;
  }

  /** The two halves of a concatenation sit one after the other; `q` is
      where the second starts. */
  lemma AtSplit(text: string, p: nat, u: string, v: string, q: nat)
    requires At(text, p, u + v) && q == p + |u|
    ensures At(text, p, u) && At(text, q, v)
  {
    forall x | 0 <= x < |u| ensures text[p + x] == u[x] {
      assert (u + v)[x] == u[x];
    }
    forall x | 0 <= x < |v| ensures text[q + x] == v[x] {
      assert (u + v)[|u| + x] == v[x];
      assert text[p + (|u| + x)] == (u + v)[|u| + x];
    }
  }

  /** The characters a match at `p` consists of: header, digits and `:`
      (`NumberLayout`), a title without `=` and `===\n` (`TitleLayout`),
      and a content without `\n===` that is followed by `\n===` or by
      nothing (`ContentLayout`). */
  ghost predicate Layout(text: string, p: nat, number: string, title: string, content: string) {
    var d := p + |Header| + |number|;
    NumberLayout(text, p, number)
    && TitleLayout(text, d, title)
    && ContentLayout(text, d + 1 + |title| + |TitleEnd|, content)
  }

  ghost predicate NumberLayout(text: string, p: nat, number: string) {
    var d := p + |Header| + |number|;
    d < |text| && HeaderAt(text, p)
    && number != [] && (forall k :: 0 <= k < |number| ==> IsDigit(number[k]))
    && At(text, p + |Header|, number)
    && text[d] == ':'
  }

  /** `d` is the position of the `:`. */
  ghost predicate TitleLayout(text: string, d: nat, title: string) {
    title != [] && '=' !in title && At(text, d + 1, title) && TitleEndAt(text, d + 1 + |title|)
  }

  /** `c` is where the content starts. */
  ghost predicate ContentLayout(text: string, c: nat, content: string) {
    At(text, c, content) && NoBreak(content)
    && (c + |content| < |text| ==> BreakAt(text, c + |content|))
  }

  lemma LayoutDigits(text: string, p: nat, number: string)
    requires NumberLayout(text, p, number)
    ensures DigitsEnd(text, p + |Header|) == p + |Header| + |number|
    ensures text[p + |Header|..p + |Header| + |number|] == number
  {
    var i := p + |Header|;
    var d := i + |number|;
    forall k | i <= k < d ensures IsDigit(text[k]) {
      assert text[i + (k - i)] == number[k - i];
    }
    DigitsEndIs(text, i, d);
    AtSlice(text, i, number);
  }

  lemma LayoutTitle(text: string, d: nat, title: string)
    requires TitleLayout(text, d, title)
    ensures CharFrom(text, '=', d + 1) == d + 1 + |title|
            && TitleEndAt(text, d + 1 + |title|)
            && text[d + 1..d + 1 + |title|] == title
  {
    var e := d + 1 + |title|;
    forall k | d + 1 <= k < e ensures text[k] != '=' {
      assert text[d + 1 + (k - d - 1)] == title[k - d - 1];
    }
    CharFromIs(text, '=', d + 1, e);
    AtSlice(text, d + 1, title);
  }

  lemma LayoutContent(text: string, c: nat, content: string)
    requires ContentLayout(text, c, content)
    ensures BreakFrom(text, c) == c + |content| && text[c..c + |content|] == content
  {
    var j := c + |content|;
    forall k | c <= k < j ensures !BreakAt(text, k) {
      var x := k - c;
      if k + 4 <= j {
        assert !BreakAt(content, x);
        assert text[c + x] == content[x] && text[c + (x + 1)] == content[x + 1]
               && text[c + (x + 2)] == content[x + 2] && text[c + (x + 3)] == content[x + 3];
      } else if j < |text| {
        assert text[j] == '\n';
        assert j == k + 1 || j == k + 2 || j == k + 3;
      }
    }
    BreakFromIs(text, c, j);
    AtSlice(text, c, content);
  }

  /** The match at `p` read off the characters of the text. */
  lemma MatchAtIs(text: string, p: nat, number: string, title: string, content: string)
    requires Layout(text, p, number, title, content)
    ensures var c := p + |Header| + |number| + 1 + |title| + |TitleEnd|;
            MatchAt(text, p) == Some(CandidateMatch(p, number, title, content, c + |content|))
  {
    var d := p + |Header| + |number|;
    var e := d + 1 + |title|;
    LayoutDigits(text, p, number);
    LayoutTitle(text, d, title);
    LayoutContent(text, e + |TitleEnd|, content);
    MatchAtFrom(text, p, d, e, e + |TitleEnd| + |content|);
  }

  /** The match at `p`, given where its digits, title and content end. */
  lemma MatchAtFrom(text: string, p: nat, d: nat, e: nat, j: nat)
    requires p <= |text| && HeaderAt(text, p)
    requires DigitsEnd(text, p + |Header|) == d && p + |Header| < d < |text| && text[d] == ':'
    requires CharFrom(text, '=', d + 1) == e && d + 1 < e && TitleEndAt(text, e)
    requires BreakFrom(text, e + |TitleEnd|) == j
    ensures MatchAt(text, p)
            == Some(CandidateMatch(p, text[p + |Header|..d], text[d + 1..e], text[e + |TitleEnd|..j], j))
  {
  }

  /** A rendered block sitting at `p`, followed by nothing or by a new
      block, has the layout of a match. */
  lemma BlockLayout(text: string, p: nat, b: Block)
    requires WellFormed(b)
    requires At(text, p, RenderBlock(b))
    requires p + |RenderBlock(b)| == |text| || BreakAt(text, p + |RenderBlock(b)|)
    ensures Layout(text, p, b.number, " " + b.title, b.body)
    ensures |Header| + |b.number| + 1 + |" " + b.title| + |TitleEnd| + |b.body| == |RenderBlock(b)|
  {
    var n, t := b.number, " " + b.title;
    var d := p + |Header| + |n|;
    var e := d + 1 + |t|;
    AtSplit(text, p, Header + n + ":" + t + TitleEnd, b.body, e + |TitleEnd|);
    AtSplit(text, p, Header + n + ":" + t, TitleEnd, e);
    AtSplit(text, p, Header + n + ":", t, d + 1);
    AtSplit(text, p, Header + n, ":", d);
    AtSplit(text, p, Header, n, p + |Header|);
    AtHeader(text, p);
    AtTitleEnd(text, e);
    assert text[d + 0] == ":"[0];
    assert t[0] == ' ';
  }

  lemma AtHeader(text: string, p: nat)
    requires At(text, p, Header)
    ensures HeaderAt(text, p)
  {
    assert text[p + 0] == Header[0] && text[p + 1] == Header[1] && text[p + 2] == Header[2]
           && text[p + 3] == Header[3] && text[p + 4] == Header[4];
  }

  lemma AtTitleEnd(text: string, e: nat)
    requires At(text, e, TitleEnd)
    ensures TitleEndAt(text, e)
  {
    assert text[e + 0] == TitleEnd[0] && text[e + 1] == TitleEnd[1] && text[e + 2] == TitleEnd[2]
           && text[e + 3] == TitleEnd[3];
  }

  lemma RenderStartsWithHeader(blocks: seq<Block>)
    requires blocks != []
    ensures HeaderAt(Render(blocks), 0)
  {
    assert RenderBlock(blocks[0]) == Header + BlockTail(blocks[0]);
    assert Render(blocks) == Header + (BlockTail(blocks[0]) + (if |blocks| == 1 then "" else "\n" + Render(blocks[1..])));
  }

  /** A block without its header. */
  function BlockTail(x: Block): string {
    x.number + ":" + (" " + x.title) + TitleEnd + x.body
  }

  /** A match at the starting position is the first one reported. */
  lemma MatchesFromMatch(text: string, p: nat, m: CandidateMatch)
    requires p <= |text| && MatchAt(text, p) == Some(m)
    ensures Matches(text, p) == [m] + Matches(text, m.end)
  {
    assert NextMatch(text, p) == Some(m);
  }

  /** The candidate read from a rendered block. */
  lemma BlockCandidate(b: Block, p: nat)
    ensures ToCandidate(FirstMatch(p, b)) == Candidate("candidate" + b.number, Trim(b.title), Trim(b.body))
  {
    TrimLeadingSpace(b.title);
  }

  /** A rendered block sitting at `p`, followed by nothing or by a new
      block, is the match at `p`, and the match ends where the block does. */
  lemma BlockAt(text: string, p: nat, b: Block)
    requires WellFormed(b)
    requires At(text, p, RenderBlock(b))
    requires p + |RenderBlock(b)| == |text| || BreakAt(text, p + |RenderBlock(b)|)
    ensures MatchAt(text, p) == Some(FirstMatch(p, b))
  {
    BlockLayout(text, p, b);
    MatchAtIs(text, p, b.number, " " + b.title, b.body);
  }

  lemma MatchesAtEnd(text: string)
    ensures Matches(text, |text|) == []
  {
    assert MatchAt(text, |text|).None?;
  }

  /** How a suffix `x + y` of a sequence splits. */
  lemma SuffixSplit<T>(s: seq<T>, p: nat, x: seq<T>, y: seq<T>)
    requires p <= |s| && s[p..] == x + y
    ensures p + |x| <= |s| && s[p..p + |x|] == x && s[p + |x|..] == y
  {
    assert s[p..p + |x|] == s[p..][..|x|];
    assert s[p + |x|..] == s[p..][|x|..];
  }

  /** `Render` unfolded once. */
  lemma RenderHead(blocks: seq<Block>)
    requires blocks != []
    ensures Render(blocks) == RenderBlock(blocks[0]) + (if |blocks| == 1 then [] else "\n" + Render(blocks[1..]))
  {
    if |blocks| > 1 {
      AppendAssoc(RenderBlock(blocks[0]), "\n", Render(blocks[1..]));
    }
  }

  /** The parser reads back every block written in the requested format
      from the position where the blocks start. */
  lemma {:induction false} ParseFrom(text: string, p: nat, blocks: seq<Block>)
    requires forall i :: 0 <= i < |blocks| ==> WellFormed(blocks[i])
    requires p <= |text| && text[p..] == Render(blocks)
    ensures CandidatesOf(Matches(text, p)) == Expected(blocks)
    decreases |blocks|
  {
    if |blocks| == 0 {
      assert p == |text|;
      MatchesAtEnd(text);
    } else {
      assert WellFormed(blocks[0]);
      var m := FirstMatch(p, blocks[0]);
      BlockThen(text, p, blocks);
      BlockMatches(text, p, blocks[0]);
      BlockCandidate(blocks[0], p);
      if |blocks| == 1 {
        ParseStep(Matches(text, p), m, [], blocks);
      } else {
        var q := m.end + 1;
        ParseFrom(text, q, blocks[1..]);
        ParseStep(Matches(text, p), m, Matches(text, q), blocks);
      }
    }
  }

  /** The match a rendered block at `p` gives. */
  function FirstMatch(p: nat, b: Block): CandidateMatch {
    CandidateMatch(p, b.number, " " + b.title, b.body, p + |RenderBlock(b)|)
  }

  /** One step of reading back: the first match gives the first block. */
  lemma ParseStep(ms: seq<CandidateMatch>, m: CandidateMatch, later: seq<CandidateMatch>, blocks: seq<Block>)
    requires blocks != [] && ms == [m] + later
    requires ToCandidate(m) == Candidate("candidate" + blocks[0].number, Trim(blocks[0].title), Trim(blocks[0].body))
    requires CandidatesOf(later) == Expected(blocks[1..])
    ensures CandidatesOf(ms) == Expected(blocks)
  {
    CandidatesCons(m, later);
  }

  /** Later blocks are announced by a line break and a block header. */
  lemma TailBreak(blocks: seq<Block>)
    requires blocks != []
    ensures BreakAt("\n" + Render(blocks), 0)
  {
    RenderStartsWithHeader(blocks);
  }

  /** The first rendered block sits at `p`, followed by the end of the
      text or by a line break and the remaining blocks. */
  lemma BlockThen(text: string, p: nat, blocks: seq<Block>)
    requires blocks != []
    requires p <= |text| && text[p..] == Render(blocks)
    ensures At(text, p, RenderBlock(blocks[0]))
    ensures |blocks| == 1 ==> p + |RenderBlock(blocks[0])| == |text|
    ensures |blocks| > 1 ==> var e := p + |RenderBlock(blocks[0])|;
                             e < |text| && BreakAt(text, e) && text[e + 1..] == Render(blocks[1..])
  {
    var b := blocks[0];
    var e := p + |RenderBlock(b)|;
    var tail: string := if |blocks| == 1 then [] else "\n" + Render(blocks[1..]);
    RenderHead(blocks);
    SuffixSplit(text, p, RenderBlock(b), tail);
    SliceAt(text, p, RenderBlock(b));
    if |blocks| > 1 {
      BreakThenRest(text, e, blocks[1..]);
    }
  }

  /** A line break and further blocks at `e`. */
  lemma BreakThenRest(text: string, e: nat, rest: seq<Block>)
    requires rest != []
    requires e <= |text| && text[e..] == "\n" + Render(rest)
    ensures e < |text| && BreakAt(text, e) && text[e + 1..] == Render(rest)
  {
    TailBreak(rest);
    BreakShift(text, e, "\n" + Render(rest));
    SuffixSplit(text, e, "\n", Render(rest));
  }

  /** The matches from a rendered block at `p` on: the block's match, then
      nothing or the matches past the line break that follows it. */
  lemma BlockMatches(text: string, p: nat, b: Block)
    requires WellFormed(b)
    requires At(text, p, RenderBlock(b))
    requires p + |RenderBlock(b)| == |text| || BreakAt(text, p + |RenderBlock(b)|)
    ensures p + |RenderBlock(b)| == |text| ==> Matches(text, p) == [FirstMatch(p, b)]
    ensures p + |RenderBlock(b)| < |text| ==> Matches(text, p) == [FirstMatch(p, b)] + Matches(text, p + |RenderBlock(b)| + 1)
  {
    var m := FirstMatch(p, b);
    BlockAt(text, p, b);
    if m.end == |text| {
      MatchesLast(text, p, m);
    } else {
      MatchesThenBreak(text, p, m);
    }
  }

  /** A `\n===` at the start of a suffix. */
  lemma BreakShift(s: string, e: nat, t: string)
    requires e <= |s| && s[e..] == t && BreakAt(t, 0)
    ensures BreakAt(s, e)
  {
    assert s[e] == t[0] && s[e + 1] == t[1] && s[e + 2] == t[2] && s[e + 3] == t[3];
  }

  /** A match that runs to the end of the text is the last one. */
  lemma MatchesLast(text: string, p: nat, m: CandidateMatch)
    requires p <= |text| && MatchAt(text, p) == Some(m) && m.end == |text|
    ensures Matches(text, p) == [m]
  {
    MatchesFromMatch(text, p, m);
    MatchesAtEnd(text);
  }

  /** After a match followed by a line break, the search goes on past the
      break. */
  lemma MatchesThenBreak(text: string, p: nat, m: CandidateMatch)
    requires p <= |text| && MatchAt(text, p) == Some(m) && m.end < |text| && text[m.end] == '\n'
    ensures Matches(text, p) == [m] + Matches(text, m.end + 1)
  {
    MatchesFromMatch(text, p, m);
    SkipBreakAfter(text, Matches(text, p), m, m.end);
  }

  lemma SkipBreakAfter(text: string, ms: seq<CandidateMatch>, m: CandidateMatch, e: nat)
    requires e < |text| && text[e] == '\n' && ms == [m] + Matches(text, e)
    ensures ms == [m] + Matches(text, e + 1)
  {
    SkipBreak(text, e);
    var later, rest := Matches(text, e), Matches(text, e + 1);
    assert later == rest;
    assert [m] + later == [m] + rest;
  }


  /** The parser reads back every block written in the requested format,
      in order, with its number, trimmed title and trimmed body. */
  lemma ParseRendered(pre: string, blocks: seq<Block>)
    requires forall i :: 0 <= i < |blocks| ==> WellFormed(blocks[i])
    ensures CandidatesOf(Matches(pre + Render(blocks), |pre|)) == Expected(blocks)
  {
    var text := pre + Render(blocks);
    assert text[|pre|..] == Render(blocks);
    ParseFrom(text, |pre|, blocks);
  }

  // The `missingAspects` list of an analysis that is not valid JSON.

  const AspectsKey := "missingAspects"

  /** The aspects assumed missing when the analysis cannot be read. */
  const DefaultAspects: seq<string> := ["基本信息", "外貌特征", "性格特点", "成长背景", "目标和动机"]

  /** The class `["\s:]`. */
  predicate IsGapChar(c: char) {
    c == '"' || c == ':' || IsSpace(c)
  }

  /** The end of the run of characters in the class `inRun` starting at
      `i` (a greedy `[...]*`). */
  function RunEnd(s: string, i: nat, inRun: char -> bool): (j: nat)
    requires i <= |s|
    ensures i <= j <= |s|
    ensures forall k :: i <= k < j ==> inRun(s[k])
    ensures j < |s| ==> !inRun(s[j])
    decreases |s| - i
  {
    if i < |s| && inRun(s[i]) then RunEnd(s, i + 1, inRun) else i
  }

  lemma {:induction false} RunEndIs(s: string, i: nat, j: nat, inRun: char -> bool)
    requires i <= j <= |s|
    requires forall k :: i <= k < j ==> inRun(s[k])
    requires j < |s| ==> !inRun(s[j])
    ensures RunEnd(s, i, inRun) == j
    decreases j - i
  {
    if i < j { RunEndIs(s, i + 1, j, inRun); }
  }

  /** The group of `missingAspects["\s:]+\[(.*?)\]` (dot matching line
      breaks) when the pattern matches at `p`.  The class run cannot give
      back characters, since `[` is not in the class, and the lazy group
      ends at the first `]`. */
  function AspectsAt(text: string, p: nat): (r: Option<string>)
    requires p <= |text|
    ensures r.Some? ==> StartsAt(text, AspectsKey, p) && ']' !in r.value
  {
    if !StartsAt(text, AspectsKey, p) then None
    else
      var g := RunEnd(text, p + |AspectsKey|, IsGapChar);
      if g == p + |AspectsKey| || g == |text| || text[g] != '[' then None
      else
        var q := CharFrom(text, ']', g + 1);
        CharFromSpec(text, ']', g + 1);
        if q == |text| then None
        else
          Some(text[g + 1..q])
  }

  /** The leftmost position at or after `from` where the pattern matches. */
  function FirstAspects(text: string, from: nat): (r: Option<nat>)
    requires from <= |text|
    ensures r.Some? ==> from <= r.value <= |text| && AspectsAt(text, r.value).Some?
    decreases |text| - from
  {
    if AspectsAt(text, from).Some? then Some(from)
    else if from == |text| then None
    else FirstAspects(text, from + 1)
  }

  /** No match starts before the one `FirstAspects` finds. */
  lemma {:induction false} FirstAspectsLeftmost(text: string, from: nat, p: nat)
    requires from <= p <= |text|
    requires FirstAspects(text, from).None? || p < FirstAspects(text, from).value
    ensures AspectsAt(text, p).None?
    decreases p - from
  {
    if from < p { FirstAspectsLeftmost(text, from + 1, p); }
  }

  lemma {:induction false} FirstAspectsIs(text: string, from: nat, p: nat)
    requires from <= p <= |text| && AspectsAt(text, p).Some?
    requires forall q :: from <= q < p ==> AspectsAt(text, q).None?
    ensures FirstAspects(text, from) == Some(p)
    decreases p - from
  {
    if from < p { FirstAspectsIs(text, from + 1, p); }
  }

  predicate NotQuote(c: char) {
    c != '"' && c != '\''
  }

  /** `s.replace(/["']/g, '').trim()`. */
  function CleanAspect(s: string): string {
    Trim(Filter(s, NotQuote))
  }

  predicate NonEmpty(s: string) {
    s != []
  }

  function CleanAll(pieces: seq<string>): (r: seq<string>)
    ensures |r| == |pieces|
    ensures forall i :: 0 <= i < |r| ==> r[i] == CleanAspect(pieces[i])
  {
    seq(|pieces|, i requires 0 <= i < |pieces| => CleanAspect(pieces[i]))
  }

  /** The aspects listed in a non-empty group: split on commas, unquoted,
      trimmed, empty entries dropped. */
  function AspectsOfGroup(group: string): seq<string> {
    Filter(CleanAll(Split(group, ',')), NonEmpty)
  }

  /** The aspects read from an analysis that is not valid JSON.  An empty
      group is falsy and gives the default list like a failed match. */
  function FallbackAspects(text: string): (r: seq<string>)
    ensures FirstAspects(text, 0).None? ==> r == DefaultAspects
    ensures forall i :: 0 <= i < |r| ==> r[i] != []
  {
    match FirstAspects(text, 0)
    case None => DefaultAspects
    case Some(p) =>
      var group := AspectsAt(text, p).value;
      if group == [] then DefaultAspects else AspectsOfGroup(group)
  }

  lemma CleanAspectChars(s: string)
    ensures forall c :: c in CleanAspect(s) ==> c in s && NotQuote(c)
    ensures Trim(CleanAspect(s)) == CleanAspect(s)
  {
    FilterMembers(s, NotQuote);
    TrimChars(Filter(s, NotQuote));
    TrimTwice(Filter(s, NotQuote));
  }

  /** Read aspects are non-empty, trimmed, and hold no quote, comma or
      closing bracket; without a match the default list comes back. */
  lemma FallbackAspectsShape(text: string)
    ensures FirstAspects(text, 0).None? ==> FallbackAspects(text) == DefaultAspects
    ensures FallbackAspects(text) == DefaultAspects
            || forall i :: 0 <= i < |FallbackAspects(text)| ==>
                 var x := FallbackAspects(text)[i];
                 x != [] && Trim(x) == x && ',' !in x && ']' !in x && forall c :: c in x ==> NotQuote(c)
  {
    var r := FallbackAspects(text);
    if FirstAspects(text, 0).Some? {
      var group := AspectsAt(text, FirstAspects(text, 0).value).value;
      if group != [] {
        var pieces := Split(group, ',');
        var cleaned := CleanAll(pieces);
        FilterMembers(cleaned, NonEmpty);
        forall i | 0 <= i < |r|
          ensures r[i] != [] && Trim(r[i]) == r[i] && ',' !in r[i] && ']' !in r[i] && forall c :: c in r[i] ==> NotQuote(c)
        {
          assert r[i] in cleaned;
          var j :| 0 <= j < |cleaned| && cleaned[j] == r[i];
          CleanAspectChars(pieces[j]);
          SplitChars(group, ',', j);
        }
      }
    }
  }

  /** An aspect as it is written in the list: a space, then quoted. */
  function Quote(x: string): string {
    " \"" + x + "\""
  }

  function QuoteAll(items: seq<string>): (r: seq<string>)
    ensures |r| == |items|
    ensures forall i :: 0 <= i < |r| ==> r[i] == Quote(items[i])
  {
    seq(|items|, i requires 0 <= i < |items| => Quote(items[i]))
  }

  /** An analysis holding the list `items` after some leading text. */
  function AnalysisText(pre: string, items: seq<string>, post: string): string {
    pre + AspectsKey + "\": [" + Join(QuoteAll(items), ",") + "]" + post
  }

  /** An aspect that survives being written and read back: non-empty, no
      whitespace at either end, no comma, bracket or quote. */
  predicate PlainAspect(x: string) {
    x != [] && !IsSpace(x[0]) && !IsSpace(x[|x| - 1])
    && ',' !in x && ']' !in x && forall c :: c in x ==> NotQuote(c)
  }

  lemma CleanQuote(x: string)
    requires PlainAspect(x)
    ensures CleanAspect(Quote(x)) == x
  {
    assert Quote(x) == " \"" + x + "\"";
    FilterAppend(" \"" + x, "\"", NotQuote);
    FilterAppend(" \"", x, NotQuote);
    FilterAll(x, NotQuote);
    assert Filter(" \"", NotQuote) == " ";
    assert Filter("\"", NotQuote) == "";
    assert Filter(Quote(x), NotQuote) == " " + x;
    TrimLeadingSpace(x);
    TrimOfTrimmed(x);
  }

  /** The match at `p` when the key, separator, list and `]` sit there. */
  lemma AspectsAtIs(text: string, p: nat, group: string, post: string)
    requires p <= |text| && text[p..] == AspectsKey + "\": [" + group + "]" + post
    requires ']' !in group
    ensures AspectsAt(text, p) == Some(group)
  {
    var u := text[p..];
    var k := |AspectsKey|;
    var g := p + k + 3;
    var q := g + 1 + |group|;
    assert u[..k] == AspectsKey;
    assert text[p..p + k] == u[..k];
    assert text[p + k] == u[k] == '"';
    assert text[p + k + 1] == u[k + 1] == ':';
    assert text[p + k + 2] == u[k + 2] == ' ';
    assert text[g] == u[k + 3] == '[';
    RunEndIs(text, p + k, g, IsGapChar);
    forall i | g + 1 <= i < q ensures text[i] != ']' {
      assert text[i] == u[i - p] == group[i - g - 1];
    }
    assert text[q] == u[q - p] == ']';
    CharFromIs(text, ']', g + 1, q);
    assert text[g + 1..q] == u[k + 4..k + 4 + |group|] == group;
  }

  /** A list written as the analysis prompt asks, after text free of the
      key's first letter, reads back exactly. */
  lemma FallbackReadsList(pre: string, items: seq<string>, post: string)
    requires 'm' !in pre
    requires items != []
    requires forall i :: 0 <= i < |items| ==> PlainAspect(items[i])
    ensures FallbackAspects(AnalysisText(pre, items, post)) == items
  {
    var text := AnalysisText(pre, items, post);
    ListAt(pre, items, post);
    forall q | 0 <= q < |pre| ensures AspectsAt(text, q).None? {
      assert text[q] == pre[q];
      NoAspectsAt(text, q);
    }
    FirstAspectsIs(text, 0, |pre|);
    GroupReads(items);
  }

  /** No match starts where the text does not spell the key. */
  lemma NoAspectsAt(text: string, q: nat)
    requires q < |text| && text[q] != 'm'
    ensures AspectsAt(text, q).None?
  {
    assert q + |AspectsKey| <= |text| ==> text[q..q + |AspectsKey|][0] != AspectsKey[0];
  }

  /** The match after the leading text holds the written list. */
  lemma ListAt(pre: string, items: seq<string>, post: string)
    requires forall i :: 0 <= i < |items| ==> PlainAspect(items[i])
    ensures AspectsAt(AnalysisText(pre, items, post), |pre|) == Some(Join(QuoteAll(items), ","))
  {
    var text := AnalysisText(pre, items, post);
    var quoted := QuoteAll(items);
    var group := Join(quoted, ",");
    forall i | 0 <= i < |quoted| ensures ']' !in quoted[i] && ',' !in quoted[i] {
      assert quoted[i] == " \"" + items[i] + "\"";
    }
    JoinLacks(quoted, ",", ']');
    assert text == pre + (AspectsKey + "\": [" + group + "]" + post);
    assert text[|pre|..] == AspectsKey + "\": [" + group + "]" + post;
    AspectsAtIs(text, |pre|, group, post);
  }

  /** The written list, split, unquoted and trimmed, gives the items back. */
  lemma GroupReads(items: seq<string>)
    requires items != []
    requires forall i :: 0 <= i < |items| ==> PlainAspect(items[i])
    ensures Join(QuoteAll(items), ",") != [] && AspectsOfGroup(Join(QuoteAll(items), ",")) == items
  {
    var quoted := QuoteAll(items);
    var group := Join(quoted, ",");
    forall i | 0 <= i < |quoted| ensures ',' !in quoted[i] {
      assert quoted[i] == " \"" + items[i] + "\"";
    }
    assert group != [] by {
      if |quoted| > 1 {
        assert group == quoted[0] + "," + Join(quoted[1..], ",");
      }
    }
    JoinSplit(quoted, ',');
    assert Split(group, ',') == quoted;
    forall i | 0 <= i < |items| ensures CleanAll(quoted)[i] == items[i] {
      CleanQuote(items[i]);
    }
    assert CleanAll(quoted) == items;
    FilterAll(items, NonEmpty);
  }

  /** The list is only read from a text that contains the key; any other
      text gives the default list (`FallbackAspectsShape`). */
  lemma AspectsMatchNeedsKey(text: string)
    ensures FirstAspects(text, 0).Some? ==> Contains(text, AspectsKey)
  {
    if FirstAspects(text, 0).Some? {
      assert OccursAt(AspectsKey, text, FirstAspects(text, 0).value);
    }
  }

  // The profession named in the character's notes.

  const ProfessionKey := "职业"

  /** The label `职业` at `i`, compared character by character. */
  predicate LabelAt(s: string, i: nat) {
    i + 2 <= |s| && s[i] == '职' && s[i + 1] == '业'
  }

  /** The character test for the label is an occurrence of `ProfessionKey`. */
  lemma LabelLiteral(s: string, i: nat)
    ensures LabelAt(s, i) <==> StartsAt(s, ProfessionKey, i)
  {
    if i + 2 <= |s| {
      var w := s[i..i + 2];
      assert w[0] == s[i] && w[1] == s[i + 1];
      assert ProfessionKey == ['职', '业'];
      assert w == [w[0], w[1]];
    }
  }

  /** The class `[：:]`. */
  predicate IsProfessionSep(c: char) {
    c == '：' || c == ':'
  }

  /** The characters excluded by `[^\n.,，。]`. */
  predicate IsProfessionStop(c: char) {
    c == '\n' || c == '.' || c == ',' || c == '，' || c == '。'
  }

  /** Whitespace other than a line feed: the spacing the corrected pattern
      allows between the colon and the profession. */
  predicate IsInlineSpace(c: char) {
    IsSpace(c) && c != '\n'
  }

  /** The first stop character at or after `i`, or `|s|`. */
  function StopFrom(s: string, i: nat): (j: nat)
    requires i <= |s|
    ensures i <= j <= |s|
    ensures forall k :: i <= k < j ==> !IsProfessionStop(s[k])
    ensures j < |s| ==> IsProfessionStop(s[j])
    decreases |s| - i
  {
    if i == |s| || IsProfessionStop(s[i]) then i else StopFrom(s, i + 1)
  }

  lemma {:induction false} StopFromIs(s: string, i: nat, j: nat)
    requires i <= j <= |s|
    requires forall k :: i <= k < j ==> !IsProfessionStop(s[k])
    requires j < |s| ==> IsProfessionStop(s[j])
    ensures StopFrom(s, i) == j
    decreases j - i
  {
    if i < j { StopFromIs(s, i + 1, j); }
  }

  /** The last position in `[lo, hi)` that is not a stop character: where
      the group starts once the spacing has given characters back. */
  function LastNonStop(s: string, lo: nat, hi: nat): (r: Option<nat>)
    requires lo <= hi <= |s|
    ensures r.Some? ==> lo <= r.value < hi && !IsProfessionStop(s[r.value])
    ensures forall k :: lo <= k < hi && (r.None? || r.value < k) ==> IsProfessionStop(s[k])
    decreases hi - lo
  {
    if hi == lo then None
    else if !IsProfessionStop(s[hi - 1]) then Some(hi - 1)
    else LastNonStop(s, lo, hi - 1)
  }

  /** The group of `职业[：:]<gap>*([^\n.,，。]+)` when the pattern matches
      at `p`.  The greedy spacing run gives back characters one at a time
      until the group can take at least one character. */
  function ProfessionAt(text: string, p: nat, gap: char -> bool): (r: Option<string>)
    requires p <= |text|
    ensures r.Some? ==> LabelAt(text, p) && r.value != []
                        && forall c :: c in r.value ==> !IsProfessionStop(c)
  {
    if !LabelAt(text, p) || p + |ProfessionKey| == |text|
       || !IsProfessionSep(text[p + |ProfessionKey|]) then None
    else
      var from := p + |ProfessionKey| + 1;
      var w := RunEnd(text, from, gap);
      var v := if w < |text| && !IsProfessionStop(text[w]) then Some(w) else LastNonStop(text, from, w);
      if v.None? then None else Some(text[v.value..StopFrom(text, v.value)])
  }

  /** Whether the pattern matches at a position. */
  function ProfessionFound(text: string, gap: char -> bool): nat -> bool {
    (q: nat) => q <= |text| && ProfessionAt(text, q, gap).Some?
  }

  /** The leftmost position at or after `from` where the pattern matches. */
  function FirstProfession(text: string, from: nat, gap: char -> bool): (r: Option<nat>)
    requires from <= |text|
    ensures r.Some? ==> from <= r.value <= |text| && ProfessionAt(text, r.value, gap).Some?
  {
    FirstFrom(ProfessionFound(text, gap), from, |text|)
  }

  /** No match starts before the one `FirstProfession` finds. */
  lemma FirstProfessionLeftmost(text: string, from: nat, p: nat, gap: char -> bool)
    requires from <= p <= |text|
    requires FirstProfession(text, from, gap).None? || p < FirstProfession(text, from, gap).value
    ensures ProfessionAt(text, p, gap).None?
  {
    assert !ProfessionFound(text, gap)(p);
  }

  lemma FirstProfessionIs(text: string, from: nat, p: nat, gap: char -> bool)
    requires from <= p <= |text| && ProfessionAt(text, p, gap).Some?
    requires forall q :: from <= q < p ==> ProfessionAt(text, q, gap).None?
    ensures FirstProfession(text, from, gap) == Some(p)
  {
    var found := ProfessionFound(text, gap);
    forall q | from <= q < p ensures !found(q) {
      assert ProfessionAt(text, q, gap).None?;
    }
    assert found(p);
    FirstFromIs(found, from, p, |text|);
  }

  /** The trimmed group of the first match, or `''` without one. */
  function Profession(info: string, gap: char -> bool): string {
    match FirstProfession(info, 0, gap)
    case None => ""
    case Some(p) => Trim(ProfessionAt(info, p, gap).value)
  }

  /** The profession as the notes are read: the spacing after the colon is
      `\s*`, which also crosses line breaks. */
  function ProfessionAsWritten(info: string): (r: string)
    ensures Trim(r) == r && forall c :: c in r ==> !IsProfessionStop(c)
    ensures r != "" ==> Occurs(ProfessionKey, info)
  {
    ProfessionShape(info, IsSpace);
    ProfessionNeedsLabel(info, IsSpace);
    Profession(info, IsSpace)
  }

  /** The profession read from the line of its label only. */
  function ProfessionOnLine(info: string): (r: string)
    ensures Trim(r) == r && forall c :: c in r ==> !IsProfessionStop(c)
    ensures r != "" ==> Occurs(ProfessionKey, info)
  {
    ProfessionShape(info, IsInlineSpace);
    ProfessionNeedsLabel(info, IsInlineSpace);
    Profession(info, IsInlineSpace)
  }

  /** A profession is only read from notes that spell the label. */
  lemma ProfessionNeedsLabel(info: string, gap: char -> bool)
    ensures Profession(info, gap) != "" ==> Occurs(ProfessionKey, info)
  {
    var f := FirstProfession(info, 0, gap);
    if f.Some? {
      LabelLiteral(info, f.value);
      assert OccursAt(ProfessionKey, info, f.value);
    }
  }

  /** A profession holds no stop character and no surrounding whitespace. */
  lemma ProfessionShape(info: string, gap: char -> bool)
    ensures var r := Profession(info, gap);
            Trim(r) == r && forall c :: c in r ==> !IsProfessionStop(c)
  {
    var f := FirstProfession(info, 0, gap);
    if f.Some? {
      var g := ProfessionAt(info, f.value, gap).value;
      TrimChars(g);
      TrimTwice(g);
    }
  }

  /** Notes of the form `<pre>职业：<spacing><profession><post>` give back
      the profession, when nothing before names a profession and the
      profession ends at a stop character or at the end. */
  lemma ProfessionReads(pre: string, sep: char, spacing: string, prof: string, post: string,
                        gap: char -> bool)
    requires '职' !in pre && IsProfessionSep(sep)
    requires forall k :: 0 <= k < |spacing| ==> gap(spacing[k])
    requires prof != [] && !gap(prof[0]) && !IsSpace(prof[0]) && !IsSpace(prof[|prof| - 1])
    requires forall c :: c in prof ==> !IsProfessionStop(c)
    requires post == [] || IsProfessionStop(post[0])
    ensures Profession(pre + ProfessionKey + [sep] + spacing + prof + post, gap) == prof
  {
    var text := pre + ProfessionKey + [sep] + spacing + prof + post;
    var p := |pre|;
    LabelReads(pre, sep, spacing, prof, post, gap);
    forall q | 0 <= q < p ensures ProfessionAt(text, q, gap).None? {
      assert text[q] == pre[q];
      NoProfessionAt(text, q, gap);
    }
    FirstProfessionIs(text, 0, p, gap);
    TrimOfTrimmed(prof);
  }

  /** The match at the label reads the profession. */
  lemma LabelReads(pre: string, sep: char, spacing: string, prof: string, post: string,
                   gap: char -> bool)
    requires IsProfessionSep(sep)
    requires forall k :: 0 <= k < |spacing| ==> gap(spacing[k])
    requires prof != [] && !gap(prof[0])
    requires forall c :: c in prof ==> !IsProfessionStop(c)
    requires post == [] || IsProfessionStop(post[0])
    ensures var text := pre + ProfessionKey + [sep] + spacing + prof + post;
            ProfessionAt(text, |pre|, gap) == Some(prof)
  {
    var text := pre + ProfessionKey + [sep] + spacing + prof + post;
    var p := |pre|;
    var from := p + |ProfessionKey| + 1;
    var w := from + |spacing|;
    var e := w + |prof|;
    assert text[p] == '职' && text[p + 1] == '业' && text[p + |ProfessionKey|] == sep;
    forall k | from <= k < w ensures gap(text[k]) {
      assert text[k] == spacing[k - from];
    }
    assert text[w] == prof[0];
    RunEndIs(text, from, w, gap);
    forall k | w <= k < e ensures !IsProfessionStop(text[k]) {
      assert text[k] == prof[k - w];
    }
    if e < |text| {
      assert text[e] == post[0];
    }
    StopFromIs(text, w, e);
    assert text[w..e] == prof;
  }

  /** As written, a profession label left blank takes the next line as the
      profession: `\s*` runs over the line feed. */
  lemma BlankProfessionTakesNextLine(pre: string, sep: char, line: string, post: string)
    requires '职' !in pre && IsProfessionSep(sep)
    requires line != [] && !IsSpace(line[0]) && !IsSpace(line[|line| - 1])
    requires forall c :: c in line ==> !IsProfessionStop(c)
    requires post == [] || IsProfessionStop(post[0])
    ensures ProfessionAsWritten(pre + ProfessionKey + [sep] + "\n" + line + post) == line
  {
    ProfessionReads(pre, sep, "\n", line, post, IsSpace);
  }

  /** No match starts where the text does not spell the label. */
  lemma NoProfessionAt(text: string, q: nat, gap: char -> bool)
    requires q < |text| && text[q] != '职'
    ensures ProfessionAt(text, q, gap).None?
  {
  }

  /** A label followed by a line feed or the end matches nothing on its line. */
  lemma BlankLabelAt(text: string, p: nat)
    requires p + |ProfessionKey| + 1 <= |text|
    requires var from := p + |ProfessionKey| + 1; from == |text| || text[from] == '\n'
    ensures ProfessionAt(text, p, IsInlineSpace).None?
  {
    var from := p + |ProfessionKey| + 1;
    assert RunEnd(text, from, IsInlineSpace) == from;
  }

  /** Read on its own line, a blank profession label gives no profession. */
  lemma BlankProfessionStaysBlank(pre: string, sep: char, rest: string)
    requires '职' !in pre && '职' !in rest && IsProfessionSep(sep)
    requires rest == [] || rest[0] == '\n'
    ensures ProfessionOnLine(pre + ProfessionKey + [sep] + rest) == ""
  {
    var text := pre + ProfessionKey + [sep] + rest;
    var p := |pre|;
    if rest != [] {
      assert text[p + |ProfessionKey| + 1] == rest[0];
    }
    BlankLabelAt(text, p);
    forall q | 0 <= q < |text| && q != p ensures ProfessionAt(text, q, IsInlineSpace).None? {
      if q < p {
        assert text[q] == pre[q];
      } else if q == p + 1 {
        assert text[q] == '业';
      } else if q == p + 2 {
        assert text[q] == sep;
      } else {
        assert text[q] == rest[q - p - 3];
      }
      NoProfessionAt(text, q, IsInlineSpace);
    }
  }
}
