/** The JavaScript string operations the application relies on: `\s`, `\w`,
    `toLowerCase`, `trim`, `includes`, `split` and `join`.  A `char` stands
    for one UTF-16 code unit, which is what JavaScript's `length`, indexing
    and regular expressions without the `u` flag work on. */
module Strings {

  /** JavaScript's `\s` (and the set `trim` removes): WhiteSpace and
      LineTerminator of ECMAScript. */
  predicate IsSpace(c: char) {
    c == '\t' || c == '\n' || c == '\U{000B}' || c == '\U{000C}' || c == '\r' || c == ' '
    || c == '\U{00A0}' || c == '\U{1680}' || ('\U{2000}' <= c <= '\U{200A}')
    || c == '\U{2028}' || c == '\U{2029}' || c == '\U{202F}' || c == '\U{205F}'
    || c == '\U{3000}' || c == '\U{FEFF}'
  }

  /** JavaScript's `\w` without the `u` flag: ASCII letters, digits and `_`. */
  predicate IsWordChar(c: char) {
    ('a' <= c <= 'z') || ('A' <= c <= 'Z') || ('0' <= c <= '9') || c == '_'
  }

  /** JavaScript's `\d`: the ASCII digits. */
  predicate IsDigit(c: char) {
    '0' <= c <= '9'
  }

  /** The decimal digit for `d`. */
  function DigitChar(d: nat): (c: char)
    requires d < 10
    ensures IsDigit(c) && c as int - '0' as int == d
  {
    ('0' as int + d) as char
  }

  /** `String(n)` for a non-negative integer: its decimal digits. */
  function NatToString(n: nat): (r: string)
    ensures r != [] && forall i :: 0 <= i < |r| ==> IsDigit(r[i])
    decreases n
  {
    if n < 10 then [DigitChar(n)] else NatToString(n / 10) + [DigitChar(n % 10)]
  }

  /** The number a string of decimal digits denotes. */
  function DigitsValue(s: string): nat
    requires forall i :: 0 <= i < |s| ==> IsDigit(s[i])
  {
    if s == [] then 0
    else
      assert IsDigit(s[|s| - 1]);
      DigitsValue(s[..|s| - 1]) * 10 + (s[|s| - 1] as int - '0' as int)
  }

  /** Reading the digits back gives the number. */
  lemma {:induction false} NatToStringValue(n: nat)
    ensures DigitsValue(NatToString(n)) == n
    decreases n
  {
    if n >= 10 {
      var r := NatToString(n);
      assert r[..|r| - 1] == NatToString(n / 10);
      NatToStringValue(n / 10);
    }
  }

  /** `String(i)` for any integer. */
  function IntToString(i: int): string {
    if i < 0 then "-" + NatToString(-i) else NatToString(i)
  }

  /** `toLowerCase` on one code unit; only the ASCII letters are mapped. */
  function LowerChar(c: char): char {
    if 'A' <= c <= 'Z' then (c as int + 32) as char else c
  }

  lemma LowerCharNotUpper(c: char)
    ensures !('A' <= LowerChar(c) <= 'Z')
  {
  }

  function Lower(s: string): (r: string)
    ensures |r| == |s|
    ensures forall i :: 0 <= i < |s| ==> r[i] == LowerChar(s[i])
  {
    if s == [] then [] else [LowerChar(s[0])] + Lower(s[1..])
  }

  lemma {:induction false} LowerAppend(a: string, b: string)
    ensures Lower(a + b) == Lower(a) + Lower(b)
  {
    var l, r := Lower(a + b), Lower(a) + Lower(b);
    assert |l| == |r|;
    forall i | 0 <= i < |l| ensures l[i] == r[i] {
      if i < |a| { assert (a + b)[i] == a[i]; } else { assert (a + b)[i] == b[i - |a|]; }
    }
  }

  predicate StartsWith(s: string, prefix: string) {
    |prefix| <= |s| && s[..|prefix|] == prefix
  }

  /** `needle` occurs in `hay` at position `i`. */
  ghost predicate OccursAt(needle: string, hay: string, i: int) {
    0 <= i <= |hay| - |needle| && hay[i..i + |needle|] == needle
  }

  /** `needle` occurs in `hay` at some position. */
  ghost predicate Occurs(needle: string, hay: string) {
    exists i :: OccursAt(needle, hay, i)
  }

  /** `hay.includes(needle)`. */
  function Contains(hay: string, needle: string): (b: bool)
    ensures b <==> Occurs(needle, hay)
    decreases |hay|
  {
    if StartsWith(hay, needle) then
      assert OccursAt(needle, hay, 0);
      true
    else if hay == [] then
      false
    else
      var rest := Contains(hay[1..], needle);
      assert rest ==> Occurs(needle, hay) by {
        if rest {
          var i :| OccursAt(needle, hay[1..], i);
          assert hay[i + 1..i + 1 + |needle|] == hay[1..][i..i + |needle|];
          assert OccursAt(needle, hay, i + 1);
        }
      }
      assert Occurs(needle, hay) ==> rest by {
        if Occurs(needle, hay) {
          var i :| OccursAt(needle, hay, i);
          assert i != 0;
          assert hay[1..][i - 1..i - 1 + |needle|] == hay[i..i + |needle|];
          assert OccursAt(needle, hay[1..], i - 1);
        }
      }
      rest
  }

  /** Any slice of a string occurs in it. */
  lemma SliceOccurs(hay: string, i: nat, j: nat)
    requires i <= j <= |hay|
    ensures Occurs(hay[i..j], hay)
  {
    assert OccursAt(hay[i..j], hay, i);
  }

  /** A string occurs in any text built around it. */
  lemma QuotedIn(x: string, before: string, after: string)
    ensures Occurs(x, before + x + after)
  {
    var hay := before + x + after;
    assert hay[|before|..|before| + |x|] == x;
    assert OccursAt(x, hay, |before|);
  }

  /** Both strings spliced into a three-part template occur in the result. */
  lemma QuotedTwice(a: string, x: string, b: string, y: string, c: string)
    ensures Occurs(x, a + x + b + y + c) && Occurs(y, a + x + b + y + c)
  {
    QuotedIn(x, a, b + y + c);
    assert a + x + b + y + c == a + x + (b + y + c);
    QuotedIn(y, a + x + b, c);
  }

  /** Nothing occurs in a shorter string. */
  lemma LongerNeverOccurs(needle: string, hay: string)
    requires |needle| > |hay|
    ensures !Occurs(needle, hay)
  {
  }

  /** A string occurs at the start of anything appended to it. */
  lemma OccursAtStart(x: string, after: string)
    ensures Occurs(x, x + after)
  {
    assert (x + after)[..|x|] == x;
    assert OccursAt(x, x + after, 0);
  }

  /** A string occurs at the end of anything it is appended to. */
  lemma OccursAtEnd(x: string, before: string)
    ensures Occurs(x, before + x)
  {
    assert (before + x)[|before|..|before| + |x|] == x;
    assert OccursAt(x, before + x, |before|);
  }

  /** An occurrence survives appending. */
  lemma OccursInPrefix(needle: string, a: string, b: string)
    requires Occurs(needle, a)
    ensures Occurs(needle, a + b)
  {
    var i :| OccursAt(needle, a, i);
    assert (a + b)[i..i + |needle|] == a[i..i + |needle|];
    assert OccursAt(needle, a + b, i);
  }

  /** An occurrence survives prepending. */
  lemma OccursInSuffix(needle: string, a: string, b: string)
    requires Occurs(needle, b)
    ensures Occurs(needle, a + b)
  {
    var i :| OccursAt(needle, b, i);
    assert (a + b)[|a| + i..|a| + i + |needle|] == b[i..i + |needle|];
    assert OccursAt(needle, a + b, |a| + i);
  }

  /** Occurrence is transitive. */
  lemma OccursTrans(x: string, y: string, z: string)
    requires Occurs(x, y) && Occurs(y, z)
    ensures Occurs(x, z)
  {
    var i :| OccursAt(x, y, i);
    var j :| OccursAt(y, z, j);
    forall k | 0 <= k < |x| ensures z[j + i + k] == x[k] {
      assert z[j..j + |y|][i + k] == y[i + k];
      assert y[i..i + |x|][k] == y[i + k];
    }
    assert z[j + i..j + i + |x|] == x;
    assert OccursAt(x, z, j + i);
  }

  /** An occurrence in a part is an occurrence in the whole. */
  lemma OccursInConcat(needle: string, a: string, b: string, c: string)
    requires Occurs(needle, b)
    ensures Occurs(needle, a + b + c)
  {
    var i :| OccursAt(needle, b, i);
    var hay := a + b + c;
    var k := |a| + i;
    assert hay[k..k + |needle|] == b[i..i + |needle|];
    assert OccursAt(needle, hay, k);
  }

  /** The leading whitespace of `s`, removed (`trimStart`). */
  function TrimStart(s: string): (r: string) {
    s[LeadingSpace(s)..]
  }

  /** The length of the leading whitespace run of `s`. */
  function LeadingSpace(s: string): (n: nat)
    ensures n <= |s|
    ensures n == |s| || !IsSpace(s[n])
    ensures forall k :: 0 <= k < n ==> IsSpace(s[k])
  {
    if s != [] && IsSpace(s[0]) then 1 + LeadingSpace(s[1..]) else 0
  }

  /** The trailing whitespace of `s`, removed (`trimEnd`). */
  function TrimEnd(s: string): (r: string)
    ensures |r| <= |s| && r == s[..|r|]
    ensures r == [] || !IsSpace(r[|r| - 1])
    ensures forall k :: |r| <= k < |s| ==> IsSpace(s[k])
  {
    if s != [] && IsSpace(s[|s| - 1]) then TrimEnd(s[..|s| - 1]) else s
  }

  /** `trim`. */
  function Trim(s: string): (r: string)
  {
    TrimEnd(TrimStart(s))
  }

  /** `trim` removes only whitespace, from both ends, and leaves no
      whitespace at either end. */
  lemma TrimShape(s: string)
    ensures var r := Trim(s);
            |r| <= |s| && (r != [] ==> !IsSpace(r[0]) && !IsSpace(r[|r| - 1]))
            && Occurs(r, s)
  {
    var n := LeadingSpace(s);
    var t := TrimStart(s);
    var r := Trim(s);
    assert t == s[n..];
    assert r == t[..|r|];
    assert OccursAt(r, s, n);
  }

  /** `s.trim()` is falsy exactly when `s` is all whitespace. */
  lemma TrimEmptyIff(s: string)
    ensures Trim(s) == [] <==> forall k :: 0 <= k < |s| ==> IsSpace(s[k])
  {
    var t := TrimStart(s);
    assert Trim(s) == [] ==> t == [] by {
      assert t == [] || !IsSpace(t[0]);
    }
  }

  /** A string with no whitespace at either end is its own trim. */
  lemma TrimOfTrimmed(s: string)
    requires s == [] || (!IsSpace(s[0]) && !IsSpace(s[|s| - 1]))
    ensures Trim(s) == s
  {
  }

  /** Every character of `s.trim()` is a character of `s`. */
  lemma TrimChars(s: string)
    ensures forall c :: c in Trim(s) ==> c in s
  {
    var t := TrimStart(s);
    var r := TrimEnd(t);
    forall c | c in r ensures c in s {
      var k :| 0 <= k < |r| && r[k] == c;
      assert t[k] == c;
      assert s[|s| - |t| + k] == c;
    }
  }

  /** Trimming twice is trimming once. */
  lemma TrimTwice(s: string)
    ensures Trim(Trim(s)) == Trim(s)
  {
    var t := TrimStart(s);
    var r := TrimEnd(t);
    if r != [] {
      assert r[0] == t[0];
      TrimOfTrimmed(r);
    }
  }

  /** A string made of whitespace around a trimmed core trims to the core. */
  lemma {:induction false} TrimAround(pre: string, core: string, post: string)
    requires forall k :: 0 <= k < |pre| ==> IsSpace(pre[k])
    requires forall k :: 0 <= k < |post| ==> IsSpace(post[k])
    requires core != [] && !IsSpace(core[0]) && !IsSpace(core[|core| - 1])
    ensures Trim(pre + core + post) == core
  {
    var s := pre + core + post;
    assert s == pre + (core + post);
    assert (core + post)[0] == core[0];
    assert TrimStart(s) == core + post by { TrimStartPrefix(pre, core + post); }
    assert TrimEnd(core + post) == core by { TrimEndSuffix(core, post); }
  }

  lemma {:induction false} TrimStartPrefix(pre: string, rest: string)
    requires forall k :: 0 <= k < |pre| ==> IsSpace(pre[k])
    requires rest != [] && !IsSpace(rest[0])
    ensures TrimStart(pre + rest) == rest
  {
    if pre != [] {
      assert (pre + rest)[1..] == pre[1..] + rest;
      TrimStartPrefix(pre[1..], rest);
    }
  }

  lemma {:induction false} TrimEndSuffix(rest: string, post: string)
    requires forall k :: 0 <= k < |post| ==> IsSpace(post[k])
    requires rest != [] && !IsSpace(rest[|rest| - 1])
    ensures TrimEnd(rest + post) == rest
  {
    if post != [] {
      var s := rest + post;
      assert s[..|s| - 1] == rest + post[..|post| - 1];
      TrimEndSuffix(rest, post[..|post| - 1]);
    } else {
      assert rest + post == rest;
    }
  }

  /** Position of the first `c` in `s`, or `|s|` when there is none. */
  function IndexOfChar(s: string, c: char): (i: nat)
    ensures i <= |s|
    ensures i < |s| ==> s[i] == c
    ensures forall k :: 0 <= k < i ==> s[k] != c
  {
    if s == [] then 0 else if s[0] == c then 0 else 1 + IndexOfChar(s[1..], c)
  }

  /** `s.split(sep)` for a one-character separator: the pieces between the
      separators, empty ones included. */
  function Split(s: string, sep: char): (r: seq<string>)
    ensures |r| >= 1
    ensures forall i :: 0 <= i < |r| ==> sep !in r[i]
    decreases |s|
  {
    var i := IndexOfChar(s, sep);
    if i == |s| then [s] else [s[..i]] + Split(s[i + 1..], sep)
  }

  /** Every character of a piece of `s` is a character of `s`. */
  lemma {:induction false} SplitChars(s: string, sep: char, j: nat)
    requires j < |Split(s, sep)|
    ensures forall c :: c in Split(s, sep)[j] ==> c in s
    decreases |s|
  {
    var i := IndexOfChar(s, sep);
    if i < |s| {
      if j == 0 {
        assert forall c :: c in s[..i] ==> c in s;
      } else {
        SplitChars(s[i + 1..], sep, j - 1);
        assert forall c :: c in s[i + 1..] ==> c in s;
      }
    }
  }

  /** `pieces.join(sep)`. */
  function Join(pieces: seq<string>, sep: string): string {
    if pieces == [] then []
    else if |pieces| == 1 then pieces[0]
    else pieces[0] + sep + Join(pieces[1..], sep)
  }

  /** Every piece of a join occurs in the joined string. */
  lemma {:induction false} JoinContainsPiece(pieces: seq<string>, sep: string, k: nat)
    requires k < |pieces|
    ensures Occurs(pieces[k], Join(pieces, sep))
  {
    if |pieces| == 1 {
      SliceOccurs(pieces[0], 0, |pieces[0]|);
      assert pieces[0][0..|pieces[0]|] == pieces[0];
    } else if k == 0 {
      SliceOccurs(pieces[0], 0, |pieces[0]|);
      assert pieces[0][0..|pieces[0]|] == pieces[0];
      OccursInConcat(pieces[0], [], pieces[0], sep + Join(pieces[1..], sep));
      assert [] + pieces[0] + (sep + Join(pieces[1..], sep)) == Join(pieces, sep);
    } else {
      JoinContainsPiece(pieces[1..], sep, k - 1);
      OccursInConcat(pieces[k], pieces[0] + sep, Join(pieces[1..], sep), []);
      assert pieces[0] + sep + Join(pieces[1..], sep) + [] == Join(pieces, sep);
    }
  }

  lemma JoinContainsAll(pieces: seq<string>, sep: string)
    ensures forall k :: 0 <= k < |pieces| ==> Occurs(pieces[k], Join(pieces, sep))
  {
    forall k | 0 <= k < |pieces| ensures Occurs(pieces[k], Join(pieces, sep)) {
      JoinContainsPiece(pieces, sep, k);
    }
  }

  /** A character in no piece and not in the separator is not in the join. */
  lemma {:induction false} JoinLacks(pieces: seq<string>, sep: string, c: char)
    requires c !in sep
    requires forall i :: 0 <= i < |pieces| ==> c !in pieces[i]
    ensures c !in Join(pieces, sep)
    decreases |pieces|
  {
    if |pieces| > 1 {
      JoinLacks(pieces[1..], sep, c);
    }
  }

  /** Splitting on a character and joining with it gives the string back. */
  lemma {:induction false} SplitJoin(s: string, sep: char)
    ensures Join(Split(s, sep), [sep]) == s
    decreases |s|
  {
    var i := IndexOfChar(s, sep);
    if i < |s| {
      var rest := Split(s[i + 1..], sep);
      var ps := [s[..i]] + rest;
      assert Split(s, sep) == ps;
      assert ps[0] == s[..i] && ps[1..] == rest;
      assert Join(ps, [sep]) == s[..i] + [sep] + Join(rest, [sep]);
      SplitJoin(s[i + 1..], sep);
      assert s == s[..i] + [sep] + s[i + 1..];
    } else {
      assert Split(s, sep) == [s];
    }
  }

  /** Joining pieces free of the separator and splitting again gives the
      pieces back. */
  lemma {:induction false} JoinSplit(pieces: seq<string>, sep: char)
    requires |pieces| >= 1
    requires forall i :: 0 <= i < |pieces| ==> sep !in pieces[i]
    ensures Split(Join(pieces, [sep]), sep) == pieces
    decreases |pieces|
  {
    var s := Join(pieces, [sep]);
    var p0 := pieces[0];
    if |pieces| == 1 {
      var i := IndexOfChar(s, sep);
      assert i == |s|;
    } else {
      var rest := Join(pieces[1..], [sep]);
      assert s == p0 + [sep] + rest;
      var i := IndexOfChar(s, sep);
      assert s[|p0|] == sep;
      assert i == |p0|;
      assert s[..i] == p0;
      assert s[i + 1..] == rest;
      JoinSplit(pieces[1..], sep);
      assert pieces == [p0] + pieces[1..];
    }
  }

  /** The position of the first whitespace character of `s`, or `|s|`. */
  function IndexOfSpace(s: string): (i: nat)
    ensures i <= |s|
    ensures i < |s| ==> IsSpace(s[i])
    ensures forall k :: 0 <= k < i ==> !IsSpace(s[k])
  {
    if s == [] then 0 else if IsSpace(s[0]) then 0 else 1 + IndexOfSpace(s[1..])
  }

  /** `s.split(/\s+/)`: the pieces between runs of whitespace, with an empty
      piece first (last) when `s` starts (ends) with whitespace. */
  function SplitWs(s: string): (r: seq<string>)
    ensures |r| >= 1
    ensures forall i, k :: 0 <= i < |r| && 0 <= k < |r[i]| ==> !IsSpace(r[i][k]) && r[i][k] in s
    decreases |s|
  {
    var i := IndexOfSpace(s);
    if i == |s| then [s]
    else
      var rest := TrimStart(s[i..]);
      [s[..i]] + SplitWs(rest)
  }

  /** The pieces of `SplitWs(s)` are `s` with its whitespace removed, in order. */
  function RemoveSpaces(s: string): (r: string)
    ensures forall k :: 0 <= k < |r| ==> !IsSpace(r[k])
  {
    if s == [] then [] else (if IsSpace(s[0]) then [] else [s[0]]) + RemoveSpaces(s[1..])
  }

  function Concat(pieces: seq<string>): string {
    if pieces == [] then [] else pieces[0] + Concat(pieces[1..])
  }

  lemma {:induction false} RemoveSpacesAppend(a: string, b: string)
    ensures RemoveSpaces(a + b) == RemoveSpaces(a) + RemoveSpaces(b)
  {
    if a != [] {
      assert (a + b)[1..] == a[1..] + b;
      RemoveSpacesAppend(a[1..], b);
    } else {
      assert a + b == b;
    }
  }

  lemma {:induction false} RemoveSpacesNoSpace(s: string)
    requires forall k :: 0 <= k < |s| ==> !IsSpace(s[k])
    ensures RemoveSpaces(s) == s
  {
    if s != [] { RemoveSpacesNoSpace(s[1..]); }
  }

  lemma {:induction false} RemoveSpacesAllSpace(s: string)
    requires forall k :: 0 <= k < |s| ==> IsSpace(s[k])
    ensures RemoveSpaces(s) == []
  {
    if s != [] { RemoveSpacesAllSpace(s[1..]); }
  }

  lemma {:induction false} RemoveSpacesTrimStart(s: string)
    ensures RemoveSpaces(TrimStart(s)) == RemoveSpaces(s)
  {
    if s != [] && IsSpace(s[0]) { RemoveSpacesTrimStart(s[1..]); }
  }

  /** Splitting on whitespace loses exactly the whitespace. */
  lemma {:induction false} SplitWsConcat(s: string)
    ensures Concat(SplitWs(s)) == RemoveSpaces(s)
    decreases |s|
  {
    var i := IndexOfSpace(s);
    if i == |s| {
      RemoveSpacesNoSpace(s);
      assert Concat([s]) == s + Concat([]);
    } else {
      var rest := TrimStart(s[i..]);
      SplitWsConcat(rest);
      assert SplitWs(s) == [s[..i]] + SplitWs(rest);
      assert Concat(SplitWs(s)) == s[..i] + Concat(SplitWs(rest));
      RemoveSpacesAtSpace(s, i);
    }
  }

  /** Removing the whitespace of `s` keeps its first word and then the rest
      with its leading whitespace trimmed. */
  lemma RemoveSpacesAtSpace(s: string, i: nat)
    requires i == IndexOfSpace(s) < |s|
    ensures RemoveSpaces(s) == s[..i] + RemoveSpaces(TrimStart(s[i..]))
  {
    RemoveSpacesTrimStart(s[i..]);
    assert s == s[..i] + s[i..];
    RemoveSpacesAppend(s[..i], s[i..]);
    RemoveSpacesNoSpace(s[..i]);
  }

  /** `s.replace(pattern, replacement)` with a string pattern: only the first
      occurrence is replaced. */
  function ReplaceFirst(s: string, pattern: string, replacement: string): (r: string)
    ensures !Occurs(pattern, s) ==> r == s
    ensures StartsWith(s, pattern) ==> r == replacement + s[|pattern|..]
    decreases |s|
  {
    if StartsWith(s, pattern) then
      assert OccursAt(pattern, s, 0);
      replacement + s[|pattern|..]
    else if s == [] then s
    else
      var rest := ReplaceFirst(s[1..], pattern, replacement);
      assert !Occurs(pattern, s) ==> !Occurs(pattern, s[1..]) by {
        if Occurs(pattern, s[1..]) {
          var i :| OccursAt(pattern, s[1..], i);
          assert s[i + 1..i + 1 + |pattern|] == s[1..][i..i + |pattern|];
          assert OccursAt(pattern, s, i + 1);
        }
      }
      [s[0]] + rest
  }
}
