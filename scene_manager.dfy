/** Scene ordering in src/components/SceneManager.tsx: the sorted view, the
    delete that closes the gap in the numbering, the drag-and-drop move, the
    participant names line, the participant checkbox and the create guard.
    Every operation builds a new scene list that the caller stores with
    `updateScript`. */
module SceneManager {
  import opened Wrappers
  import opened Strings
  import opened Seqs
  import opened StableSort
  import opened Types

  function Order(s: Scene): int { s.order }

  /** The orders are exactly 0 .. n-1, each once. */
  ghost predicate OrdersArePermutation(scenes: seq<Scene>) {
    (forall i :: 0 <= i < |scenes| ==> 0 <= scenes[i].order < |scenes|)
    && (forall i, j :: 0 <= i < j < |scenes| ==> scenes[i].order != scenes[j].order)
  }

  ghost predicate UniqueIds(scenes: seq<Scene>) {
    forall i, j :: 0 <= i < j < |scenes| ==> scenes[i].id != scenes[j].id
  }

  /** `sortedScenes`: a sorted copy, ascending by `order`, ties in stored
      order; the stored list is left as it is. */
  function SortedScenes(scenes: seq<Scene>): (r: seq<Scene>)
    ensures multiset(r) == multiset(scenes)
    ensures forall i, j :: 0 <= i < j < |r| ==> r[i].order <= r[j].order
    ensures forall k :: WithKey(r, Order, k) == WithKey(scenes, Order, k)
  {
    var r := Sort(scenes, Order);
    forall k ensures WithKey(r, Order, k) == WithKey(scenes, Order, k) {
      SortStable(scenes, Order, k);
    }
    r
  }

  lemma StrictGap(r: seq<Scene>, i: nat, j: nat)
    requires forall a, b :: 0 <= a < b < |r| ==> r[a].order < r[b].order
    requires i <= j < |r|
    ensures r[j].order - r[i].order >= j - i
    decreases j - i
  {
    if i < j { StrictGap(r, i + 1, j); }
  }

  /** With orders 0 .. n-1, the scene shown at position i has order i. */
  lemma SortedPositionIsOrder(scenes: seq<Scene>)
    requires OrdersArePermutation(scenes)
    ensures forall i :: 0 <= i < |scenes| ==> SortedScenes(scenes)[i].order == i
  {
    var r := SortedScenes(scenes);
    SortedOrdersInRange(scenes);
    SortedOrdersStrict(scenes);
    forall i | 0 <= i < |r| ensures r[i].order == i {
      StrictGap(r, 0, i);
      StrictGap(r, i, |r| - 1);
    }
  }

  /** The sorted copy keeps the orders 0 .. n-1. */
  lemma SortedOrdersInRange(scenes: seq<Scene>)
    requires OrdersArePermutation(scenes)
    ensures var r := SortedScenes(scenes);
            |r| == |scenes| && forall a :: 0 <= a < |r| ==> 0 <= r[a].order < |r|
  {
    var r := SortedScenes(scenes);
    assert |r| == |scenes| by {
      assert |multiset(r)| == |multiset(scenes)|;
    }
    forall a | 0 <= a < |r| ensures 0 <= r[a].order < |r| {
      assert r[a] in multiset(scenes);
      var a' :| 0 <= a' < |scenes| && scenes[a'] == r[a];
    }
  }

  /** Scenes with distinct orders are distinct, and so are their sorted
      copies. */
  lemma SortedDistinct(scenes: seq<Scene>)
    requires OrdersArePermutation(scenes)
    ensures Distinct(SortedScenes(scenes))
  {
    assert Distinct(scenes) by {
      forall i, j | 0 <= i < j < |scenes| ensures scenes[i] != scenes[j] {
        assert scenes[i].order != scenes[j].order;
      }
    }
    DistinctPermutation(scenes, SortedScenes(scenes));
  }

  /** In the sorted copy the orders strictly increase. */
  lemma SortedOrdersStrict(scenes: seq<Scene>)
    requires OrdersArePermutation(scenes)
    ensures var r := SortedScenes(scenes);
            forall a, b :: 0 <= a < b < |r| ==> r[a].order < r[b].order
  {
    var r := SortedScenes(scenes);
    SortedDistinct(scenes);
    forall a, b | 0 <= a < b < |r| ensures r[a].order < r[b].order {
      assert r[a] in multiset(scenes) && r[b] in multiset(scenes);
      var a' :| 0 <= a' < |scenes| && scenes[a'] == r[a];
      var b' :| 0 <= b' < |scenes| && scenes[b'] == r[b];
      assert a' != b';
    }
  }

  /** Position of the first scene with id `id`, or `|scenes|`. */
  function IndexOfScene(scenes: seq<Scene>, id: string): (i: nat)
    ensures i <= |scenes|
    ensures i < |scenes| ==> scenes[i].id == id
    ensures forall j :: 0 <= j < i ==> scenes[j].id != id
  {
    if scenes == [] then 0
    else if scenes[0].id == id then 0
    else 1 + IndexOfScene(scenes[1..], id)
  }

  /** `scenes.filter(s => s.id !== id)`. */
  function WithoutId(scenes: seq<Scene>, id: string): (r: seq<Scene>)
    ensures |r| <= |scenes|
    ensures forall i :: 0 <= i < |r| ==> r[i].id != id
  {
    if scenes == [] then []
    else (if scenes[0].id == id then [] else [scenes[0]]) + WithoutId(scenes[1..], id)
  }

  lemma {:induction false} WithoutIdAppend(a: seq<Scene>, b: seq<Scene>, id: string)
    ensures WithoutId(a + b, id) == WithoutId(a, id) + WithoutId(b, id)
  {
    if a == [] {
      assert a + b == b;
    } else {
      assert (a + b)[1..] == a[1..] + b;
      WithoutIdAppend(a[1..], b, id);
    }
  }

  lemma {:induction false} WithoutAbsentId(scenes: seq<Scene>, id: string)
    requires forall i :: 0 <= i < |scenes| ==> scenes[i].id != id
    ensures WithoutId(scenes, id) == scenes
  {
    if scenes != [] { WithoutAbsentId(scenes[1..], id); }
  }

  /** The renumbering of one remaining scene after the scene with order
      `deleted` is gone. */
  function CloseGap(s: Scene, deleted: int): Scene {
    if s.order > deleted then s.(order := s.order - 1) else s
  }

  function CloseGaps(scenes: seq<Scene>, deleted: int): (r: seq<Scene>)
    ensures |r| == |scenes|
    ensures forall i :: 0 <= i < |scenes| ==> r[i] == CloseGap(scenes[i], deleted)
  {
    seq(|scenes|, i requires 0 <= i < |scenes| => CloseGap(scenes[i], deleted))
  }

  /** `handleDeleteScene`'s new list: an unknown id changes nothing;
      otherwise every scene with that id goes and the scenes ordered after
      the first of them move up by one. */
  function DeleteScene(scenes: seq<Scene>, id: string): (r: seq<Scene>)
    ensures (forall i :: 0 <= i < |scenes| ==> scenes[i].id != id) ==> r == scenes
    ensures (exists i :: 0 <= i < |scenes| && scenes[i].id == id) ==>
              |r| < |scenes| && forall i :: 0 <= i < |r| ==> r[i].id != id
  {
    var k := IndexOfScene(scenes, id);
    if k == |scenes| then scenes
    else
      var kept := WithoutId(scenes, id);
      assert |kept| < |scenes| by {
        assert scenes == scenes[..k] + [scenes[k]] + scenes[k + 1..];
        WithoutIdAppend(scenes[..k] + [scenes[k]], scenes[k + 1..], id);
        WithoutIdAppend(scenes[..k], [scenes[k]], id);
      }
      CloseGaps(kept, scenes[k].order)
  }

  lemma WithoutIdAt(scenes: seq<Scene>, k: nat)
    requires UniqueIds(scenes) && k < |scenes|
    ensures WithoutId(scenes, scenes[k].id) == scenes[..k] + scenes[k + 1..]
  {
    WithoutOnlyId(scenes, k);
  }

  lemma {:induction false} WithoutOnlyId(scenes: seq<Scene>, k: nat)
    requires k < |scenes|
    requires forall i :: 0 <= i < |scenes| && i != k ==> scenes[i].id != scenes[k].id
    ensures WithoutId(scenes, scenes[k].id) == scenes[..k] + scenes[k + 1..]
  {
    var id := scenes[k].id;
    if k == 0 {
      forall i | 0 <= i < |scenes[1..]| ensures scenes[1..][i].id != id {
        assert scenes[1..][i] == scenes[i + 1];
      }
      WithoutAbsentId(scenes[1..], id);
    } else {
      var tail := scenes[1..];
      assert tail[k - 1] == scenes[k];
      forall i | 0 <= i < |tail| && i != k - 1 ensures tail[i].id != id {
        assert tail[i] == scenes[i + 1];
      }
      WithoutOnlyId(tail, k - 1);
      assert scenes[0].id != id;
      assert [scenes[0]] + (tail[..k - 1] + tail[k..]) == scenes[..k] + scenes[k + 1..];
    }
  }

  /** With unique ids, deleting the scene at position `k` removes exactly
      that position and renumbers the rest. */
  lemma DeleteSceneAt(scenes: seq<Scene>, k: nat)
    requires UniqueIds(scenes) && k < |scenes|
    ensures DeleteScene(scenes, scenes[k].id) == CloseGaps(scenes[..k] + scenes[k + 1..], scenes[k].order)
  {
    assert IndexOfScene(scenes, scenes[k].id) == k;
    WithoutIdAt(scenes, k);
  }

  /** Closing the gap left by order `d` in orders 0 .. n gives 0 .. n-1. */
  lemma CloseGapsPermutes(rest: seq<Scene>, d: int)
    requires 0 <= d <= |rest|
    requires forall i :: 0 <= i < |rest| ==> 0 <= rest[i].order <= |rest| && rest[i].order != d
    requires forall i, j :: 0 <= i < j < |rest| ==> rest[i].order != rest[j].order && rest[i].id != rest[j].id
    ensures OrdersArePermutation(CloseGaps(rest, d)) && UniqueIds(CloseGaps(rest, d))
  {
  }

  /** Deleting keeps the orders a permutation of 0 .. n-2 and the ids unique. */
  lemma DeleteKeepsPermutation(scenes: seq<Scene>, id: string)
    requires OrdersArePermutation(scenes) && UniqueIds(scenes)
    ensures OrdersArePermutation(DeleteScene(scenes, id)) && UniqueIds(DeleteScene(scenes, id))
  {
    var k := IndexOfScene(scenes, id);
    if k < |scenes| {
      DeleteSceneAt(scenes, k);
      var rest := scenes[..k] + scenes[k + 1..];
      RemainingOrders(scenes, k, rest);
      CloseGapsPermutes(rest, scenes[k].order);
    }
  }

  /** Without the scene at `k`, the orders lie in 0 .. n-1, miss the removed
      one and stay distinct, and the ids stay distinct. */
  lemma RemainingOrders(scenes: seq<Scene>, k: nat, rest: seq<Scene>)
    requires OrdersArePermutation(scenes) && UniqueIds(scenes) && k < |scenes|
    requires rest == scenes[..k] + scenes[k + 1..]
    ensures forall i :: 0 <= i < |rest| ==> 0 <= rest[i].order <= |rest| && rest[i].order != scenes[k].order
    ensures forall i, j :: 0 <= i < j < |rest| ==> rest[i].order != rest[j].order && rest[i].id != rest[j].id
  {
    var d := scenes[k].order;
    forall i | 0 <= i < |rest| ensures rest[i] == scenes[if i < k then i else i + 1] {
    }
    forall i | 0 <= i < |rest| ensures 0 <= rest[i].order <= |rest| && rest[i].order != d {
      var i' := if i < k then i else i + 1;
      assert rest[i] == scenes[i'] && i' != k;
    }
    forall i, j | 0 <= i < j < |rest| ensures rest[i].order != rest[j].order && rest[i].id != rest[j].id {
      var i', j' := if i < k then i else i + 1, if j < k then j else j + 1;
      assert rest[i] == scenes[i'] && rest[j] == scenes[j'];
      assert i' < j';
    }
  }

  /** The new order of a scene with order `o` when the scene with order
      `src` is dropped on the one with order `tgt`. */
  function MovedOrder(o: int, src: int, tgt: int): int {
    if o == src then tgt
    else if src < tgt then (if src < o <= tgt then o - 1 else o)
    else (if tgt <= o < src then o + 1 else o)
  }

  /** Moving is a bijection of 0 .. n-1. */
  lemma MovedOrderPermutes(a: int, b: int, src: int, tgt: int, n: int)
    requires 0 <= a < n && 0 <= b < n && 0 <= src < n && 0 <= tgt < n && src != tgt
    ensures 0 <= MovedOrder(a, src, tgt) < n
    ensures a != b ==> MovedOrder(a, src, tgt) != MovedOrder(b, src, tgt)
  {
  }

  /** One scene after a drop: the dragged one takes the target's order, the
      ones in between shift by one toward the gap. */
  function Moved(s: Scene, draggedId: string, src: int, tgt: int): Scene {
    if s.id == draggedId then s.(order := tgt)
    else if src < tgt then (if s.order > src && s.order <= tgt then s.(order := s.order - 1) else s)
    else (if s.order >= tgt && s.order < src then s.(order := s.order + 1) else s)
  }

  /** `handleDrop`'s new list.  `dragged` is the remembered drag source;
      the empty string counts as none, as in the source's falsy test. */
  function Drop(scenes: seq<Scene>, dragged: Option<string>, targetId: string): (r: seq<Scene>)
    ensures |r| == |scenes|
    ensures forall i :: 0 <= i < |scenes| ==> r[i] == scenes[i].(order := r[i].order)
    ensures dragged.None? || dragged == Some("") || dragged == Some(targetId) ==> r == scenes
    ensures (dragged.Some? && ((forall i :: 0 <= i < |scenes| ==> scenes[i].id != dragged.value)
                               || (forall i :: 0 <= i < |scenes| ==> scenes[i].id != targetId))) ==> r == scenes
  {
    if dragged.None? || dragged.value == "" || dragged.value == targetId then scenes
    else
      var si := IndexOfScene(scenes, dragged.value);
      var ti := IndexOfScene(scenes, targetId);
      if si == |scenes| || ti == |scenes| then scenes
      else
        var src := scenes[si].order;
        var tgt := scenes[ti].order;
        seq(|scenes|, i requires 0 <= i < |scenes| => Moved(scenes[i], dragged.value, src, tgt))
  }

  lemma MovedOrdersPermute(scenes: seq<Scene>, r: seq<Scene>, src: int, tgt: int)
    requires OrdersArePermutation(scenes) && |r| == |scenes|
    requires 0 <= src < |scenes| && 0 <= tgt < |scenes| && src != tgt
    requires forall i :: 0 <= i < |r| ==> r[i].order == MovedOrder(scenes[i].order, src, tgt)
    ensures OrdersArePermutation(r)
  {
    forall i | 0 <= i < |r| ensures 0 <= r[i].order < |r| {
      MovedOrderPermutes(scenes[i].order, 0, src, tgt, |scenes|);
    }
    forall i, j | 0 <= i < j < |r| ensures r[i].order != r[j].order {
      MovedOrderPermutes(scenes[i].order, scenes[j].order, src, tgt, |scenes|);
    }
  }

  /** Between two different scenes of a list with unique ids, a drop
      renumbers every scene by `MovedOrder`; the dragged scene takes the
      target's old order. */
  lemma DropRenumbers(scenes: seq<Scene>, draggedId: string, targetId: string, si: nat, ti: nat)
    requires OrdersArePermutation(scenes) && UniqueIds(scenes)
    requires si < |scenes| && ti < |scenes| && scenes[si].id == draggedId && scenes[ti].id == targetId
    requires draggedId != "" && draggedId != targetId
    ensures Drop(scenes, Some(draggedId), targetId)[si].order == scenes[ti].order
    ensures forall i :: 0 <= i < |scenes| ==>
              Drop(scenes, Some(draggedId), targetId)[i].order
              == MovedOrder(scenes[i].order, scenes[si].order, scenes[ti].order)
  {
    var r := Drop(scenes, Some(draggedId), targetId);
    assert IndexOfScene(scenes, draggedId) == si;
    assert IndexOfScene(scenes, targetId) == ti;
    var src, tgt := scenes[si].order, scenes[ti].order;
    forall i | 0 <= i < |scenes| ensures r[i].order == MovedOrder(scenes[i].order, src, tgt) {
      assert r[i] == Moved(scenes[i], draggedId, src, tgt);
      if i != si {
        assert scenes[i].id != draggedId;
        assert scenes[i].order != src;
      }
    }
  }

  /** A drop between two different scenes of a well-numbered list keeps the
      numbering a permutation and the ids unique. */
  lemma DropKeepsPermutation(scenes: seq<Scene>, draggedId: string, targetId: string, si: nat, ti: nat)
    requires OrdersArePermutation(scenes) && UniqueIds(scenes)
    requires si < |scenes| && ti < |scenes| && scenes[si].id == draggedId && scenes[ti].id == targetId
    requires draggedId != "" && draggedId != targetId
    ensures OrdersArePermutation(Drop(scenes, Some(draggedId), targetId))
    ensures UniqueIds(Drop(scenes, Some(draggedId), targetId))
  {
    var r := Drop(scenes, Some(draggedId), targetId);
    DropRenumbers(scenes, draggedId, targetId, si, ti);
    assert si != ti;
    MovedOrdersPermute(scenes, r, scenes[si].order, scenes[ti].order);
    DropKeepsIds(scenes, Some(draggedId), targetId);
  }

  /** Any drop keeps every scene's id where it was, so unique ids stay
      unique. */
  lemma DropKeepsIds(scenes: seq<Scene>, dragged: Option<string>, targetId: string)
    requires UniqueIds(scenes)
    ensures UniqueIds(Drop(scenes, dragged, targetId))
  {
    var r := Drop(scenes, dragged, targetId);
    assert forall i :: 0 <= i < |r| ==> r[i].id == scenes[i].id;
  }

  /** After such a drop the dragged scene is shown at the target's old
      position. */
  lemma DropShowsDraggedAtTarget(scenes: seq<Scene>, draggedId: string, targetId: string, si: nat, ti: nat)
    requires OrdersArePermutation(scenes) && UniqueIds(scenes)
    requires si < |scenes| && ti < |scenes| && scenes[si].id == draggedId && scenes[ti].id == targetId
    requires draggedId != "" && draggedId != targetId
    ensures SortedScenes(Drop(scenes, Some(draggedId), targetId))[scenes[ti].order].id == draggedId
  {
    var r := Drop(scenes, Some(draggedId), targetId);
    DropKeepsPermutation(scenes, draggedId, targetId, si, ti);
    DropRenumbers(scenes, draggedId, targetId, si, ti);
    ShownAtOrder(r, si);
  }

  /** With orders 0..n-1, each scene is displayed at the position of its
      order. */
  lemma ShownAtOrder(scenes: seq<Scene>, x: nat)
    requires OrdersArePermutation(scenes) && x < |scenes|
    ensures SortedScenes(scenes)[scenes[x].order] == scenes[x]
  {
    SortedPositionIsOrder(scenes);
    var shown := SortedScenes(scenes);
    var t := scenes[x].order;
    assert shown[t] in multiset(scenes);
    var j :| 0 <= j < |scenes| && scenes[j] == shown[t];
    assert scenes[j].order == t;
  }

  /** `getCharacterNames`: each id's character name, `未知角色` for an id
      that does not resolve or a blank name, joined with `、`; `无角色` for
      no ids. */
  function NameOf(characters: seq<Character>, id: string): string {
    var c := FindCharacter(characters, id);
    if c.Some? && c.value.name != "" then c.value.name else "未知角色"
  }

  function NamesOf(characters: seq<Character>, ids: seq<string>): (r: seq<string>)
    ensures |r| == |ids|
    ensures forall i :: 0 <= i < |ids| ==> r[i] == NameOf(characters, ids[i])
  {
    seq(|ids|, i requires 0 <= i < |ids| => NameOf(characters, ids[i]))
  }

  function CharacterNames(characters: seq<Character>, ids: seq<string>): (r: string)
    ensures ids == [] ==> r == "无角色"
    ensures forall i :: 0 <= i < |ids| ==> Occurs(NameOf(characters, ids[i]), r)
  {
    if ids == [] then "无角色"
    else
      JoinContainsAll(NamesOf(characters, ids), "、");
      Join(NamesOf(characters, ids), "、")
  }

  /** When no name contains `、`, the line splits back into one name per
      id, in order. */
  lemma CharacterNamesSplit(characters: seq<Character>, ids: seq<string>)
    requires ids != []
    requires forall i :: 0 <= i < |characters| ==> '、' !in characters[i].name
    ensures Split(CharacterNames(characters, ids), '、') == NamesOf(characters, ids)
    ensures forall i :: 0 <= i < |ids| ==>
              (FindCharacter(characters, ids[i]).None? ==> Split(CharacterNames(characters, ids), '、')[i] == "未知角色")
  {
    var names := NamesOf(characters, ids);
    forall i | 0 <= i < |names| ensures '、' !in names[i] {
      var c := FindCharacter(characters, ids[i]);
      if c.Some? && c.value.name != "" {
        var j :| 0 <= j < |characters| && characters[j] == c.value;
      }
    }
    JoinSplit(names, '、');
  }

  /** The participant checkbox: checking appends the id, unchecking removes
      every copy of it. */
  function ToggleParticipant(selected: seq<string>, id: string, checked: bool): (r: seq<string>)
    ensures checked ==> r == selected + [id]
    ensures !checked ==> id !in r && forall x :: x in selected && x != id ==> x in r
    ensures !checked ==> forall x :: x in r ==> x in selected
  {
    if checked then selected + [id]
    else
      var r := Filter(selected, x => x != id);
      FilterMembers(selected, x => x != id);
      r
  }

  /** `handleCreateScene` adds a scene only when the title has a
      non-whitespace character. */
  predicate MayCreateScene(title: string) {
    Trim(title) != ""
  }

  lemma MayCreateSceneIff(title: string)
    ensures MayCreateScene(title) <==> exists k :: 0 <= k < |title| && !IsSpace(title[k])
  {
    TrimEmptyIff(title);
  }
}
