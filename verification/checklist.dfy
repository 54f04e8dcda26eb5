/**
 * The data behind the scene form's checklist: the scene's tag ids, the
 * template tags not yet on the scene (`filter_out_ids`), their order by
 * name, and the tag ids a submission sends (`send_tags`).
 */
module Checklist {
  import opened StringOrder

  /** One checkbox of the form: the tag id it stands for and its text. */
  datatype TagBox = TagBox(id: int, name: string)

  predicate NoDuplicates(s: seq<int>)
  {
    forall i, j :: 0 <= i < j < |s| ==> s[i] != s[j]
  }

  /** No two boxes stand for the same tag id. */
  predicate DistinctIds(boxes: seq<TagBox>)
  {
    forall i, j :: 0 <= i < j < |boxes| ==> boxes[i].id != boxes[j].id
  }

  /**
   * The keys of the scene's tag dictionary, built from the tag ids of the
   * scene response in order: a repeated id keeps its first position.
   */
  function SceneTagKeys(ids: seq<int>): (r: seq<int>)
    ensures NoDuplicates(r)
    ensures forall x :: x in r <==> x in ids
    ensures |r| <= |ids|
  {
    if ids == [] then []
    else
      var keys := SceneTagKeys(ids[..|ids| - 1]);
      var last := ids[|ids| - 1];
      assert forall x :: x in ids <==> x in ids[..|ids| - 1] || x == last;
      if last in keys then keys else keys + [last]
  }

  /**
   * `filter_out_ids`: the template entries whose id is not a key of the
   * scene's tag dictionary; names are carried over, so the result is a
   * sub-map of the template.
   */
  function FilterOutIds(template: map<int, string>, sceneTagIds: seq<int>): (r: map<int, string>)
    ensures forall k :: k in r <==> k in template && k !in sceneTagIds
    ensures forall k :: k in r ==> r[k] == template[k]
  {
    map k | k in template && k !in sceneTagIds :: template[k]
  }

  /** Descending by name: no box has a name greater than an earlier box's. */
  predicate SortedDesc(boxes: seq<TagBox>)
  {
    forall i, j :: 0 <= i < j < |boxes| ==> !Less(boxes[i].name, boxes[j].name)
  }

  /** `boxes` holds every entry of `m` exactly once, as (id, name). */
  predicate Enumerates(boxes: seq<TagBox>, m: map<int, string>)
  {
    && DistinctIds(boxes)
    && (forall i :: 0 <= i < |boxes| ==> boxes[i].id in m && m[boxes[i].id] == boxes[i].name)
    && (forall k :: k in m ==> exists i :: 0 <= i < |boxes| && boxes[i].id == k)
  }

  /**
   * Inserting `x` after every box whose name is not less than its own and
   * before the rest keeps a descending sequence descending.
   */
  lemma InsertKeepsSorted(boxes: seq<TagBox>, x: TagBox, j: nat)
    requires SortedDesc(boxes) && j <= |boxes|
    requires forall i :: 0 <= i < j ==> !Less(boxes[i].name, x.name)
    requires j < |boxes| ==> Less(boxes[j].name, x.name)
    ensures SortedDesc(boxes[..j] + [x] + boxes[j..])
  {
    var r := boxes[..j] + [x] + boxes[j..];
    assert forall i :: 0 <= i < |r| ==> r[i] == if i < j then boxes[i] else if i == j then x else boxes[i - 1];
    forall i, k | 0 <= i < k < |r|
      ensures !Less(r[i].name, r[k].name)
    {
      if i == j {
        var b := boxes[k - 1];
        // b is not above boxes[j], which is below x
        if k - 1 > j {
          LessTotal(boxes[j].name, b.name);
          if Less(b.name, boxes[j].name) {
            LessTransitive(b.name, boxes[j].name, x.name);
          }
        }
        LessAsymmetric(b.name, x.name);
      }
    }
  }

  /**
   * One insertion step of the sort: `x` goes after every box whose name is
   * not less than its own, so a descending sequence stays descending.
   */
  method InsertByName(boxes: seq<TagBox>, x: TagBox) returns (r: seq<TagBox>, j: nat)
    requires SortedDesc(boxes)
    ensures j <= |boxes| && r == boxes[..j] + [x] + boxes[j..]
    ensures SortedDesc(r)
  {
    j := 0;
    while j < |boxes| && !Less(boxes[j].name, x.name)
      invariant 0 <= j <= |boxes|
      invariant forall i :: 0 <= i < j ==> !Less(boxes[i].name, x.name)
    {
      j := j + 1;
    }
    InsertKeepsSorted(boxes, x, j);
    r := boxes[..j] + [x] + boxes[j..];
  }

  /**
   * The sort's progress: `boxes` enumerates exactly
   * the entries of `m` whose ids are no longer in `rest`.
   */
  predicate SortProgress(boxes: seq<TagBox>, m: map<int, string>, rest: set<int>)
  {
    && rest <= m.Keys
    && DistinctIds(boxes)
    && (forall i :: 0 <= i < |boxes| ==> boxes[i].id in m && boxes[i].id !in rest && m[boxes[i].id] == boxes[i].name)
    && (forall k :: k in m ==> k in rest || exists i :: 0 <= i < |boxes| && boxes[i].id == k)
  }

  /** Inserting a not-yet-sorted entry, at any position, makes progress. */
  lemma InsertionProgresses(before: seq<TagBox>, m: map<int, string>, rest: set<int>, k: int, j: nat)
    requires SortProgress(before, m, rest) && k in rest && j <= |before|
    ensures SortProgress(before[..j] + [TagBox(k, m[k])] + before[j..], m, rest - {k})
  {
    var x := TagBox(k, m[k]);
    var boxes := before[..j] + [x] + before[j..];
    var rest' := rest - {k};
    assert DistinctIds(boxes) by {
      forall a, b | 0 <= a < b < |boxes|
        ensures boxes[a].id != boxes[b].id
      {
        if a == j {
          assert before[b - 1].id !in rest;
        } else if b == j {
          assert before[a].id !in rest;
        } else {
          var a', b' := if a < j then a else a - 1, if b < j then b else b - 1;
          assert boxes[a] == before[a'] && boxes[b] == before[b'];
        }
      }
    }
    assert forall i :: 0 <= i < |boxes| ==> boxes[i].id in m && boxes[i].id !in rest' && m[boxes[i].id] == boxes[i].name by {
      forall i | 0 <= i < |boxes|
        ensures boxes[i].id in m && boxes[i].id !in rest' && m[boxes[i].id] == boxes[i].name
      {
        if i != j {
          var i' := if i < j then i else i - 1;
          assert boxes[i] == before[i'];
        }
      }
    }
    assert forall k' :: k' in m ==> k' in rest' || exists i :: 0 <= i < |boxes| && boxes[i].id == k' by {
      forall k' | k' in m
        ensures k' in rest' || exists i :: 0 <= i < |boxes| && boxes[i].id == k'
      {
        if k' == k {
          assert boxes[j].id == k';
        } else if k' !in rest {
          var i :| 0 <= i < |before| && before[i].id == k';
          if i < j { assert boxes[i].id == k'; } else { assert boxes[i + 1].id == k'; }
        }
      }
    }
  }

  /**
   * `sorted(..., key=name, reverse=True)` over the filtered entries: every
   * entry once, in descending name order. Which of two equal names comes
   * first is not fixed.
   */
  method SortByNameDesc(m: map<int, string>) returns (boxes: seq<TagBox>)
    ensures Enumerates(boxes, m)
    ensures SortedDesc(boxes)
  {
    var rest := m.Keys;
    boxes := [];
    while rest != {}
      invariant SortProgress(boxes, m, rest) && SortedDesc(boxes)
      decreases |rest|
    {
      if !exists id :: id in rest {
        assert false;  // rest is not empty
      }
      var k :| k in rest;
      ghost var before := boxes;
      var j;
      boxes, j := InsertByName(boxes, TagBox(k, m[k]));
      InsertionProgresses(before, m, rest, k, j);
      rest := rest - {k};
    }
  }

  /** The ids of the ticked boxes, in box order (the loop of `send_tags`). */
  function TickedIds(boxes: seq<TagBox>, ticked: set<int>): seq<int>
  {
    if boxes == [] then []
    else
      var last := boxes[|boxes| - 1];
      TickedIds(boxes[..|boxes| - 1], ticked) + (if last.id in ticked then [last.id] else [])
  }

  /** The ticked ids are exactly the ids of the boxes that are ticked, each once. */
  lemma {:induction false} TickedIdsContents(boxes: seq<TagBox>, ticked: set<int>)
    requires DistinctIds(boxes)
    ensures NoDuplicates(TickedIds(boxes, ticked))
    ensures forall x :: x in TickedIds(boxes, ticked) <==>
                        x in ticked && exists i :: 0 <= i < |boxes| && boxes[i].id == x
  {
    if boxes != [] {
      var n := |boxes| - 1;
      var init := boxes[..n];
      assert forall i :: 0 <= i < |init| ==> init[i] == boxes[i];
      TickedIdsContents(init, ticked);
      forall x | x in TickedIds(init, ticked)
        ensures x != boxes[n].id
      {
        var i :| 0 <= i < |init| && init[i].id == x;
      }
    }
  }

  /**
   * The tag ids a submission sends: the scene's ids followed by the ticked
   * boxes' ids. When no box stands for a tag already on the scene, no id
   * is sent twice, and the ids sent are the scene's and the ticked boxes'.
   */
  lemma SentIds(sceneTagIds: seq<int>, boxes: seq<TagBox>, ticked: set<int>)
    requires NoDuplicates(sceneTagIds) && DistinctIds(boxes)
    requires forall i :: 0 <= i < |boxes| ==> boxes[i].id !in sceneTagIds
    ensures NoDuplicates(sceneTagIds + TickedIds(boxes, ticked))
    ensures forall x :: x in sceneTagIds + TickedIds(boxes, ticked) <==>
                        x in sceneTagIds || (x in ticked && exists i :: 0 <= i < |boxes| && boxes[i].id == x)
  {
    TickedIdsContents(boxes, ticked);
    var t := TickedIds(boxes, ticked);
    var s := sceneTagIds + t;
    forall i, j | 0 <= i < j < |s|
      ensures s[i] != s[j]
    {
      if j >= |sceneTagIds| {
        var x := t[j - |sceneTagIds|];
        assert x in t;
        var b :| 0 <= b < |boxes| && boxes[b].id == x;
        if i < |sceneTagIds| {
          assert s[i] in sceneTagIds;
        } else {
          assert s[i] == t[i - |sceneTagIds|];
        }
      }
    }
  }
}
