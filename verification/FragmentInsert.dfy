/**
 Copying objects into a fragment and pasting a fragment on a page: the pasted objects
 come out on top, in the order they were copied in.
 */
module FragmentInsert {
  import opened CodeUnits
  import opened RealNumbers
  import opened Reordering
  import opened Wrappers
  import opened ZOrder
  import opened ZRank

  const MAX_OBJECT_COUNT := 50_000

  datatype Fragment = Fragment(objectIds: seq<Text>, objects: Objects)

  datatype Point = Point(x: real, y: real)

  datatype FragmentError =
    | TooManyObjects
    | InvalidObjectId
    | DuplicateObjectId
    | CountMismatch
    | UnreadableObject(id: Text)
    | NotInSourceOrder
    | PlacementConflict
    | InvalidTargetId(id: Text)
    | StaleTargetId(id: Text)

  // ----- fragments

  predicate AllUuids(ids: seq<Text>) {
    forall i | 0 <= i < |ids| :: StableUuid(ids[i])
  }

  /** The ids as a whole, then one by one: not a UUID, or seen before. */
  method ValidateObjectIds(ids: seq<Text>) returns (result: Result<seq<Text>, FragmentError>)
    ensures result.Ok? <==> |ids| <= MAX_OBJECT_COUNT && AllUuids(ids) && Distinct(ids)
    ensures result.Ok? ==> result.value == ids
    ensures result == Err(TooManyObjects) <==> |ids| > MAX_OBJECT_COUNT
  {
    if |ids| > MAX_OBJECT_COUNT {
      return Err(TooManyObjects);
    }
    var seen: set<Text> := {};
    for index := 0 to |ids|
      invariant AllUuids(ids[..index]) && Distinct(ids[..index])
      invariant forall id :: id in seen <==> id in ids[..index]
    {
      assert ids[..index + 1] == ids[..index] + [ids[index]];
      if !StableUuid(ids[index]) {
        return Err(InvalidObjectId);
      }
      if ids[index] in seen {
        assert !Distinct(ids) by {
          var k :| 0 <= k < index && ids[k] == ids[index];
        }
        return Err(DuplicateObjectId);
      }
      seen := seen + {ids[index]};
    }
    assert ids[..|ids|] == ids;
    return Ok(ids);
  }

  /** A fragment lists exactly its objects, all readable, from the bottom up. */
  ghost predicate WellFormed(f: Fragment) {
    |f.objectIds| <= MAX_OBJECT_COUNT && IsOrder(f.objects, f.objectIds) && forall id | id in f.objects :: id in f.objectIds
  }

  lemma {:induction false} DistinctCovers(ids: seq<Text>, keys: set<Text>)
    requires Distinct(ids) && forall i | 0 <= i < |ids| :: ids[i] in keys
    ensures |ids| <= |keys|
    ensures |ids| == |keys| <==> forall id | id in keys :: id in ids
    decreases |ids|
  {
    if ids == [] {
      if keys != {} {
        var x :| x in keys;
      }
    } else {
      DistinctCovers(ids[1..], keys - {ids[0]});
      assert ids == [ids[0]] + ids[1..];
    }
  }

  /** The fragment's objects in the listed order; accepted exactly when it is well-formed. */
  method MaterializeBoardFragment(f: Fragment) returns (result: Result<seq<Record>, FragmentError>)
    ensures result.Ok? <==> WellFormed(f)
    ensures result.Ok? ==> |result.value| == |f.objectIds| && forall i | 0 <= i < |f.objectIds| ::
      f.objectIds[i] in f.objects && result.value[i] == f.objects[f.objectIds[i]]
  {
    var ids :- ValidateIds(f);
    DistinctCoversAtMost(ids, f.objects.Keys);
    if |f.objects| != |ids| {
      if WellFormed(f) {
        CountsAgree(f);
      }
      return Err(CountMismatch);
    }
    var objects: seq<Record> := [];
    for index := 0 to |ids|
      invariant |objects| == index
      invariant forall i | 0 <= i < index :: Ranked(f.objects, ids[i]) && objects[i] == f.objects[ids[i]]
    {
      if !Ranked(f.objects, ids[index]) {
        return Err(UnreadableObject(ids[index]));
      }
      objects := objects + [f.objects[ids[index]]];
    }
    DistinctCovers(ids, f.objects.Keys);
    var canonicalIds := SortObjects(f.objects, ids);
    SortObjectsSorts(f.objects, ids);
    if canonicalIds != ids {
      assert !IsOrder(f.objects, ids) by {
        if IsOrder(f.objects, ids) {
          OrderIsUnique(f.objects, ids, canonicalIds);
        }
      }
      return Err(NotInSourceOrder);
    }
    return Ok(objects);
  }

  method ValidateIds(f: Fragment) returns (result: Result<seq<Text>, FragmentError>)
    ensures result.Err? ==> !WellFormed(f)
    ensures result.Ok? ==> result.value == f.objectIds && |f.objectIds| <= MAX_OBJECT_COUNT && Distinct(f.objectIds)
  {
    result := ValidateObjectIds(f.objectIds);
    if result.Err? && WellFormed(f) {
      SortedIsDistinct(f.objects, f.objectIds);
    }
  }

  lemma DistinctCoversAtMost(ids: seq<Text>, keys: set<Text>)
    requires Distinct(ids)
    ensures (forall i | 0 <= i < |ids| :: ids[i] in keys) ==> |ids| <= |keys|
  {
    if forall i | 0 <= i < |ids| :: ids[i] in keys {
      DistinctCovers(ids, keys);
    }
  }

  lemma CountsAgree(f: Fragment)
    requires WellFormed(f)
    ensures |f.objects| == |f.objectIds|
  {
    SortedIsDistinct(f.objects, f.objectIds);
    DistinctCovers(f.objectIds, f.objects.Keys);
    assert |f.objects| == |f.objects.Keys|;
  }

  // ----- copying

  /** A request's ids without repetitions. */
  function Unique(ids: seq<Text>): (r: seq<Text>)
    ensures Distinct(r) && forall id :: id in r <==> id in ids
  {
    if ids == [] then []
    else
      var init, last := ids[..|ids| - 1], ids[|ids| - 1];
      assert ids == init + [last];
      if last in init then Unique(init) else Unique(init) + [last]
  }

  function Restricted(page: Objects, ids: seq<Text>): Objects {
    map id | id in page && id in ids :: page[id]
  }

  lemma {:induction false} PickSorted(page: Objects, ids: seq<Text>, selected: Selection)
    requires AllRanked(page, ids) && Sorted(page, ids)
    ensures AllRanked(page, Pick(ids, selected, true)) && Sorted(page, Pick(ids, selected, true))
    decreases |ids|
  {
    if ids != [] {
      var rest := Pick(ids[1..], selected, true);
      PickSorted(page, ids[1..], selected);
      PickedAre(ids[1..], selected, true);
      forall j | 0 <= j < |rest|
        ensures Below(page, ids[0], rest[j])
      {
        assert rest[j] in ids[1..];
      }
    }
  }

  lemma SortedCopy(page: Objects, order: seq<Text>, ids: seq<Text>, selected: Selection)
    requires IsOrder(page, order) && AllRanked(page, ids) && Distinct(ids)
    requires forall id :: id in ids <==> id in selected
    ensures SortObjects(page, ids) == Pick(order, selected, true)
    ensures AllRanked(page, SortObjects(page, ids)) && Sorted(page, SortObjects(page, ids))
  {
    SortObjectsSorts(page, ids);
    PickSorted(page, order, selected);
    PickedAre(order, selected, true);
    OrderIsUnique(page, SortObjects(page, ids), Pick(order, selected, true));
  }

  lemma OrderOfPart(page: Objects, part: Objects, ids: seq<Text>)
    requires AllRanked(page, ids) && Sorted(page, ids)
    requires forall id | id in part :: id in ids
    requires forall id | id in ids :: id in part && part[id] == page[id]
    ensures IsOrder(part, ids)
  {
  }

  lemma CopyIsWellFormed(page: Objects, order: seq<Text>, objectIds: seq<Text>, ids: seq<Text>, selected: Selection, f: Fragment)
    requires IsOrder(page, order) && AllRanked(page, ids) && Distinct(ids) && |ids| <= MAX_OBJECT_COUNT
    requires forall id :: id in ids <==> id in objectIds
    requires forall id :: id in objectIds <==> id in selected
    requires f == Fragment(SortObjects(page, ids), Restricted(page, objectIds))
    ensures WellFormed(f) && f.objectIds == Pick(order, selected, true)
  {
    SortedCopy(page, order, ids, selected);
    OrderOfPart(page, f.objects, f.objectIds);
  }

  /** The copied objects, unchanged, listed in the page's z-order; the result is always well-formed. */
  method CreateBoardFragment(page: BoardPage, objectIds: seq<Text>) returns (result: Result<Fragment, FragmentError>)
    requires page.Valid()
    ensures result.Ok? ==>
      && WellFormed(result.value) && result.value.objects == Restricted(page.objects, objectIds)
      && result.value.objectIds == Pick(page.Order(), (set id | id in objectIds), true)
    ensures result.Ok? <==> |Unique(objectIds)| <= MAX_OBJECT_COUNT && forall id | id in objectIds :: Ranked(page.objects, id)
  {
    var ids := Unique(objectIds);
    RankedAreUuids(page.objects, objectIds, ids);
    var _ :- ValidateObjectIds(ids);
    var unreadable := FirstUnreadable(page.objects, ids);
    if unreadable.Some? {
      return Err(unreadable.value);
    }
    var fragment := Fragment(SortObjects(page.objects, ids), Restricted(page.objects, objectIds));
    OrderOfIsOrder(page.objects, page.entries);
    CopyIsWellFormed(page.objects, page.Order(), objectIds, ids, (set id | id in objectIds), fragment);
    return Ok(fragment);
  }

  lemma RankedAreUuids(page: Objects, objectIds: seq<Text>, ids: seq<Text>)
    requires ids == Unique(objectIds)
    ensures (forall id | id in objectIds :: Ranked(page, id)) <==> AllRanked(page, ids)
    ensures AllRanked(page, ids) ==> AllUuids(ids)
  {
  }

  method FirstUnreadable(page: Objects, ids: seq<Text>) returns (error: Option<FragmentError>)
    ensures error.None? <==> AllRanked(page, ids)
  {
    for index := 0 to |ids|
      invariant AllRanked(page, ids[..index])
    {
      assert ids[..index + 1][index] == ids[index];
      if !Ranked(page, ids[index]) {
        return Some(UnreadableObject(ids[index]));
      }
    }
    assert ids[..|ids|] == ids;
    return None;
  }

  // ----- the rank below the pasted objects

  /** The lower bound for pasted ranks, computed before the page is normalized. */
  method TargetRankPlan(lib: RankLibrary, page: Objects, ids: seq<Text>) returns (normalize: bool, lower: Option<Text>)
    requires Lawful(lib) && IsOrder(page, ids)
    ensures normalize == !GoodRanks(lib, page, ids)
    ensures forall next | NormalizedFrom(lib, page, next, ids) :: lower == LowerBound(next, ids, |ids|)
    ensures Bounds(lib, lower, None)
  {
    var duplicate := HasDuplicateRanks(page, ids);
    normalize := duplicate || exists i | 0 <= i < |ids| :: !lib.valid(page[ids[i]].rank);
    if normalize {
      var normalized := lib.between(None, None, |ids|);
      assert Bounds(lib, None, None);
      lower := if |normalized| > 0 then Some(normalized[|normalized| - 1]) else None;
    } else {
      lower := if |ids| > 0 then Some(page[ids[|ids| - 1]].rank) else None;
    }
  }

  // ----- the new ids

  predicate Fresh(page: Objects, source: seq<Text>, earlier: seq<Text>, id: Text) {
    id !in source && id !in earlier && id !in page
  }

  ghost predicate FreshIds(page: Objects, source: seq<Text>, ids: seq<Text>) {
    AllUuids(ids) && forall i | 0 <= i < |ids| :: Fresh(page, source, ids[..i], ids[i])
  }

  type IdFactory = (Text, nat) -> Text

  function Generated(factory: IdFactory, source: seq<Text>): (ids: seq<Text>)
    ensures |ids| == |source|
  {
    seq(|source|, i requires 0 <= i < |source| => factory(source[i], i))
  }

  /** Each source id is mapped to its own target id, and nothing else is. */
  ghost predicate MapsTo(bySource: map<Text, Text>, source: seq<Text>, ids: seq<Text>) {
    && |source| == |ids|
    && (forall id | id in bySource :: id in source)
    && forall i | 0 <= i < |source| :: source[i] in bySource && bySource[source[i]] == ids[i]
  }

  method GenerateTargetIds(page: Objects, source: seq<Text>, factory: IdFactory)
    returns (result: Result<seq<Text>, FragmentError>, bySource: map<Text, Text>)
    requires Distinct(source)
    ensures result.Ok? <==> FreshIds(page, source, Generated(factory, source))
    ensures result.Ok? ==> result.value == Generated(factory, source) && MapsTo(bySource, source, result.value)
  {
    ghost var all := Generated(factory, source);
    var targetIds: seq<Text> := [];
    bySource := map[];
    for index := 0 to |source|
      invariant targetIds == all[..index] && FreshIds(page, source, targetIds) && MapsTo(bySource, source[..index], targetIds)
    {
      var targetId := factory(source[index], index);
      assert all[index] == targetId;
      if !StableUuid(targetId) {
        return Err(InvalidTargetId(targetId)), bySource;
      }
      if !Fresh(page, source, targetIds, targetId) {
        return Err(StaleTargetId(targetId)), bySource;
      }
      ExtendIds(page, source, targetIds, targetId);
      bySource := bySource[source[index] := targetId];
      targetIds := targetIds + [targetId];
    }
    assert all[..|source|] == all && source[..|source|] == source;
    return Ok(targetIds), bySource;
  }

  lemma ExtendIds(page: Objects, source: seq<Text>, ids: seq<Text>, id: Text)
    requires FreshIds(page, source, ids) && StableUuid(id) && Fresh(page, source, ids, id)
    ensures FreshIds(page, source, ids + [id])
  {
  }

  // ----- bounds

  datatype Box = Box(minX: real, minY: real, maxX: real, maxY: real) {
    function Center(): Point {
      Point(minX + (maxX - minX) / 2.0, minY + (maxY - minY) / 2.0)
    }
  }

  function BoxOf(t: Transform): Box {
    Box(Min(t.x, t.x + t.width), Min(t.y, t.y + t.height), Max(t.x, t.x + t.width), Max(t.y, t.y + t.height))
  }

  /** The box of a transform lies between its two corners, in whichever order its signs put them. */
  lemma BoxIsBetweenCorners(t: Transform)
    ensures BoxOf(t).minX <= BoxOf(t).maxX && {BoxOf(t).minX, BoxOf(t).maxX} == {t.x, t.x + t.width}
    ensures BoxOf(t).minY <= BoxOf(t).maxY && {BoxOf(t).minY, BoxOf(t).maxY} == {t.y, t.y + t.height}
    ensures BoxOf(t).Center() == Point(t.x + t.width / 2.0, t.y + t.height / 2.0)
  {
  }

  predicate Contains(outer: Box, inner: Box) {
    outer.minX <= inner.minX && outer.minY <= inner.minY && inner.maxX <= outer.maxX && inner.maxY <= outer.maxY
  }

  predicate Readable(objects: seq<Record>) {
    forall i | 0 <= i < |objects| :: objects[i].Record?
  }

  predicate ContainsAll(b: Box, objects: seq<Record>)
    requires Readable(objects)
  {
    forall i | 0 <= i < |objects| :: Contains(b, BoxOf(objects[i].transform))
  }

  /** Some object reaches each side of the box. */
  predicate Reached(b: Box, objects: seq<Record>)
    requires Readable(objects)
  {
    && (exists i | 0 <= i < |objects| :: BoxOf(objects[i].transform).minX == b.minX)
    && (exists i | 0 <= i < |objects| :: BoxOf(objects[i].transform).minY == b.minY)
    && (exists i | 0 <= i < |objects| :: BoxOf(objects[i].transform).maxX == b.maxX)
    && (exists i | 0 <= i < |objects| :: BoxOf(objects[i].transform).maxY == b.maxY)
  }

  /** The box contains every object and none of its sides can be moved in. */
  predicate IsBounds(b: Box, objects: seq<Record>)
    requires Readable(objects)
  {
    ContainsAll(b, objects) && Reached(b, objects)
  }

  function Join(a: Box, b: Box): Box {
    Box(Min(a.minX, b.minX), Min(a.minY, b.minY), Max(a.maxX, b.maxX), Max(a.maxY, b.maxY))
  }

  lemma JoinContains(b: Box, objects: seq<Record>, o: Record)
    requires Readable(objects) && o.Record? && ContainsAll(b, objects)
    ensures Readable(objects + [o]) && ContainsAll(Join(b, BoxOf(o.transform)), objects + [o])
  {
  }

  lemma JoinReaches(b: Box, objects: seq<Record>, o: Record)
    requires Readable(objects) && o.Record? && Reached(b, objects)
    ensures Readable(objects + [o]) && Reached(Join(b, BoxOf(o.transform)), objects + [o])
  {
    var more, next, last := objects + [o], BoxOf(o.transform), |objects|;
    var joined := Join(b, next);
    var left :| 0 <= left < |objects| && BoxOf(objects[left].transform).minX == b.minX;
    var top :| 0 <= top < |objects| && BoxOf(objects[top].transform).minY == b.minY;
    var right :| 0 <= right < |objects| && BoxOf(objects[right].transform).maxX == b.maxX;
    var bottom :| 0 <= bottom < |objects| && BoxOf(objects[bottom].transform).maxY == b.maxY;
    assert more[left] == objects[left] && more[top] == objects[top];
    assert more[right] == objects[right] && more[bottom] == objects[bottom];
    assert BoxOf(more[if next.minX < b.minX then last else left].transform).minX == joined.minX;
    assert BoxOf(more[if next.minY < b.minY then last else top].transform).minY == joined.minY;
    assert BoxOf(more[if next.maxX > b.maxX then last else right].transform).maxX == joined.maxX;
    assert BoxOf(more[if next.maxY > b.maxY then last else bottom].transform).maxY == joined.maxY;
  }

  lemma JoinBounds(b: Box, objects: seq<Record>, o: Record)
    requires Readable(objects) && o.Record? && IsBounds(b, objects)
    ensures Readable(objects + [o]) && IsBounds(Join(b, BoxOf(o.transform)), objects + [o])
  {
    JoinContains(b, objects, o);
    JoinReaches(b, objects, o);
  }

  lemma FirstBounds(o: Record)
    requires o.Record?
    ensures IsBounds(BoxOf(o.transform), [o])
  {
    assert [o][0] == o;
  }

  method CalculateBounds(objects: seq<Record>) returns (bounds: Option<Box>)
    requires Readable(objects)
    ensures bounds.None? <==> objects == []
    ensures bounds.Some? ==> IsBounds(bounds.value, objects)
  {
    if |objects| == 0 {
      return None;
    }
    var b := BoxOf(objects[0].transform);
    FirstBounds(objects[0]);
    assert objects[..1] == [objects[0]];
    for index := 1 to |objects|
      invariant IsBounds(b, objects[..index])
    {
      JoinBounds(b, objects[..index], objects[index]);
      assert objects[..index] + [objects[index]] == objects[..index + 1];
      b := Join(b, BoxOf(objects[index].transform));
    }
    assert objects[..|objects|] == objects;
    return Some(b);
  }

  function Translated(t: Transform, shift: Point): Transform {
    t.(x := t.x + shift.x, y := t.y + shift.y)
  }

  /** Moved by a vector; size and rotation stay. */
  predicate IsMoved(source: Transform, copy: Transform, shift: Point) {
    && copy.x == source.x + shift.x && copy.y == source.y + shift.y
    && copy.width == source.width && copy.height == source.height && copy.rotation == source.rotation
  }

  predicate AllTranslated(objects: seq<Record>, moved: seq<Record>, shift: Point)
    requires Readable(objects) && Readable(moved)
  {
    |moved| == |objects| && forall i | 0 <= i < |objects| :: IsMoved(objects[i].transform, moved[i].transform, shift)
  }

  /** Bounds are unique, and translating the objects translates them. */
  lemma TranslatedBounds(objects: seq<Record>, moved: seq<Record>, shift: Point, b: Box, c: Box)
    requires Readable(objects) && Readable(moved) && AllTranslated(objects, moved, shift)
    requires IsBounds(b, objects) && IsBounds(c, moved)
    ensures c.Center() == Point(b.Center().x + shift.x, b.Center().y + shift.y)
  {
  }

  // ----- the pasted records

  predicate ParentRule(parent: Option<Text>, source: seq<Text>, ids: seq<Text>, pasted: Option<Text>)
    requires |source| == |ids|
  {
    && (parent.Some? && parent.value in source ==>
          pasted.Some? && exists i | 0 <= i < |source| :: source[i] == parent.value && ids[i] == pasted.value)
    && (parent.None? || parent.value !in source ==> pasted == None)
  }

  /** A copy under a new id and rank, moved, with its parent among the pasted objects or none at all. */
  predicate IsCopy(source: Record, copy: Record, id: Text, rank: Text, shift: Point, sourceIds: seq<Text>, ids: seq<Text>)
    requires |sourceIds| == |ids|
  {
    && source.Record? && copy.Record? && copy.id == id && copy.rank == rank && copy.content == source.content
    && IsMoved(source.transform, copy.transform, shift) && ParentRule(source.parent, sourceIds, ids, copy.parent)
  }

  method PasteRecords(objects: seq<Record>, sourceIds: seq<Text>, ids: seq<Text>, bySource: map<Text, Text>,
                      ranks: seq<Text>, shift: Point)
    returns (records: seq<Record>)
    requires Readable(objects) && |objects| == |sourceIds| == |ids| == |ranks| && MapsTo(bySource, sourceIds, ids)
    ensures |records| == |objects|
    ensures forall i | 0 <= i < |objects| :: IsCopy(objects[i], records[i], ids[i], ranks[i], shift, sourceIds, ids)
  {
    records := [];
    for index := 0 to |objects|
      invariant |records| == index
      invariant forall i | 0 <= i < index :: IsCopy(objects[i], records[i], ids[i], ranks[i], shift, sourceIds, ids)
    {
      var source := objects[index];
      var parent := if source.parent.None? then None
                    else if source.parent.value in bySource then Some(bySource[source.parent.value]) else None;
      records := records + [source.(id := ids[index], parent := parent, transform := Translated(source.transform, shift),
                                    rank := ranks[index])];
    }
  }

  // ----- adding them to the page

  ghost predicate Added(page: Objects, next: Objects, records: seq<Record>)
    requires Readable(records)
  {
    && (forall id :: id in next <==> id in page || exists i | 0 <= i < |records| :: records[i].id == id)
    && (forall id | id in page :: next[id] == page[id])
    && forall i | 0 <= i < |records| :: records[i].id in next && next[records[i].id] == records[i]
  }

  lemma AddedRanks(lib: RankLibrary, page: Objects, order: seq<Text>, next: Objects, records: seq<Record>, ids: seq<Text>,
                   ranks: seq<Text>, before: seq<Text>)
    requires AllRanked(page, order) && GoodRanks(lib, page, order) && Lawful(lib)
    requires Readable(records) && |records| == |ids| == |ranks| && AllUuids(ids) && Added(page, next, records)
    requires forall i | 0 <= i < |ids| :: records[i].id == ids[i] && records[i].rank == ranks[i] && lib.valid(ranks[i])
    requires |before| == |order| && forall i | 0 <= i < |order| :: before[i] == page[order[i]].rank
    ensures AllRanked(next, order + ids)
    ensures forall i | 0 <= i < |order + ids| :: next[(order + ids)[i]].rank == (before + ranks)[i] && lib.valid((before + ranks)[i])
  {
    var all := order + ids;
    forall i | 0 <= i < |all|
      ensures Ranked(next, all[i]) && next[all[i]].rank == (before + ranks)[i] && lib.valid((before + ranks)[i])
    {
      if i >= |order| {
        assert next[ids[i - |order|]] == records[i - |order|];
      } else {
        assert Ranked(page, order[i]);
      }
    }
  }

  lemma AddedIsAll(page: Objects, order: seq<Text>, next: Objects, records: seq<Record>, ids: seq<Text>, id: Text)
    requires (forall x | Ranked(page, x) :: x in order) && Readable(records) && |records| == |ids| && Added(page, next, records)
    requires (forall i | 0 <= i < |ids| :: records[i].id == ids[i]) && Ranked(next, id)
    ensures id in order + ids
  {
  }

  lemma AddedOnTop(lib: RankLibrary, page: Objects, order: seq<Text>, next: Objects, records: seq<Record>, ids: seq<Text>, ranks: seq<Text>)
    requires Lawful(lib) && IsOrder(page, order) && GoodRanks(lib, page, order)
    requires Readable(records) && |records| == |ids| == |ranks| && AllUuids(ids) && Added(page, next, records)
    requires forall i | 0 <= i < |ids| :: records[i].id == ids[i] && records[i].rank == ranks[i]
    requires Fits(lib, ranks, LowerBound(page, order, |order|), None)
    ensures IsOrder(next, order + ids) && GoodRanks(lib, next, order + ids)
  {
    var before := seq(|order|, i requires 0 <= i < |order| => page[order[i]].rank);
    AddedRanks(lib, page, order, next, records, ids, ranks, before);
    GoodSortedRanksAscend(lib, page, order);
    IncreasingAppend(before, ranks);
    forall id | Ranked(next, id)
      ensures id in order + ids
    {
      AddedIsAll(page, order, next, records, ids, id);
    }
    AscendingIsOrder(lib, next, order + ids);
  }

  lemma AddOne(page: Objects, next: Objects, records: seq<Record>, r: Record)
    requires Readable(records) && r.Record? && Added(page, next, records) && r.id !in next
    ensures Readable(records + [r]) && Added(page, next[r.id := r], records + [r])
  {
    var more := records + [r];
    assert more[|records|] == r && forall i | 0 <= i < |records| :: more[i] == records[i];
    forall id
      ensures id in next[r.id := r] <==> id in page || exists i | 0 <= i < |more| :: more[i].id == id
    {
      if id in next && id !in page {
        var i :| 0 <= i < |records| && records[i].id == id;
        assert more[i].id == id;
      }
      if i :| 0 <= i < |more| && more[i].id == id {
        assert i == |records| || records[i].id in next;
      }
    }
  }

  lemma AddEntry(page: Objects, entries: seq<Text>, r: Record)
    requires Enumerates(page, entries) && r.Record? && r.id !in page
    ensures Enumerates(page[r.id := r], entries + [r.id])
  {
  }

  method AddRecords(page: BoardPage, records: seq<Record>)
    requires page.Valid() && Readable(records)
    requires forall i | 0 <= i < |records| :: records[i].id !in page.objects
    requires forall i, j | 0 <= i < j < |records| :: records[i].id != records[j].id
    modifies page
    ensures page.Valid() && Added(old(page.objects), page.objects, records)
  {
    for index := 0 to |records|
      invariant page.Valid() && Added(old(page.objects), page.objects, records[..index])
    {
      var record := records[index];
      assert records[..index + 1] == records[..index] + [record];
      assert record.id !in page.objects;
      AddOne(old(page.objects), page.objects, records[..index], record);
      AddEntry(page.objects, page.entries, record);
      page.objects := page.objects[record.id := record];
      page.entries := page.entries + [record.id];
    }
    assert records[..|records|] == records;
  }

  // ----- pasting

  /** The pasted objects on the page, as copies of the fragment's objects in order. */
  ghost predicate Pasted(f: Fragment, ids: seq<Text>, page: Objects, shift: Point) {
    |ids| == |f.objectIds| && forall i | 0 <= i < |ids| ::
      && f.objectIds[i] in f.objects && ids[i] in page && page[ids[i]].Record?
      && IsCopy(f.objects[f.objectIds[i]], page[ids[i]], ids[i], page[ids[i]].rank, shift, f.objectIds, ids)
  }

  /** An anchor becomes the center of the pasted objects' bounds. */
  ghost predicate Placed(translation: Option<Point>, anchor: Option<Point>, shift: Point, ids: seq<Text>, page: Objects) {
    && (anchor.None? ==> shift == if translation.Some? then translation.value else Point(0.0, 0.0))
    && (anchor.Some? ==> forall records, b | OnPage(records, ids, page) && IsBounds(b, records) :: b.Center() == anchor.value)
  }

  ghost predicate OnPage(records: seq<Record>, ids: seq<Text>, page: Objects) {
    Readable(records) && |records| == |ids| && forall i | 0 <= i < |ids| :: ids[i] in page && page[ids[i]] == records[i]
  }

  lemma Centered(objects: seq<Record>, records: seq<Record>, shift: Point, b: Box, anchor: Point)
    requires Readable(objects) && Readable(records) && AllTranslated(objects, records, shift) && IsBounds(b, objects)
    requires shift == Point(anchor.x - b.Center().x, anchor.y - b.Center().y)
    ensures forall c | IsBounds(c, records) :: c.Center() == anchor
  {
  }

  // ----- what a paste does to a transform, field by field

  /** Every field of the copies but id, rank, parent and place is that of the source. */
  ghost predicate FieldsKept(f: Fragment, ids: seq<Text>, page: Objects) {
    |ids| == |f.objectIds| && forall i | 0 <= i < |ids| ::
      && f.objectIds[i] in f.objects && f.objects[f.objectIds[i]].Record? && ids[i] in page && page[ids[i]].Record?
      && SameShape(f.objects[f.objectIds[i]].transform, page[ids[i]].transform)
      && page[ids[i]].content == f.objects[f.objectIds[i]].content && page[ids[i]].id == ids[i]
  }

  predicate SameShape(source: Transform, copy: Transform) {
    copy.width == source.width && copy.height == source.height && copy.rotation == source.rotation
  }

  /** Every copy lies one and the same vector away from its source. */
  ghost predicate MovedBy(f: Fragment, ids: seq<Text>, page: Objects, dx: real, dy: real)
    requires FieldsKept(f, ids, page)
  {
    forall i | 0 <= i < |ids| ::
      && page[ids[i]].transform.x - f.objects[f.objectIds[i]].transform.x == dx
      && page[ids[i]].transform.y - f.objects[f.objectIds[i]].transform.y == dy
  }

  lemma PastedFields(f: Fragment, ids: seq<Text>, page: Objects, shift: Point)
    requires Pasted(f, ids, page, shift)
    ensures FieldsKept(f, ids, page) && MovedBy(f, ids, page, shift.x, shift.y)
  {
  }

  /** The extent of an edge from `start` along `size`, which may be negative, is within low and high. */
  predicate Spans(start: real, size: real, low: real, high: real) {
    low <= start <= high && low <= start + size <= high
  }

  predicate Touches(start: real, size: real, edge: real) {
    start == edge || start + size == edge
  }

  /** The least rectangle around the objects under these ids. */
  ghost predicate IsHull(ids: seq<Text>, page: Objects, left: real, top: real, right: real, bottom: real) {
    && (forall i | 0 <= i < |ids| :: ids[i] in page && page[ids[i]].Record?)
    && (forall i | 0 <= i < |ids| :: Spans(page[ids[i]].transform.x, page[ids[i]].transform.width, left, right))
    && (forall i | 0 <= i < |ids| :: Spans(page[ids[i]].transform.y, page[ids[i]].transform.height, top, bottom))
    && (exists i | 0 <= i < |ids| :: Touches(page[ids[i]].transform.x, page[ids[i]].transform.width, left))
    && (exists i | 0 <= i < |ids| :: Touches(page[ids[i]].transform.x, page[ids[i]].transform.width, right))
    && (exists i | 0 <= i < |ids| :: Touches(page[ids[i]].transform.y, page[ids[i]].transform.height, top))
    && (exists i | 0 <= i < |ids| :: Touches(page[ids[i]].transform.y, page[ids[i]].transform.height, bottom))
  }

  /** The anchor is in the middle of that rectangle, and of the object where there is only one. */
  ghost predicate Anchored(ids: seq<Text>, page: Objects, anchor: Point) {
    && (forall left, top, right, bottom | IsHull(ids, page, left, top, right, bottom) ::
          left + right == 2.0 * anchor.x && top + bottom == 2.0 * anchor.y)
    && (|ids| == 1 && ids[0] in page && page[ids[0]].Record? ==>
          && page[ids[0]].transform.x + page[ids[0]].transform.width / 2.0 == anchor.x
          && page[ids[0]].transform.y + page[ids[0]].transform.height / 2.0 == anchor.y)
  }

  lemma HullContains(ids: seq<Text>, page: Objects, records: seq<Record>, b: Box)
    requires OnPage(records, ids, page) && IsHull(ids, page, b.minX, b.minY, b.maxX, b.maxY)
    ensures ContainsAll(b, records)
  {
    forall i | 0 <= i < |records|
      ensures Contains(b, BoxOf(records[i].transform))
    {
      assert page[ids[i]] == records[i];
    }
  }

  lemma HullReaches(ids: seq<Text>, page: Objects, records: seq<Record>, b: Box)
    requires OnPage(records, ids, page) && IsHull(ids, page, b.minX, b.minY, b.maxX, b.maxY) && ContainsAll(b, records)
    ensures Reached(b, records)
  {
    var left :| 0 <= left < |ids| && Touches(page[ids[left]].transform.x, page[ids[left]].transform.width, b.minX);
    var right :| 0 <= right < |ids| && Touches(page[ids[right]].transform.x, page[ids[right]].transform.width, b.maxX);
    var top :| 0 <= top < |ids| && Touches(page[ids[top]].transform.y, page[ids[top]].transform.height, b.minY);
    var bottom :| 0 <= bottom < |ids| && Touches(page[ids[bottom]].transform.y, page[ids[bottom]].transform.height, b.maxY);
    assert Contains(b, BoxOf(records[left].transform)) && Contains(b, BoxOf(records[right].transform));
    assert Contains(b, BoxOf(records[top].transform)) && Contains(b, BoxOf(records[bottom].transform));
    assert BoxOf(records[left].transform).minX == b.minX && BoxOf(records[right].transform).maxX == b.maxX;
    assert BoxOf(records[top].transform).minY == b.minY && BoxOf(records[bottom].transform).maxY == b.maxY;
  }

  lemma PlacedIsAnchored(translation: Option<Point>, anchor: Option<Point>, shift: Point, ids: seq<Text>, page: Objects,
                         records: seq<Record>)
    requires Placed(translation, anchor, shift, ids, page) && anchor.Some? && OnPage(records, ids, page)
    ensures Anchored(ids, page, anchor.value)
  {
    forall left, top, right, bottom | IsHull(ids, page, left, top, right, bottom)
      ensures left + right == 2.0 * anchor.value.x && top + bottom == 2.0 * anchor.value.y
    {
      var b := Box(left, top, right, bottom);
      HullContains(ids, page, records, b);
      HullReaches(ids, page, records, b);
      assert b.Center() == anchor.value;
    }
    if |ids| == 1 {
      var b := BoxOf(records[0].transform);
      FirstBounds(records[0]);
      assert records == [records[0]];
      assert IsBounds(b, records);
      BoxIsBetweenCorners(records[0].transform);
    }
  }

  method Shift(objects: seq<Record>, translation: Option<Point>, anchor: Option<Point>) returns (shift: Point)
    requires Readable(objects)
    ensures anchor.None? ==> shift == if translation.Some? then translation.value else Point(0.0, 0.0)
    ensures anchor.Some? ==> forall records | Readable(records) && AllTranslated(objects, records, shift) ::
      forall c | IsBounds(c, records) :: c.Center() == anchor.value
  {
    var bounds := CalculateBounds(objects);
    if anchor.Some? && bounds.Some? {
      shift := Point(anchor.value.x - bounds.value.Center().x, anchor.value.y - bounds.value.Center().y);
      forall records | Readable(records) && AllTranslated(objects, records, shift)
        ensures forall c | IsBounds(c, records) :: c.Center() == anchor.value
      {
        Centered(objects, records, shift, bounds.value, anchor.value);
      }
    } else {
      shift := if translation.Some? then translation.value else Point(0.0, 0.0);
    }
  }

  /** Copies of the fragment's objects with ranks above the lower bound. */
  ghost predicate Prepared(lib: RankLibrary, f: Fragment, records: seq<Record>, ids: seq<Text>, lower: Option<Text>,
                           ranks: seq<Text>, shift: Point)
  {
    && |records| == |ids| == |ranks| == |f.objectIds| && Fits(lib, ranks, lower, None)
    && forall i | 0 <= i < |ids| :: f.objectIds[i] in f.objects
         && IsCopy(f.objects[f.objectIds[i]], records[i], ids[i], ranks[i], shift, f.objectIds, ids)
  }

  /** Everything the paste needs, prepared from the page before it is touched. */
  method PrepareRecords(lib: RankLibrary, page: Objects, f: Fragment, translation: Option<Point>, anchor: Option<Point>,
                        factory: IdFactory, lower: Option<Text>)
    returns (result: Result<seq<Record>, FragmentError>, ghost ranks: seq<Text>, ghost shift: Point)
    requires Lawful(lib) && Bounds(lib, lower, None)
    ensures result.Ok? <==> WellFormed(f) && FreshIds(page, f.objectIds, Generated(factory, f.objectIds))
    ensures result.Ok? ==> Prepared(lib, f, result.value, Generated(factory, f.objectIds), lower, ranks, shift)
    ensures result.Ok? && anchor.None? ==> shift == if translation.Some? then translation.value else Point(0.0, 0.0)
    ensures result.Ok? && anchor.Some? ==> Readable(result.value) && forall b | IsBounds(b, result.value) :: b.Center() == anchor.value
  {
    ranks, shift := [], Point(0.0, 0.0);
    var objects :- MaterializeBoardFragment(f);
    SortedIsDistinct(f.objects, f.objectIds);
    assert Readable(objects) by {
      assert forall i | 0 <= i < |objects| :: Ranked(f.objects, f.objectIds[i]);
    }
    var translationUsed := Shift(objects, translation, anchor);
    var generated, bySource := GenerateTargetIds(page, f.objectIds, factory);
    var ids :- generated;
    var newRanks := lib.between(lower, None, |objects|);
    var records := PasteRecords(objects, f.objectIds, ids, bySource, newRanks, translationUsed);
    ranks, shift := newRanks, translationUsed;
    assert Readable(records) && AllTranslated(objects, records, shift);
    return Ok(records), ranks, shift;
  }

  lemma RecordsAreNew(page: Objects, source: seq<Text>, ids: seq<Text>, records: seq<Record>)
    requires FreshIds(page, source, ids) && |records| == |ids| && Readable(records)
    requires forall i | 0 <= i < |ids| :: records[i].id == ids[i]
    ensures forall i | 0 <= i < |records| :: records[i].id !in page
    ensures forall i, j | 0 <= i < j < |records| :: records[i].id != records[j].id
  {
  }

  lemma PastedFromAdded(lib: RankLibrary, f: Fragment, page: Objects, next: Objects, records: seq<Record>, ids: seq<Text>,
                        lower: Option<Text>, ranks: seq<Text>, shift: Point, translation: Option<Point>, anchor: Option<Point>)
    requires Prepared(lib, f, records, ids, lower, ranks, shift) && Readable(records) && Added(page, next, records)
    requires anchor.None? ==> shift == if translation.Some? then translation.value else Point(0.0, 0.0)
    requires anchor.Some? ==> forall b | IsBounds(b, records) :: b.Center() == anchor.value
    ensures Pasted(f, ids, next, shift) && Placed(translation, anchor, shift, ids, next)
    ensures next.Keys == page.Keys + set i | 0 <= i < |ids| :: ids[i]
    ensures OnPage(records, ids, next)
  {
    forall i | 0 <= i < |ids|
      ensures ids[i] in next && next[ids[i]] == records[i]
    {
      assert records[i].id == ids[i];
    }
    forall other | OnPage(other, ids, next)
      ensures other == records
    {
    }
  }

  lemma PasteIsPlaced(f: Fragment, ids: seq<Text>, page: Objects, shift: Point, translation: Option<Point>, anchor: Option<Point>,
                      records: seq<Record>)
    requires Pasted(f, ids, page, shift) && Placed(translation, anchor, shift, ids, page) && OnPage(records, ids, page)
    ensures FieldsKept(f, ids, page) && MovedBy(f, ids, page, shift.x, shift.y)
    ensures anchor.Some? ==> Anchored(ids, page, anchor.value)
  {
    PastedFields(f, ids, page, shift);
    if anchor.Some? {
      PlacedIsAnchored(translation, anchor, shift, ids, page, records);
    }
  }

  /** Everything a successful paste promises about the page. */
  ghost predicate PasteResult(lib: RankLibrary, page: Objects, order: seq<Text>, ids: seq<Text>, normalized: Objects,
                              next: Objects, nextOrder: seq<Text>)
    requires AllRanked(page, order) && AllRanked(next, nextOrder)
  {
    && nextOrder == order + ids
    && next.Keys == page.Keys + (set i | 0 <= i < |ids| :: ids[i])
    && (forall id | id in page :: id in normalized && id in next && next[id] == normalized[id])
    && (if ids == [] then next == page == normalized
        else NormalizedFrom(lib, page, normalized, order) && GoodRanks(lib, next, nextOrder))
  }

  /**
     The page becomes its old order followed by the pasted objects in fragment order. A rejected
     paste changes nothing, and neither does an empty one.
   */
  method InsertBoardFragment(lib: RankLibrary, page: BoardPage, f: Fragment, translation: Option<Point>, anchor: Option<Point>,
                             factory: IdFactory)
    returns (result: Result<seq<Text>, FragmentError>, ghost normalized: Objects, ghost shift: Point)
    requires page.Valid() && Lawful(lib)
    modifies page
    ensures page.Valid()
    ensures result.Ok? <==>
      && !(translation.Some? && anchor.Some?) && WellFormed(f)
      && FreshIds(old(page.objects), f.objectIds, Generated(factory, f.objectIds))
    ensures result.Err? ==> page.objects == old(page.objects) && page.entries == old(page.entries)
    ensures result.Ok? ==>
      && result.value == Generated(factory, f.objectIds)
      && Pasted(f, result.value, page.objects, shift) && Placed(translation, anchor, shift, result.value, page.objects)
      && PasteResult(lib, old(page.objects), old(page.Order()), result.value, normalized, page.objects, page.Order())
    ensures result.Ok? ==>
      && FieldsKept(f, result.value, page.objects) && MovedBy(f, result.value, page.objects, shift.x, shift.y)
      && (anchor.Some? ==> Anchored(result.value, page.objects, anchor.value))
  {
    normalized, shift := page.objects, Point(0.0, 0.0);
    if translation.Some? && anchor.Some? {
      return Err(PlacementConflict), normalized, shift;
    }
    ghost var was, order := page.objects, page.Order();
    OrderOfIsOrder(page.objects, page.entries);
    var normalize, lower := TargetRankPlan(lib, page.objects, page.Order());
    var prepared;
    ghost var ranks;
    prepared, ranks, shift := PrepareRecords(lib, page.objects, f, translation, anchor, factory, lower);
    if prepared.Err? {
      return Err(prepared.error), normalized, shift;
    }
    var records := prepared.value;
    var ids := Generated(factory, f.objectIds);
    if |records| == 0 {
      assert order + ids == order;
      assert Added(was, was, records);
      PastedFromAdded(lib, f, was, was, records, ids, lower, ranks, shift, translation, anchor);
      PasteIsPlaced(f, ids, was, shift, translation, anchor, records);
      return Ok(ids), normalized, shift;
    }
    if normalize {
      var _ := page.NormalizeObjectZRanks(lib);
    }
    normalized := page.objects;
    assert NormalizedFrom(lib, was, normalized, order) && GoodRanks(lib, normalized, order);
    OrderOfIsOrder(page.objects, page.entries);
    RecordsAreNew(normalized, f.objectIds, ids, records);
    AddRecords(page, records);
    AddedOnTop(lib, normalized, order, page.objects, records, ids, ranks);
    OnlyOrder(page.objects, page.entries, order + ids);
    PastedFromAdded(lib, f, normalized, page.objects, records, ids, lower, ranks, shift, translation, anchor);
    PasteIsPlaced(f, ids, page.objects, shift, translation, anchor, records);
    return Ok(ids), normalized, shift;
  }
}
