/**
 The z-order of a board page: objects are drawn in order of (rank, id), and reordering
 rewrites only the ranks of the selected objects.
 */
module ZOrder {
  import opened CodeUnits
  import opened Reordering
  import opened Wrappers
  import opened ZRank

  datatype Transform = Transform(x: real, y: real, width: real, height: real, rotation: real)

  /** `Unreadable` is an entry without the fields of a board object. */
  datatype Record =
    | Record(id: Text, rank: Text, parent: Option<Text>, transform: Transform, content: Text)
    | Unreadable(content: Text)

  type Objects = map<Text, Record>

  datatype ReorderError = NotAUuid(id: Text) | Missing(id: Text) | Malformed(id: Text)

  predicate HexDigit(c: CodeUnit) {
    0x30 <= c <= 0x39 || 0x41 <= c <= 0x46 || 0x61 <= c <= 0x66
  }

  predicate StableUuid(s: Text) {
    && |s| == 36
    && forall i | 0 <= i < 36 ::
      if i in {8, 13, 18, 23} then s[i] == 0x2d
      else if i == 14 then 0x31 <= s[i] <= 0x38
      else if i == 19 then s[i] in {0x38, 0x39, 0x41, 0x42, 0x61, 0x62}
      else HexDigit(s[i])
  }

  /** The entry can be read as an object and names itself. */
  predicate Ranked(page: Objects, id: Text) {
    id in page && page[id].Record? && page[id].id == id && StableUuid(id) && page[id].rank != []
  }

  predicate AllRanked(page: Objects, ids: seq<Text>) {
    forall i | 0 <= i < |ids| :: Ranked(page, ids[i])
  }

  // ----- the order

  predicate Below(page: Objects, a: Text, b: Text)
    requires Ranked(page, a) && Ranked(page, b)
  {
    Less(page[a].rank, page[b].rank) || (page[a].rank == page[b].rank && Less(a, b))
  }

  lemma BelowIsTotal(page: Objects, a: Text, b: Text)
    requires Ranked(page, a) && Ranked(page, b)
    ensures Below(page, a, b) || a == b || Below(page, b, a)
    ensures !(Below(page, a, b) && Below(page, b, a)) && !Below(page, a, a)
  {
    LessIsTotal(page[a].rank, page[b].rank);
    LessIsTotal(a, b);
    LessIsTotal(page[a].rank, page[a].rank);
    LessIsTotal(a, a);
  }

  lemma BelowIsTransitive(page: Objects, a: Text, b: Text, c: Text)
    requires Ranked(page, a) && Ranked(page, b) && Ranked(page, c)
    requires Below(page, a, b) && Below(page, b, c)
    ensures Below(page, a, c)
  {
    if Less(page[a].rank, page[b].rank) && Less(page[b].rank, page[c].rank) {
      LessIsTransitive(page[a].rank, page[b].rank, page[c].rank);
    } else if Less(a, b) && Less(b, c) {
      LessIsTransitive(a, b, c);
    }
  }

  predicate Sorted(page: Objects, ids: seq<Text>)
    requires AllRanked(page, ids)
  {
    forall i, j | 0 <= i < j < |ids| :: Below(page, ids[i], ids[j])
  }

  /** ids is the page's z-order: every readable object once, from the bottom up. */
  ghost predicate IsOrder(page: Objects, ids: seq<Text>) {
    && AllRanked(page, ids)
    && (forall id | Ranked(page, id) :: id in ids)
    && Sorted(page, ids)
  }

  lemma SortedIsDistinct(page: Objects, ids: seq<Text>)
    requires AllRanked(page, ids) && Sorted(page, ids)
    ensures Distinct(ids)
  {
    forall i, j | 0 <= i < j < |ids|
      ensures ids[i] != ids[j]
    {
      BelowIsTotal(page, ids[i], ids[j]);
    }
  }

  /** However it was computed, there is only one z-order. */
  lemma {:induction false} OrderIsUnique(page: Objects, s: seq<Text>, t: seq<Text>)
    requires AllRanked(page, s) && AllRanked(page, t) && Sorted(page, s) && Sorted(page, t)
    requires forall id :: id in s <==> id in t
    ensures s == t
    decreases |s|
  {
    if s == [] {
      assert forall i | 0 <= i < |t| :: t[i] in s;
    } else {
      assert s[0] in t;
      assert t[0] in s;
      BelowIsTotal(page, s[0], t[0]);
      SortedIsDistinct(page, s);
      SortedIsDistinct(page, t);
      assert s == [s[0]] + s[1..] && t == [t[0]] + t[1..];
      forall id
        ensures id in s[1..] <==> id in t[1..]
      {
        assert s[0] !in s[1..] && t[0] !in t[1..];
        assert id in s <==> id == s[0] || id in s[1..];
        assert id in t <==> id == t[0] || id in t[1..];
      }
      OrderIsUnique(page, s[1..], t[1..]);
    }
  }

  function Insert(page: Objects, ids: seq<Text>, x: Text): (r: seq<Text>)
    requires AllRanked(page, ids) && Ranked(page, x)
    ensures |r| == |ids| + 1 && AllRanked(page, r) && forall id :: id in r <==> id == x || id in ids
  {
    if ids == [] then [x]
    else if Below(page, x, ids[0]) then [x] + ids
    else
      assert ids == [ids[0]] + ids[1..];
      [ids[0]] + Insert(page, ids[1..], x)
  }

  function SortObjects(page: Objects, ids: seq<Text>): (r: seq<Text>)
    requires AllRanked(page, ids)
    ensures |r| == |ids| && AllRanked(page, r) && forall id :: id in r <==> id in ids
  {
    if ids == [] then []
    else
      assert ids == [ids[0]] + ids[1..];
      Insert(page, SortObjects(page, ids[1..]), ids[0])
  }

  lemma {:induction false} InsertSorts(page: Objects, ids: seq<Text>, x: Text)
    requires AllRanked(page, ids) && Ranked(page, x) && Sorted(page, ids) && x !in ids
    ensures Sorted(page, Insert(page, ids, x))
    decreases |ids|
  {
    if ids != [] {
      BelowIsTotal(page, x, ids[0]);
      if Below(page, x, ids[0]) {
        forall j | 1 <= j < |ids|
          ensures Below(page, x, ids[j])
        {
          BelowIsTransitive(page, x, ids[0], ids[j]);
        }
      } else {
        var rest := Insert(page, ids[1..], x);
        InsertSorts(page, ids[1..], x);
        forall j | 0 <= j < |rest|
          ensures Below(page, ids[0], rest[j])
        {
          assert rest[j] == x || rest[j] in ids[1..];
        }
      }
    }
  }

  lemma {:induction false} SortObjectsSorts(page: Objects, ids: seq<Text>)
    requires AllRanked(page, ids) && Distinct(ids)
    ensures Sorted(page, SortObjects(page, ids))
    decreases |ids|
  {
    if ids != [] {
      assert ids[0] !in ids[1..];
      SortObjectsSorts(page, ids[1..]);
      InsertSorts(page, SortObjects(page, ids[1..]), ids[0]);
    }
  }

  function Collected(page: Objects, entries: seq<Text>): (ids: seq<Text>)
    ensures AllRanked(page, ids) && forall id :: id in ids <==> id in entries && Ranked(page, id)
    ensures Distinct(entries) ==> Distinct(ids)
  {
    if entries == [] then []
    else
      assert entries == [entries[0]] + entries[1..];
      (if Ranked(page, entries[0]) then [entries[0]] else []) + Collected(page, entries[1..])
  }

  /** The entries, collected and sorted. */
  function OrderOf(page: Objects, entries: seq<Text>): seq<Text> {
    SortObjects(page, Collected(page, entries))
  }

  ghost predicate Enumerates(page: Objects, entries: seq<Text>) {
    Distinct(entries) && forall id :: id in entries <==> id in page
  }

  lemma OrderOfIsOrder(page: Objects, entries: seq<Text>)
    requires Enumerates(page, entries)
    ensures IsOrder(page, OrderOf(page, entries))
  {
    SortObjectsSorts(page, Collected(page, entries));
  }

  lemma OnlyOrder(page: Objects, entries: seq<Text>, ids: seq<Text>)
    requires Enumerates(page, entries) && IsOrder(page, ids)
    ensures OrderOf(page, entries) == ids
  {
    OrderOfIsOrder(page, entries);
    OrderIsUnique(page, OrderOf(page, entries), ids);
  }

  // ----- writing ranks

  predicate Writable(page: Objects, changes: map<Text, Text>) {
    forall id | id in changes :: Ranked(page, id) && changes[id] != []
  }

  function WithRanks(page: Objects, changes: map<Text, Text>): (next: Objects)
    requires Writable(page, changes)
    ensures next.Keys == page.Keys && forall id :: Ranked(page, id) <==> Ranked(next, id)
  {
    map id | id in page :: if id in changes then page[id].(rank := changes[id]) else page[id]
  }

  /** Nothing but ranks of readable objects differs. */
  ghost predicate OnlyRanksDiffer(page: Objects, next: Objects) {
    && next.Keys == page.Keys
    && forall id | id in page ::
      if Ranked(page, id) then Ranked(next, id) && next[id] == page[id].(rank := next[id].rank) else next[id] == page[id]
  }

  /** All ranks are valid and no two objects share one. */
  predicate GoodRanks(lib: RankLibrary, page: Objects, ids: seq<Text>)
    requires AllRanked(page, ids)
  {
    && (forall i | 0 <= i < |ids| :: lib.valid(page[ids[i]].rank))
    && forall i, j | 0 <= i < j < |ids| :: page[ids[i]].rank != page[ids[j]].rank
  }

  lemma GoodRanksByMembers(lib: RankLibrary, page: Objects, s: seq<Text>, t: seq<Text>)
    requires AllRanked(page, s) && AllRanked(page, t) && Distinct(s)
    requires (forall id | id in s :: id in t) && GoodRanks(lib, page, t)
    ensures GoodRanks(lib, page, s)
  {
    forall i | 0 <= i < |s|
      ensures lib.valid(page[s[i]].rank)
    {
      assert s[i] in t;
    }
    forall i, j | 0 <= i < j < |s|
      ensures page[s[i]].rank != page[s[j]].rank
    {
      assert s[i] in t && s[j] in t && s[i] != s[j];
    }
  }

  predicate RanksAscend(page: Objects, ids: seq<Text>)
    requires AllRanked(page, ids)
  {
    forall i, j | 0 <= i < j < |ids| :: Less(page[ids[i]].rank, page[ids[j]].rank)
  }

  lemma AscendingIsOrder(lib: RankLibrary, page: Objects, ids: seq<Text>)
    requires AllRanked(page, ids) && RanksAscend(page, ids) && forall id | Ranked(page, id) :: id in ids
    ensures IsOrder(page, ids)
    ensures (forall i | 0 <= i < |ids| :: lib.valid(page[ids[i]].rank)) ==> GoodRanks(lib, page, ids)
  {
    forall i, j | 0 <= i < j < |ids|
      ensures page[ids[i]].rank != page[ids[j]].rank
    {
      LessIsTotal(page[ids[i]].rank, page[ids[j]].rank);
    }
  }

  lemma GoodSortedRanksAscend(lib: RankLibrary, page: Objects, ids: seq<Text>)
    requires AllRanked(page, ids) && Sorted(page, ids) && GoodRanks(lib, page, ids)
    ensures RanksAscend(page, ids)
  {
  }

  // ----- reordering by writing the ranks of the selected objects

  function RankIn(page: Objects, changes: map<Text, Text>, id: Text): Text
    requires Ranked(page, id)
  {
    if id in changes then changes[id] else page[id].rank
  }

  /** The unselected objects stand in the order of their ranks. */
  predicate OthersAscend(page: Objects, ids: seq<Text>, selected: Selection)
    requires AllRanked(page, ids)
  {
    forall i, j | 0 <= i < j < |ids| && ids[i] !in selected && ids[j] !in selected ::
      Less(page[ids[i]].rank, page[ids[j]].rank)
  }

  lemma {:induction false} PickAscends(page: Objects, ids: seq<Text>, selected: Selection)
    requires AllRanked(page, ids) && RanksAscend(page, ids)
    ensures AllRanked(page, Pick(ids, selected, false)) && RanksAscend(page, Pick(ids, selected, false))
    decreases |ids|
  {
    if ids != [] {
      var rest := Pick(ids[1..], selected, false);
      PickAscends(page, ids[1..], selected);
      PickedAre(ids[1..], selected, false);
      forall j | 0 <= j < |rest|
        ensures Less(page[ids[0]].rank, page[rest[j]].rank)
      {
        assert rest[j] in ids[1..];
      }
    }
  }

  lemma {:induction false} AscendingPick(page: Objects, ids: seq<Text>, selected: Selection)
    requires AllRanked(page, ids) && AllRanked(page, Pick(ids, selected, false))
    requires RanksAscend(page, Pick(ids, selected, false))
    ensures OthersAscend(page, ids, selected)
    decreases |ids|
  {
    if ids != [] {
      var picked, rest := Pick(ids, selected, false), Pick(ids[1..], selected, false);
      var skip := |picked| - |rest|;
      assert forall i | 0 <= i < |rest| :: rest[i] == picked[i + skip];
      AscendingPick(page, ids[1..], selected);
      PickedAre(ids[1..], selected, false);
      forall j | 0 < j < |ids| && ids[0] !in selected && ids[j] !in selected
        ensures Less(page[ids[0]].rank, page[ids[j]].rank)
      {
        assert ids[j] == ids[1..][j - 1];
        assert ids[j] in rest;
        var k :| 0 <= k < |rest| && rest[k] == ids[j];
        assert picked[0] == ids[0] && picked[k + 1] == ids[j];
      }
    }
  }

  lemma ReorderedOthersAscend(page: Objects, ids: seq<Text>, selected: Selection, direction: Direction)
    requires AllRanked(page, ids) && RanksAscend(page, ids)
    ensures AllRanked(page, Reordered(ids, selected, direction))
    ensures OthersAscend(page, Reordered(ids, selected, direction), selected)
  {
    var target := Reordered(ids, selected, direction);
    ReorderedIsPermutation(ids, selected, direction);
    forall i | 0 <= i < |target|
      ensures Ranked(page, target[i])
    {
      assert target[i] in multiset(target);
      assert target[i] in ids;
    }
    RelativeOrdersAreKept(ids, selected, direction, false);
    PickAscends(page, ids, selected);
    AscendingPick(page, target, selected);
  }

  /** With the changes made, the first targets have the given ranks; only selected ones among them change. */
  ghost predicate Assigned(page: Objects, target: seq<Text>, selected: Selection, changes: map<Text, Text>, given: seq<Text>)
    requires AllRanked(page, target)
  {
    && |given| <= |target|
    && (forall id :: id in changes <==> id in selected && id in target[..|given|])
    && forall i | 0 <= i < |given| :: RankIn(page, changes, target[i]) == given[i]
  }

  lemma AssignSelected(page: Objects, target: seq<Text>, selected: Selection, changes: map<Text, Text>, given: seq<Text>, rank: Text)
    requires AllRanked(page, target) && Distinct(target) && Assigned(page, target, selected, changes, given)
    requires |given| < |target| && target[|given|] in selected
    ensures Assigned(page, target, selected, changes[target[|given|] := rank], given + [rank])
  {
  }

  lemma AssignOther(page: Objects, target: seq<Text>, selected: Selection, changes: map<Text, Text>, given: seq<Text>)
    requires AllRanked(page, target) && Assigned(page, target, selected, changes, given)
    requires |given| < |target| && target[|given|] !in selected
    ensures Assigned(page, target, selected, changes, given + [page[target[|given|]].rank])
  {
  }

  predicate AllValid(lib: RankLibrary, ranks: seq<Text>) {
    forall i | 0 <= i < |ranks| :: lib.valid(ranks[i])
  }

  /** The given ranks increase, and so they do with an unselected next target's own rank after them. */
  ghost predicate Placed(lib: RankLibrary, page: Objects, target: seq<Text>, selected: Selection, given: seq<Text>)
    requires AllRanked(page, target)
  {
    && Increasing(given) && AllValid(lib, given)
    && (|given| < |target| && target[|given|] !in selected ==> Increasing(given + [page[target[|given|]].rank]))
  }

  lemma PlaceOther(lib: RankLibrary, page: Objects, target: seq<Text>, selected: Selection, given: seq<Text>)
    requires AllRanked(page, target) && OthersAscend(page, target, selected) && Placed(lib, page, target, selected, given)
    requires |given| < |target| && target[|given|] !in selected && lib.valid(page[target[|given|]].rank)
    ensures Placed(lib, page, target, selected, given + [page[target[|given|]].rank])
  {
    var next := given + [page[target[|given|]].rank];
    if |next| < |target| && target[|next|] !in selected {
      IncreasingAppend(next, [page[target[|next|]].rank]);
    }
  }

  lemma PlaceRun(lib: RankLibrary, page: Objects, target: seq<Text>, selected: Selection, given: seq<Text>, ranks: seq<Text>)
    requires AllRanked(page, target) && Placed(lib, page, target, selected, given)
    requires |given| + |ranks| <= |target| && ranks != []
    requires Fits(lib, ranks, if given == [] then None else Some(given[|given| - 1]), UpperBound(page, target, |given| + |ranks|))
    ensures Placed(lib, page, target, selected, given + ranks)
  {
    var next := given + ranks;
    IncreasingAppend(given, ranks);
    if |next| < |target| && target[|next|] !in selected {
      var upper := page[target[|next|]].rank;
      assert next[|next| - 1] == ranks[|ranks| - 1];
      IncreasingAppend(next, [upper]);
    }
  }

  function LowerBound(page: Objects, target: seq<Text>, start: nat): Option<Text>
    requires AllRanked(page, target) && start <= |target|
  {
    if start > 0 then Some(page[target[start - 1]].rank) else None
  }

  function UpperBound(page: Objects, target: seq<Text>, stop: nat): Option<Text>
    requires AllRanked(page, target) && stop <= |target|
  {
    if stop < |target| then Some(page[target[stop]].rank) else None
  }

  lemma RunBounds(lib: RankLibrary, page: Objects, target: seq<Text>, selected: Selection, start: nat, stop: nat)
    requires AllRanked(page, target) && OthersAscend(page, target, selected) && start < stop <= |target|
    requires forall i | 0 <= i < |target| :: lib.valid(page[target[i]].rank)
    requires start > 0 ==> target[start - 1] !in selected
    requires stop < |target| ==> target[stop] !in selected
    ensures Bounds(lib, LowerBound(page, target, start), UpperBound(page, target, stop))
  {
  }

  method AssignRun(page: Objects, target: seq<Text>, selected: Selection, start: nat, ranks: seq<Text>,
                   changes: map<Text, Text>, ghost given: seq<Text>)
    returns (next: map<Text, Text>, ghost more: seq<Text>)
    requires AllRanked(page, target) && Distinct(target) && start == |given| <= start + |ranks| <= |target|
    requires forall i | start <= i < start + |ranks| :: target[i] in selected
    requires Assigned(page, target, selected, changes, given)
    ensures more == given + ranks && Assigned(page, target, selected, next, more)
  {
    next, more := changes, given;
    for offset := 0 to |ranks|
      invariant more == given + ranks[..offset] && Assigned(page, target, selected, next, more)
    {
      AssignSelected(page, target, selected, next, more, ranks[offset]);
      next := next[target[start + offset] := ranks[offset]];
      more := more + [ranks[offset]];
    }
    assert ranks[..|ranks|] == ranks;
  }

  /** New ranks for one run of selected objects, strictly between its unselected neighbours. */
  method RankRun(lib: RankLibrary, page: Objects, target: seq<Text>, selected: Selection, start: nat, stop: nat,
                 changes: map<Text, Text>, ghost given: seq<Text>)
    returns (next: map<Text, Text>, ghost more: seq<Text>)
    requires Lawful(lib) && AllRanked(page, target) && Distinct(target) && start == |given| < stop <= |target|
    requires forall i | start <= i < stop :: target[i] in selected
    requires start > 0 ==> given[start - 1] == page[target[start - 1]].rank
    requires Bounds(lib, LowerBound(page, target, start), UpperBound(page, target, stop))
    requires Assigned(page, target, selected, changes, given) && Placed(lib, page, target, selected, given)
    ensures |more| == stop && Assigned(page, target, selected, next, more) && Placed(lib, page, target, selected, more)
  {
    var ranks := lib.between(LowerBound(page, target, start), UpperBound(page, target, stop), stop - start);
    PlaceRun(lib, page, target, selected, given, ranks);
    next, more := AssignRun(page, target, selected, start, ranks, changes, given);
  }

  /** The end of the run of selected objects that starts here. */
  method RunEnd(target: seq<Text>, selected: Selection, start: nat) returns (stop: nat)
    requires start < |target| && target[start] in selected
    ensures start < stop <= |target| && forall i | start <= i < stop :: target[i] in selected
    ensures stop < |target| ==> target[stop] !in selected
  {
    stop := start + 1;
    while stop < |target| && target[stop] in selected
      invariant start < stop <= |target|
      invariant forall i | start <= i < stop :: target[i] in selected
    {
      stop := stop + 1;
    }
  }

  /** The loop over the target order that finds the runs of selected objects and ranks each of them. */
  method RankRuns(lib: RankLibrary, page: Objects, target: seq<Text>, selected: Selection)
    returns (changes: map<Text, Text>, ghost given: seq<Text>)
    requires Lawful(lib) && AllRanked(page, target) && Distinct(target) && OthersAscend(page, target, selected)
    requires forall i | 0 <= i < |target| :: lib.valid(page[target[i]].rank)
    ensures |given| == |target| && Assigned(page, target, selected, changes, given)
    ensures Increasing(given) && AllValid(lib, given)
  {
    changes, given := map[], [];
    var index := 0;
    while index < |target|
      invariant index == |given| <= |target|
      invariant Assigned(page, target, selected, changes, given) && Placed(lib, page, target, selected, given)
      invariant index > 0 && target[index - 1] !in selected ==> given[index - 1] == page[target[index - 1]].rank
      invariant 0 < index < |target| && target[index - 1] in selected ==> target[index] !in selected
    {
      if target[index] !in selected {
        AssignOther(page, target, selected, changes, given);
        PlaceOther(lib, page, target, selected, given);
        given := given + [page[target[index]].rank];
        index := index + 1;
      } else {
        var start := index;
        index := RunEnd(target, selected, start);
        RunBounds(lib, page, target, selected, start, index);
        changes, given := RankRun(lib, page, target, selected, start, index, changes, given);
      }
    }
  }

  /** Once every run is placed, sorting by (rank, id) gives exactly the target. */
  lemma PlacedIsOrder(lib: RankLibrary, page: Objects, target: seq<Text>, selected: Selection, changes: map<Text, Text>, given: seq<Text>)
    requires Lawful(lib) && AllRanked(page, target) && forall id | Ranked(page, id) :: id in target
    requires |given| == |target| && Assigned(page, target, selected, changes, given)
    requires Increasing(given) && AllValid(lib, given)
    ensures Writable(page, changes)
    ensures var next := WithRanks(page, changes);
      && IsOrder(next, target) && GoodRanks(lib, next, target) && OnlyRanksDiffer(page, next)
      && forall id | id in page && id !in selected :: next[id] == page[id]
  {
    assert target[..|target|] == target;
    forall id | id in changes
      ensures Ranked(page, id) && changes[id] != []
    {
      var i :| 0 <= i < |target| && target[i] == id;
      assert RankIn(page, changes, target[i]) == given[i];
    }
    var next := WithRanks(page, changes);
    forall i | 0 <= i < |target|
      ensures next[target[i]].rank == given[i]
    {
      assert RankIn(page, changes, target[i]) == given[i];
    }
    AscendingIsOrder(lib, next, target);
  }

  // ----- the page

  /** The first id that does not name a readable object, in the order of the request. */
  function Refusal(page: Objects, ids: seq<Text>): Option<ReorderError> {
    if ids == [] then None
    else if !StableUuid(ids[0]) then Some(NotAUuid(ids[0]))
    else if ids[0] !in page then Some(Missing(ids[0]))
    else if !Ranked(page, ids[0]) then Some(Malformed(ids[0]))
    else Refusal(page, ids[1..])
  }

  /** Good ranks stay; otherwise the objects get evenly generated ranks in their present order. */
  ghost predicate NormalizedFrom(lib: RankLibrary, page: Objects, next: Objects, ids: seq<Text>)
    requires AllRanked(page, ids)
  {
    && OnlyRanksDiffer(page, next)
    && if GoodRanks(lib, page, ids) then next == page
       else
         && |lib.between(None, None, |ids|)| == |ids|
         && forall i | 0 <= i < |ids| :: next[ids[i]].rank == lib.between(None, None, |ids|)[i]
  }

  method HasDuplicateRanks(page: Objects, ids: seq<Text>) returns (duplicate: bool)
    requires AllRanked(page, ids)
    ensures duplicate <==> exists i, j | 0 <= i < j < |ids| :: page[ids[i]].rank == page[ids[j]].rank
  {
    var ranks: set<Text> := {};
    for index := 0 to |ids|
      invariant ranks == set i | 0 <= i < index :: page[ids[i]].rank
      invariant forall i, j | 0 <= i < j < index :: page[ids[i]].rank != page[ids[j]].rank
    {
      if page[ids[index]].rank in ranks {
        return true;
      }
      ranks := ranks + {page[ids[index]].rank};
    }
    return false;
  }

  lemma RanksWritten(page: Objects, ids: seq<Text>, all: Selection, changes: map<Text, Text>, given: seq<Text>)
    requires AllRanked(page, ids) && Writable(page, changes) && Assigned(page, ids, all, changes, given)
    ensures forall i | 0 <= i < |given| :: WithRanks(page, changes)[ids[i]].rank == given[i]
  {
  }

  lemma TargetIsReady(lib: RankLibrary, page: Objects, ids: seq<Text>, selected: Selection, direction: Direction)
    requires IsOrder(page, ids) && GoodRanks(lib, page, ids)
    ensures var target := Reordered(ids, selected, direction);
      && AllRanked(page, target) && Distinct(target) && OthersAscend(page, target, selected)
      && (forall i | 0 <= i < |target| :: lib.valid(page[target[i]].rank))
      && forall id | Ranked(page, id) :: id in target
  {
    var target := Reordered(ids, selected, direction);
    SortedIsDistinct(page, ids);
    ReorderedIsPermutation(ids, selected, direction);
    ReorderedOthersAscend(page, ids, selected, direction);
    assert forall id :: id in target <==> id in multiset(target);
    assert forall id :: id in ids <==> id in multiset(ids);
    GoodRanksByMembers(lib, page, target, ids);
  }

  /** Freshly generated ranks for all objects, in their present order. */
  method EvenRanks(lib: RankLibrary, page: Objects, ids: seq<Text>) returns (next: Objects, ghost ranks: seq<Text>)
    requires Lawful(lib) && IsOrder(page, ids)
    ensures ranks == lib.between(None, None, |ids|) && |ranks| == |ids| && OnlyRanksDiffer(page, next)
    ensures IsOrder(next, ids) && GoodRanks(lib, next, ids)
    ensures forall i | 0 <= i < |ids| :: next[ids[i]].rank == ranks[i]
  {
    SortedIsDistinct(page, ids);
    var generated := lib.between(None, None, |ids|);
    assert Bounds(lib, None, None) && Fits(lib, generated, None, None);
    var all := set id | id in ids;
    var changes, given := AssignRun(page, ids, all, 0, generated, map[], []);
    assert given == generated;
    PlacedIsOrder(lib, page, ids, all, changes, given);
    RanksWritten(page, ids, all, changes, given);
    next, ranks := WithRanks(page, changes), generated;
  }

  method NormalRanks(lib: RankLibrary, page: Objects, ids: seq<Text>) returns (next: Objects, changed: bool)
    requires Lawful(lib) && IsOrder(page, ids)
    ensures IsOrder(next, ids) && GoodRanks(lib, next, ids) && NormalizedFrom(lib, page, next, ids)
    ensures changed == !GoodRanks(lib, page, ids)
  {
    var duplicate := HasDuplicateRanks(page, ids);
    if !duplicate && forall i | 0 <= i < |ids| :: lib.valid(page[ids[i]].rank) {
      return page, false;
    }
    ghost var ranks;
    next, ranks := EvenRanks(lib, page, ids);
    changed := true;
  }

  method TargetRanks(lib: RankLibrary, page: Objects, ids: seq<Text>, target: seq<Text>, selected: Selection, direction: Direction)
    returns (next: Objects)
    requires Lawful(lib) && IsOrder(page, ids) && GoodRanks(lib, page, ids) && target == Reordered(ids, selected, direction)
    ensures IsOrder(next, target) && GoodRanks(lib, next, target) && OnlyRanksDiffer(page, next)
    ensures forall id | id in page && id !in selected :: next[id] == page[id]
  {
    TargetIsReady(lib, page, ids, selected, direction);
    var changes, given := RankRuns(lib, page, target, selected);
    PlacedIsOrder(lib, page, target, selected, changes, given);
    next := WithRanks(page, changes);
  }

  /** Normalization, then new ranks for the selected objects if the order changes. */
  method ReorderedRanks(lib: RankLibrary, page: Objects, ids: seq<Text>, selected: Selection, direction: Direction)
    returns (next: Objects, target: seq<Text>, ghost normalized: Objects)
    requires Lawful(lib) && IsOrder(page, ids)
    ensures target == Reordered(ids, selected, direction) && IsOrder(next, target) && GoodRanks(lib, next, target)
    ensures NormalizedFrom(lib, page, normalized, ids) && OnlyRanksDiffer(page, next)
    ensures forall id | id in page && (id !in selected || target == ids) :: next[id] == normalized[id]
  {
    var normal, _ := NormalRanks(lib, page, ids);
    normalized := normal;
    target := ReorderedIds(ids, selected, direction);
    if ids == target {
      next := normal;
    } else {
      next := TargetRanks(lib, normal, ids, target, selected, direction);
    }
  }

  class BoardPage {
    var objects: Objects
    /** The keys of `objects` in the map's own iteration order. */
    var entries: seq<Text>

    ghost predicate Valid()
      reads this
    {
      Enumerates(objects, entries)
    }

    constructor (objects: Objects, entries: seq<Text>)
      requires Enumerates(objects, entries)
      ensures Valid() && this.objects == objects && this.entries == entries
    {
      this.objects, this.entries := objects, entries;
    }

    /** The one order IsOrder admits, by OrderIsUnique. */
    function Order(): (ids: seq<Text>)
      reads this
      ensures AllRanked(objects, ids)
    {
      OrderOf(objects, entries)
    }

    /** Makes all ranks valid and distinct without changing the order. */
    method NormalizeObjectZRanks(lib: RankLibrary) returns (changed: bool)
      requires Valid() && Lawful(lib)
      modifies this`objects
      ensures Valid() && Order() == old(Order()) && GoodRanks(lib, objects, Order())
      ensures NormalizedFrom(lib, old(objects), objects, old(Order()))
      ensures changed == !GoodRanks(lib, old(objects), old(Order()))
    {
      var ids := Order();
      OrderOfIsOrder(objects, entries);
      objects, changed := NormalRanks(lib, objects, ids);
      OnlyOrder(objects, entries, ids);
    }

    method WriteReordered(lib: RankLibrary, selected: Selection, direction: Direction)
      returns (changed: bool, ghost normalized: Objects)
      requires Valid() && Lawful(lib)
      modifies this`objects
      ensures Valid() && Order() == Reordered(old(Order()), selected, direction) && changed == (Order() != old(Order()))
      ensures NormalizedFrom(lib, old(objects), normalized, old(Order()))
      ensures OnlyRanksDiffer(old(objects), objects) && GoodRanks(lib, objects, Order())
      ensures forall id | id in objects && (id !in selected || !changed) :: objects[id] == normalized[id]
    {
      var currentIds := Order();
      OrderOfIsOrder(objects, entries);
      var targetIds;
      objects, targetIds, normalized := ReorderedRanks(lib, objects, currentIds, selected, direction);
      OnlyOrder(objects, entries, targetIds);
      return targetIds != currentIds, normalized;
    }

    /**
     Afterwards sorting by (rank, id) gives the reordered ids; nothing but ranks changed, unselected
     ranks are those of the normalized page, and all ranks are valid and distinct. A request that
     names no readable object is refused and changes nothing.
     */
    method ReorderObjects(lib: RankLibrary, objectIds: seq<Text>, direction: Direction)
      returns (result: Result<bool, ReorderError>, ghost normalized: Objects)
      requires Valid() && Lawful(lib)
      modifies this`objects
      ensures Valid()
      ensures Refusal(old(objects), objectIds).Some? ==>
        result == Err(Refusal(old(objects), objectIds).value) && objects == old(objects)
      ensures Refusal(old(objects), objectIds).None? && objectIds == [] ==> result == Ok(false) && objects == old(objects)
      ensures Refusal(old(objects), objectIds).None? && objectIds != [] ==>
        var selected := set id | id in objectIds;
        && Order() == Reordered(old(Order()), selected, direction)
        && result == Ok(Order() != old(Order()))
        && NormalizedFrom(lib, old(objects), normalized, old(Order()))
        && OnlyRanksDiffer(old(objects), objects) && GoodRanks(lib, objects, Order())
        && forall id | id in objects && (id !in selected || result == Ok(false)) :: objects[id] == normalized[id]
    {
      normalized := objects;
      var selected: set<Text> := {};
      for index := 0 to |objectIds|
        invariant selected == set id | id in objectIds[..index]
        invariant Refusal(objects, objectIds) == Refusal(objects, objectIds[index..])
      {
        var id := objectIds[index];
        assert objectIds[index..][1..] == objectIds[index + 1..];
        assert objectIds[..index + 1] == objectIds[..index] + [id];
        if !StableUuid(id) {
          return Err(NotAUuid(id)), normalized;
        }
        if id !in objects {
          return Err(Missing(id)), normalized;
        }
        if !Ranked(objects, id) {
          return Err(Malformed(id)), normalized;
        }
        selected := selected + {id};
      }
      assert objectIds[..|objectIds|] == objectIds;
      if |selected| == 0 {
        assert objectIds == [] by {
          assert forall i | 0 <= i < |objectIds| :: objectIds[i] in selected;
        }
        return Ok(false), normalized;
      }
      assert objectIds != [];
      var changed;
      changed, normalized := WriteReordered(lib, selected, direction);
      return Ok(changed), normalized;
    }
  }
}
