/**
 Coalescing a backlog of document updates into outputs of bounded size. The merge of the
 document library is a parameter; so is what an update means.
 */
module UpdateMerge {
  import opened Leb128
  import opened Wrappers

  type Update = Bytes

  type Merge = seq<Update> -> Update

  // ----- one group

  function MergeBoundedGroup(merge: Merge, updates: seq<Update>, maxBytes: int): seq<Update>
    decreases |updates|
  {
    if |updates| == 0 then []
    else if |updates| == 1 then [updates[0]]
    else if |merge(updates)| <= maxBytes then [merge(updates)]
    else
      var midpoint := (|updates| + 1) / 2;
      MergeBoundedGroup(merge, updates[..midpoint], maxBytes) + MergeBoundedGroup(merge, updates[midpoint..], maxBytes)
  }

  // ----- partitions

  function Concat(groups: seq<seq<Update>>): seq<Update> {
    if groups == [] then [] else groups[0] + Concat(groups[1..])
  }

  /** A lone update stays as it is; several become their merge. */
  function MergeOf(merge: Merge, group: seq<Update>): Update
    requires group != []
  {
    if |group| == 1 then group[0] else merge(group)
  }

  /** The parts cut the updates into consecutive runs, and each output is the merge of its run and small enough. */
  ghost predicate Coalesces(merge: Merge, updates: seq<Update>, parts: seq<seq<Update>>, outputs: seq<Update>, maxBytes: int) {
    && |parts| == |outputs| && Concat(parts) == updates
    && forall i | 0 <= i < |parts| ::
         && parts[i] != [] && outputs[i] == MergeOf(merge, parts[i])
         && (|outputs[i]| <= maxBytes || parts[i] == [outputs[i]])
  }

  lemma {:induction false} ConcatAppend(a: seq<seq<Update>>, b: seq<seq<Update>>)
    ensures Concat(a + b) == Concat(a) + Concat(b)
    decreases |a|
  {
    if a == [] {
      assert a + b == b;
    } else {
      assert (a + b)[1..] == a[1..] + b;
      ConcatAppend(a[1..], b);
    }
  }

  lemma CoalescesAppend(merge: Merge, u: seq<Update>, v: seq<Update>, p: seq<seq<Update>>, q: seq<seq<Update>>,
                        x: seq<Update>, y: seq<Update>, maxBytes: int)
    requires Coalesces(merge, u, p, x, maxBytes) && Coalesces(merge, v, q, y, maxBytes)
    ensures Coalesces(merge, u + v, p + q, x + y, maxBytes)
  {
    ConcatAppend(p, q);
  }

  /** However much a merge grows, the halving ends, and its outputs are merges of consecutive runs. */
  lemma {:induction false} GroupCoalesces(merge: Merge, updates: seq<Update>, maxBytes: int) returns (parts: seq<seq<Update>>)
    ensures Coalesces(merge, updates, parts, MergeBoundedGroup(merge, updates, maxBytes), maxBytes)
    decreases |updates|
  {
    if |updates| == 0 {
      parts := [];
    } else if |updates| == 1 || |merge(updates)| <= maxBytes {
      parts := [updates];
      assert Concat([updates]) == updates + Concat([]);
    } else {
      var midpoint := (|updates| + 1) / 2;
      var low := GroupCoalesces(merge, updates[..midpoint], maxBytes);
      var high := GroupCoalesces(merge, updates[midpoint..], maxBytes);
      parts := low + high;
      CoalescesAppend(merge, updates[..midpoint], updates[midpoint..], low, high,
                      MergeBoundedGroup(merge, updates[..midpoint], maxBytes),
                      MergeBoundedGroup(merge, updates[midpoint..], maxBytes), maxBytes);
      assert updates[..midpoint] + updates[midpoint..] == updates;
    }
  }

  // ----- the greedy groups

  function Size(group: seq<Update>): nat {
    if group == [] then 0 else |group[0]| + Size(group[1..])
  }

  lemma {:induction false} SizeAppend(a: seq<Update>, b: seq<Update>)
    ensures Size(a + b) == Size(a) + Size(b)
    decreases |a|
  {
    if a == [] {
      assert a + b == b;
    } else {
      assert (a + b)[1..] == a[1..] + b;
      SizeAppend(a[1..], b);
    }
  }

  predicate Oversized(group: seq<Update>, maxBytes: int) {
    |group| == 1 && |group[0]| > maxBytes
  }

  /** Each group is one oversized update or fits as a whole, and no group could have taken the update after it. */
  ghost predicate Greedy(groups: seq<seq<Update>>, maxBytes: int) {
    && (forall i | 0 <= i < |groups| :: groups[i] != [] && (Oversized(groups[i], maxBytes) || Size(groups[i]) <= maxBytes))
    && forall i | 0 <= i < |groups| - 1 && !Oversized(groups[i], maxBytes) && !Oversized(groups[i + 1], maxBytes) ::
         Size(groups[i]) + |groups[i + 1][0]| > maxBytes
  }

  function MergeAll(merge: Merge, groups: seq<seq<Update>>, maxBytes: int): seq<Update> {
    if groups == [] then []
    else
      var last := |groups| - 1;
      MergeAll(merge, groups[..last], maxBytes) + MergeBoundedGroup(merge, groups[last], maxBytes)
  }

  lemma {:induction false} AllCoalesce(merge: Merge, groups: seq<seq<Update>>, maxBytes: int) returns (parts: seq<seq<Update>>)
    ensures Coalesces(merge, Concat(groups), parts, MergeAll(merge, groups, maxBytes), maxBytes)
    decreases |groups|
  {
    if groups == [] {
      parts := [];
    } else {
      var last := |groups| - 1;
      var before := AllCoalesce(merge, groups[..last], maxBytes);
      var after := GroupCoalesces(merge, groups[last], maxBytes);
      parts := before + after;
      CoalescesAppend(merge, Concat(groups[..last]), groups[last], before, after,
                      MergeAll(merge, groups[..last], maxBytes), MergeBoundedGroup(merge, groups[last], maxBytes), maxBytes);
      LastGroup(groups);
    }
  }

  lemma LastGroup(groups: seq<seq<Update>>)
    requires groups != []
    ensures Concat(groups) == Concat(groups[..|groups| - 1]) + groups[|groups| - 1]
  {
    var last := |groups| - 1;
    ConcatAppend(groups[..last], [groups[last]]);
    assert groups == groups[..last] + [groups[last]];
    assert Concat([groups[last]]) == groups[last] + Concat([]);
  }

  /** A merge that never grows turns each group into exactly one output. */
  lemma {:induction false} OneOutputPerGroup(merge: Merge, groups: seq<seq<Update>>, maxBytes: int)
    requires Greedy(groups, maxBytes) && forall us :: |merge(us)| <= Size(us)
    ensures |MergeAll(merge, groups, maxBytes)| == |groups|
    decreases |groups|
  {
    if groups != [] {
      OneOutputPerGroup(merge, groups[..|groups| - 1], maxBytes);
    }
  }

  // ----- the loop

  function Closed(groups: seq<seq<Update>>, group: seq<Update>): seq<seq<Update>> {
    if group == [] then groups else groups + [group]
  }

  /** The state of the loop: finished groups, and an open one after them unless the last was oversized. */
  ghost predicate Open(groups: seq<seq<Update>>, group: seq<Update>, maxBytes: int) {
    && Greedy(Closed(groups, group), maxBytes)
    && (group != [] ==> !Oversized(group, maxBytes))
    && (group == [] && groups != [] ==> Oversized(groups[|groups| - 1], maxBytes))
  }

  lemma OpenGrows(groups: seq<seq<Update>>, group: seq<Update>, update: Update, maxBytes: int)
    requires Open(groups, group, maxBytes) && group != [] && Size(group) + |update| <= maxBytes
    ensures Open(groups, group + [update], maxBytes)
  {
    var before, after := groups + [group], groups + [group + [update]];
    SizeAppend(group, [update]);
    assert Size([update]) == |update|;
    assert forall i | 0 <= i < |groups| :: after[i] == before[i];
    if groups != [] {
      var last := |groups| - 1;
      assert before[last + 1] == group && after[last + 1][0] == group[0];
    }
  }

  lemma OpenStarts(groups: seq<seq<Update>>, update: Update, maxBytes: int)
    requires Greedy(groups, maxBytes)
    requires groups == [] || Oversized(groups[|groups| - 1], maxBytes) || |update| > maxBytes
          || Size(groups[|groups| - 1]) + |update| > maxBytes
    ensures if |update| <= maxBytes then Open(groups, [update], maxBytes) else Open(groups + [[update]], [], maxBytes)
  {
    assert Size([update]) == |update|;
  }

  lemma MergeOneMore(merge: Merge, groups: seq<seq<Update>>, group: seq<Update>, maxBytes: int)
    ensures Concat(Closed(groups, group)) == Concat(groups) + group
    ensures MergeAll(merge, Closed(groups, group), maxBytes)
         == MergeAll(merge, groups, maxBytes) + MergeBoundedGroup(merge, group, maxBytes)
  {
    if group != [] {
      var next := groups + [group];
      assert next[..|groups|] == groups;
      LastGroup(next);
    }
  }

  method FlushGroup(merge: Merge, compacted: seq<Update>, group: seq<Update>, maxBytes: int, ghost groups: seq<seq<Update>>)
    returns (next: seq<Update>)
    requires compacted == MergeAll(merge, groups, maxBytes)
    ensures next == MergeAll(merge, Closed(groups, group), maxBytes)
    ensures Concat(Closed(groups, group)) == Concat(groups) + group
  {
    MergeOneMore(merge, groups, group, maxBytes);
    next := compacted + MergeBoundedGroup(merge, group, maxBytes);
  }

  /** The outputs so far are for the finished groups; together with the open group these are the updates taken. */
  ghost predicate Taken(merge: Merge, updates: seq<Update>, compacted: seq<Update>, groups: seq<seq<Update>>, group: seq<Update>,
                        groupBytes: nat, maxBytes: int)
  {
    && Concat(groups) + group == updates && compacted == MergeAll(merge, groups, maxBytes)
    && groupBytes == Size(group) && Open(groups, group, maxBytes)
  }

  method TakeOversized(merge: Merge, compacted: seq<Update>, group: seq<Update>, groupBytes: nat, update: Update, maxBytes: int,
                       ghost updates: seq<Update>, ghost groups: seq<seq<Update>>)
    returns (next: seq<Update>, ghost nextGroups: seq<seq<Update>>)
    requires Taken(merge, updates, compacted, groups, group, groupBytes, maxBytes) && |update| > maxBytes
    ensures Taken(merge, updates + [update], next, nextGroups, [], 0, maxBytes)
  {
    next := FlushGroup(merge, compacted, group, maxBytes, groups);
    nextGroups := Closed(groups, group);
    OpenStarts(nextGroups, update, maxBytes);
    MergeOneMore(merge, nextGroups, [update], maxBytes);
    next := next + [update];
    nextGroups := nextGroups + [[update]];
    assert Concat(nextGroups) + [] == updates + [update];
  }

  method TakeOrdinary(merge: Merge, compacted: seq<Update>, group: seq<Update>, groupBytes: nat, update: Update, maxBytes: int,
                      ghost updates: seq<Update>, ghost groups: seq<seq<Update>>)
    returns (next: seq<Update>, nextGroup: seq<Update>, nextBytes: nat, ghost nextGroups: seq<seq<Update>>)
    requires Taken(merge, updates, compacted, groups, group, groupBytes, maxBytes) && |update| <= maxBytes
    ensures Taken(merge, updates + [update], next, nextGroups, nextGroup, nextBytes, maxBytes)
  {
    next, nextGroups, nextGroup, nextBytes := compacted, groups, group, groupBytes;
    if |group| > 0 && groupBytes + |update| > maxBytes {
      next := FlushGroup(merge, compacted, group, maxBytes, groups);
      nextGroups := Closed(groups, group);
      nextGroup, nextBytes := [], 0;
      OpenStarts(nextGroups, update, maxBytes);
    } else if |group| > 0 {
      OpenGrows(groups, group, update, maxBytes);
    } else {
      OpenStarts(groups, update, maxBytes);
    }
    SizeAppend(nextGroup, [update]);
    assert Size([update]) == |update|;
    assert Concat(nextGroups) + nextGroup == updates;
    nextGroup, nextBytes := nextGroup + [update], nextBytes + |update|;
    assert nextGroup == if nextGroups == groups && |group| > 0 then group + [update] else [update];
  }

  method MergeUpdates(merge: Merge, updates: seq<Update>, maxBytes: int)
    returns (compacted: seq<Update>, ghost groups: seq<seq<Update>>)
    requires maxBytes >= 1
    ensures Concat(groups) == updates && Greedy(groups, maxBytes) && compacted == MergeAll(merge, groups, maxBytes)
  {
    compacted, groups := [], [];
    var group: seq<Update>, groupBytes: nat := [], 0;
    for index := 0 to |updates|
      invariant Taken(merge, updates[..index], compacted, groups, group, groupBytes, maxBytes)
    {
      var update := updates[index];
      assert updates[..index + 1] == updates[..index] + [update];
      if |update| > maxBytes {
        compacted, groups := TakeOversized(merge, compacted, group, groupBytes, update, maxBytes, updates[..index], groups);
        group, groupBytes := [], 0;
      } else {
        compacted, group, groupBytes, groups :=
          TakeOrdinary(merge, compacted, group, groupBytes, update, maxBytes, updates[..index], groups);
      }
    }
    compacted := FlushGroup(merge, compacted, group, maxBytes, groups);
    groups := Closed(groups, group);
    assert updates[..|updates|] == updates;
  }

  /** Outputs are the merges of greedy groups that make up exactly the given updates, in order; no limit below one is accepted. */
  method MergeBoardUpdatesBounded(merge: Merge, updates: seq<Update>, maxBytes: int)
    returns (result: Option<seq<Update>>, ghost groups: seq<seq<Update>>)
    ensures result.None? <==> maxBytes < 1
    ensures result.Some? ==> Concat(groups) == updates && Greedy(groups, maxBytes)
    ensures result.Some? ==> result.value == MergeAll(merge, groups, maxBytes)
  {
    if maxBytes < 1 {
      return None, [];
    }
    var compacted;
    compacted, groups := MergeUpdates(merge, updates, maxBytes);
    return Some(compacted), groups;
  }

  // ----- the meaning

  /** What an update does to a document: merging means doing one after the other. */
  datatype Semantics<!State> = Semantics(meaning: Update -> State, join: (State, State) -> State, unit: State)

  function Joined<State>(sem: Semantics<State>, updates: seq<Update>): State {
    if updates == [] then sem.unit else sem.join(sem.meaning(updates[0]), Joined(sem, updates[1..]))
  }

  ghost predicate Lawful<State(!new)>(sem: Semantics<State>, merge: Merge) {
    && (forall a, b, c :: sem.join(sem.join(a, b), c) == sem.join(a, sem.join(b, c)))
    && (forall a :: sem.join(sem.unit, a) == a && sem.join(a, sem.unit) == a)
    && forall us | us != [] :: sem.meaning(merge(us)) == Joined(sem, us)
  }

  lemma {:induction false} JoinedAppend<State(!new)>(sem: Semantics<State>, merge: Merge, a: seq<Update>, b: seq<Update>)
    requires Lawful(sem, merge)
    ensures Joined(sem, a + b) == sem.join(Joined(sem, a), Joined(sem, b))
    decreases |a|
  {
    if a == [] {
      assert a + b == b;
    } else {
      assert (a + b)[1..] == a[1..] + b;
      JoinedAppend(sem, merge, a[1..], b);
    }
  }

  /** Applying the outputs in order does what applying the inputs in order does. */
  lemma {:induction false} MeaningIsPreserved<State(!new)>(sem: Semantics<State>, merge: Merge, updates: seq<Update>,
                                                           parts: seq<seq<Update>>, outputs: seq<Update>, maxBytes: int)
    requires Lawful(sem, merge) && Coalesces(merge, updates, parts, outputs, maxBytes)
    ensures Joined(sem, outputs) == Joined(sem, updates)
    decreases |parts|
  {
    if parts != [] {
      MeaningIsPreserved(sem, merge, Concat(parts[1..]), parts[1..], outputs[1..], maxBytes);
      JoinedAppend(sem, merge, parts[0], Concat(parts[1..]));
      if |parts[0]| == 1 {
        assert parts[0][1..] == [];
        assert Joined(sem, parts[0]) == sem.join(sem.meaning(parts[0][0]), sem.unit);
      }
    }
  }

  /** For the method's outputs: the meaning is kept, and every output fits or is an oversized input. */
  lemma OutputsAreFaithful<State(!new)>(sem: Semantics<State>, merge: Merge, groups: seq<seq<Update>>, maxBytes: int)
    requires Lawful(sem, merge)
    ensures Joined(sem, MergeAll(merge, groups, maxBytes)) == Joined(sem, Concat(groups))
    ensures forall u | u in MergeAll(merge, groups, maxBytes) :: |u| <= maxBytes || u in Concat(groups)
  {
    var outputs := MergeAll(merge, groups, maxBytes);
    var parts := AllCoalesce(merge, groups, maxBytes);
    MeaningIsPreserved(sem, merge, Concat(groups), parts, outputs, maxBytes);
    forall i | 0 <= i < |outputs| && |outputs[i]| > maxBytes
      ensures outputs[i] in Concat(groups)
    {
      assert outputs[i] in parts[i];
      PartsAreIn(parts, i);
    }
  }

  lemma {:induction false} PartsAreIn(parts: seq<seq<Update>>, i: nat)
    requires i < |parts|
    ensures forall u | u in parts[i] :: u in Concat(parts)
    decreases |parts|
  {
    if i > 0 {
      PartsAreIn(parts[1..], i - 1);
    }
  }
}
