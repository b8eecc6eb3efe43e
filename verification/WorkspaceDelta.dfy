/**
 What a Python run changed: the delta the worker computes between the workspace it was given and
 the files it left, and the check the host makes before taking it. Paths are compared by a key
 (lower-casing); the key and the safety of a path are parameters.
 */
module WorkspaceDelta {
  import opened CodeUnits
  import opened Wrappers

  type Byte = n: int | 0 <= n < 0x100

  const MAX_ENTRIES := 512
  const MAX_FILE_BYTES := 2 * 1024 * 1024
  const MAX_TOTAL_BYTES := 8 * 1024 * 1024

  datatype Paths = Paths(key: Text -> Text, safe: Text -> bool)

  datatype ContentKind = TextContent | BlobContent

  datatype Base = Base(entryId: Text, contentKind: ContentKind, sha256: Text, byteSize: nat)

  datatype WorkspaceFile = WorkspaceFile(path: Text, bytes: seq<Byte>, base: Base)

  datatype ResultFile = ResultFile(path: Text, bytes: seq<Byte>)

  datatype Change =
    | Delete(path: Text, base: Base)
    | Write(path: Text, target: Option<Base>, bytes: seq<Byte>)

  // ----- what the two sides may hold

  predicate DistinctFiles(paths: Paths, files: seq<WorkspaceFile>) {
    forall i, j | 0 <= i < j < |files| :: paths.key(files[i].path) != paths.key(files[j].path)
  }

  predicate DistinctResults(paths: Paths, results: seq<ResultFile>) {
    forall i, j | 0 <= i < j < |results| :: paths.key(results[i].path) != paths.key(results[j].path)
  }

  function TotalBytes(results: seq<ResultFile>): nat {
    if results == [] then 0 else |results[0].bytes| + TotalBytes(results[1..])
  }

  /** A workspace that passed the worker's checks. */
  predicate ValidWorkspace(paths: Paths, files: seq<WorkspaceFile>) {
    DistinctFiles(paths, files) && |files| <= MAX_ENTRIES && forall i | 0 <= i < |files| :: paths.safe(files[i].path)
  }

  /** A snapshot within the limits the worker puts on a run. */
  predicate BoundedSnapshot(paths: Paths, results: seq<ResultFile>) {
    && DistinctResults(paths, results) && |results| <= MAX_ENTRIES && TotalBytes(results) <= MAX_TOTAL_BYTES
    && forall i | 0 <= i < |results| :: paths.safe(results[i].path) && |results[i].bytes| <= MAX_FILE_BYTES
  }

  ghost predicate IsBaseline(paths: Paths, files: seq<WorkspaceFile>, byKey: map<Text, WorkspaceFile>) {
    && (forall i | 0 <= i < |files| :: paths.key(files[i].path) in byKey && byKey[paths.key(files[i].path)] == files[i])
    && forall k | k in byKey :: byKey[k] in files && paths.key(byKey[k].path) == k
  }

  ghost predicate IsResult(paths: Paths, results: seq<ResultFile>, byKey: map<Text, ResultFile>) {
    && (forall i | 0 <= i < |results| :: paths.key(results[i].path) in byKey && byKey[paths.key(results[i].path)] == results[i])
    && forall k | k in byKey :: byKey[k] in results && paths.key(byKey[k].path) == k
  }

  method BaselineByKey(paths: Paths, files: seq<WorkspaceFile>) returns (byKey: map<Text, WorkspaceFile>)
    requires DistinctFiles(paths, files)
    ensures IsBaseline(paths, files, byKey)
  {
    byKey := map[];
    for index := 0 to |files|
      invariant IsBaseline(paths, files[..index], byKey)
    {
      assert files[..index + 1] == files[..index] + [files[index]];
      byKey := byKey[paths.key(files[index].path) := files[index]];
    }
    assert files[..|files|] == files;
  }

  method ResultByKey(paths: Paths, results: seq<ResultFile>) returns (byKey: map<Text, ResultFile>)
    requires DistinctResults(paths, results)
    ensures IsResult(paths, results, byKey)
  {
    byKey := map[];
    for index := 0 to |results|
      invariant IsResult(paths, results[..index], byKey)
    {
      assert results[..index + 1] == results[..index] + [results[index]];
      byKey := byKey[paths.key(results[index].path) := results[index]];
    }
    assert results[..|results|] == results;
  }

  // ----- the delta

  type Baseline = map<Text, WorkspaceFile>
  type Results = map<Text, ResultFile>

  /** The change a key needs, if any: equal bytes need none, whatever the spelling of the path. */
  function Needed(base: Baseline, result: Results, k: Text): Option<Change> {
    if k in base && k !in result then Some(Delete(base[k].path, base[k].base))
    else if k in base && k in result && base[k].bytes != result[k].bytes then
      Some(Write(result[k].path, Some(base[k].base), result[k].bytes))
    else if k !in base && k in result then Some(Write(result[k].path, None, result[k].bytes))
    else None
  }

  predicate Ascending(paths: Paths, changes: seq<Change>) {
    forall i, j | 0 <= i < j < |changes| :: Less(paths.key(changes[i].path), paths.key(changes[j].path))
  }

  /** Exactly the needed changes, in strictly ascending order of their keys. */
  ghost predicate IsDelta(paths: Paths, base: Baseline, result: Results, changes: seq<Change>) {
    && Ascending(paths, changes)
    && (forall c | c in changes :: Needed(base, result, paths.key(c.path)) == Some(c))
    && forall k | Needed(base, result, k).Some? :: Needed(base, result, k).value in changes
  }

  function InsertChange(paths: Paths, changes: seq<Change>, c: Change): (r: seq<Change>)
    ensures |r| == |changes| + 1 && forall x :: x in r <==> x == c || x in changes
  {
    if changes == [] then [c]
    else if Less(paths.key(c.path), paths.key(changes[0].path)) then [c] + changes
    else
      assert changes == [changes[0]] + changes[1..];
      [changes[0]] + InsertChange(paths, changes[1..], c)
  }

  function SortChanges(paths: Paths, changes: seq<Change>): (r: seq<Change>)
    ensures |r| == |changes| && forall x :: x in r <==> x in changes
  {
    if changes == [] then []
    else
      assert changes == [changes[0]] + changes[1..];
      InsertChange(paths, SortChanges(paths, changes[1..]), changes[0])
  }

  predicate DistinctChanges(paths: Paths, changes: seq<Change>) {
    forall i, j | 0 <= i < j < |changes| :: paths.key(changes[i].path) != paths.key(changes[j].path)
  }

  lemma {:induction false} InsertAscends(paths: Paths, changes: seq<Change>, c: Change)
    requires Ascending(paths, changes) && forall x | x in changes :: paths.key(x.path) != paths.key(c.path)
    ensures Ascending(paths, InsertChange(paths, changes, c))
    decreases |changes|
  {
    if changes != [] {
      var key, head := paths.key(c.path), paths.key(changes[0].path);
      LessIsTotal(key, head);
      assert changes[0] in changes;
      if Less(key, head) {
        forall j | 1 <= j < |changes|
          ensures Less(key, paths.key(changes[j].path))
        {
          LessIsTransitive(key, head, paths.key(changes[j].path));
        }
      } else {
        var rest := InsertChange(paths, changes[1..], c);
        InsertAscends(paths, changes[1..], c);
        forall j | 0 <= j < |rest|
          ensures Less(head, paths.key(rest[j].path))
        {
          assert rest[j] == c || rest[j] in changes[1..];
        }
      }
    }
  }

  lemma {:induction false} SortAscends(paths: Paths, changes: seq<Change>)
    requires DistinctChanges(paths, changes)
    ensures Ascending(paths, SortChanges(paths, changes))
    decreases |changes|
  {
    if changes != [] {
      SortAscends(paths, changes[1..]);
      InsertAscends(paths, SortChanges(paths, changes[1..]), changes[0]);
    }
  }

  /** The needed changes of the keys looked at so far, each once. */
  ghost predicate FoundFor(paths: Paths, keys: set<Text>, base: Baseline, result: Results, changes: seq<Change>) {
    && DistinctChanges(paths, changes)
    && (forall c | c in changes :: paths.key(c.path) in keys && Needed(base, result, paths.key(c.path)) == Some(c))
    && forall k | k in keys && Needed(base, result, k).Some? :: Needed(base, result, k).value in changes
  }

  lemma FoundOneMore(paths: Paths, keys: set<Text>, base: Baseline, result: Results, changes: seq<Change>, k: Text, change: Option<Change>)
    requires FoundFor(paths, keys, base, result, changes) && k !in keys
    requires change == Needed(base, result, k) && (change.Some? ==> paths.key(change.value.path) == k)
    ensures FoundFor(paths, keys + {k}, base, result, changes + if change.Some? then [change.value] else [])
  {
  }

  method BaselineChanges(paths: Paths, files: seq<WorkspaceFile>, ghost base: Baseline, result: Results)
    returns (changes: seq<Change>, ghost keys: set<Text>)
    requires DistinctFiles(paths, files) && IsBaseline(paths, files, base) && forall k | k in result :: paths.key(result[k].path) == k
    ensures keys == base.Keys && FoundFor(paths, keys, base, result, changes)
  {
    changes, keys := [], {};
    for index := 0 to |files|
      invariant forall k :: k in keys <==> exists i | 0 <= i < index :: paths.key(files[i].path) == k
      invariant FoundFor(paths, keys, base, result, changes)
    {
      var baseline := files[index];
      var k := paths.key(baseline.path);
      var change := None;
      if k !in result {
        change := Some(Delete(baseline.path, baseline.base));
      } else if baseline.bytes != result[k].bytes {
        change := Some(Write(result[k].path, Some(baseline.base), result[k].bytes));
      }
      FoundOneMore(paths, keys, base, result, changes, k, change);
      changes, keys := changes + (if change.Some? then [change.value] else []), keys + {k};
    }
    assert keys == base.Keys by {
      forall k | k in base
        ensures k in keys
      {
        var i :| 0 <= i < |files| && files[i] == base[k];
      }
    }
  }

  method ResultChanges(paths: Paths, results: seq<ResultFile>, base: Baseline, ghost result: Results, before: seq<Change>)
    returns (changes: seq<Change>)
    requires DistinctResults(paths, results) && IsResult(paths, results, result) && FoundFor(paths, base.Keys, base, result, before)
    ensures FoundFor(paths, base.Keys + result.Keys, base, result, changes)
  {
    changes := before;
    ghost var keys := base.Keys;
    for index := 0 to |results|
      invariant forall k :: k in keys <==> k in base || exists i | 0 <= i < index :: paths.key(results[i].path) == k
      invariant FoundFor(paths, keys, base, result, changes)
    {
      var file := results[index];
      var k := paths.key(file.path);
      if k !in base {
        FoundOneMore(paths, keys, base, result, changes, k, Some(Write(file.path, None, file.bytes)));
        changes, keys := changes + [Write(file.path, None, file.bytes)], keys + {k};
      }
    }
    assert keys == base.Keys + result.Keys by {
      forall k | k in result
        ensures k in keys
      {
        var i :| 0 <= i < |results| && results[i] == result[k];
      }
    }
  }

  /** The changes the run needs, sorted; the maps are the two file lists by key. */
  method ComputeDelta(paths: Paths, files: seq<WorkspaceFile>, results: seq<ResultFile>)
    returns (changes: seq<Change>, ghost base: Baseline, ghost result: Results)
    requires DistinctFiles(paths, files) && DistinctResults(paths, results)
    ensures IsBaseline(paths, files, base) && IsResult(paths, results, result)
    ensures IsDelta(paths, base, result, changes)
  {
    var baselineByPath := BaselineByKey(paths, files);
    var resultByPath := ResultByKey(paths, results);
    base, result := baselineByPath, resultByPath;
    ghost var keys;
    changes, keys := BaselineChanges(paths, files, base, resultByPath);
    changes := ResultChanges(paths, results, baselineByPath, result, changes);
    SortAscends(paths, changes);
    changes := SortChanges(paths, changes);
  }

  // ----- applying a delta

  /** A file system by key: the spelling of each path and its bytes. */
  type Files = map<Text, ResultFile>

  function FilesOf(base: Baseline): Files {
    map k | k in base :: ResultFile(base[k].path, base[k].bytes)
  }

  function ApplyChange(paths: Paths, files: Files, c: Change): Files {
    if c.Delete? then files - {paths.key(c.path)} else files[paths.key(c.path) := ResultFile(c.path, c.bytes)]
  }

  function Apply(paths: Paths, files: Files, changes: seq<Change>): Files
    decreases |changes|
  {
    if changes == [] then files else Apply(paths, ApplyChange(paths, files, changes[0]), changes[1..])
  }

  /** After the delta a key has what its change says, or what it had. */
  ghost predicate Changed(paths: Paths, files: Files, after: Files, changes: seq<Change>) {
    && (forall c | c in changes && c.Delete? :: paths.key(c.path) !in after)
    && (forall c | c in changes && c.Write? :: paths.key(c.path) in after && after[paths.key(c.path)] == ResultFile(c.path, c.bytes))
    && (forall k | (forall c | c in changes :: paths.key(c.path) != k) :: (k in after <==> k in files) && (k in files ==> after[k] == files[k]))
  }

  lemma {:induction false} ApplyChanges(paths: Paths, files: Files, changes: seq<Change>)
    requires DistinctChanges(paths, changes)
    ensures Changed(paths, files, Apply(paths, files, changes), changes)
    decreases |changes|
  {
    if changes != [] {
      var next := ApplyChange(paths, files, changes[0]);
      ApplyChanges(paths, next, changes[1..]);
      assert changes == [changes[0]] + changes[1..];
      assert forall c | c in changes[1..] :: paths.key(c.path) != paths.key(changes[0].path);
    }
  }

  /** The run kept some file's bytes but respelled its path: a change the key does not see. */
  ghost predicate Respelled(base: Baseline, result: Results) {
    exists k | k in base && k in result :: base[k].bytes == result[k].bytes && base[k].path != result[k].path
  }

  lemma AscendingIsDistinct(paths: Paths, changes: seq<Change>)
    requires Ascending(paths, changes)
    ensures DistinctChanges(paths, changes)
  {
    forall i, j | 0 <= i < j < |changes|
      ensures paths.key(changes[i].path) != paths.key(changes[j].path)
    {
      LessIsTotal(paths.key(changes[i].path), paths.key(changes[j].path));
    }
  }

  lemma AppliedAt(paths: Paths, base: Baseline, result: Results, changes: seq<Change>, after: Files, k: Text)
    requires IsDelta(paths, base, result, changes) && Changed(paths, FilesOf(base), after, changes)
    requires forall j | j in base :: paths.key(base[j].path) == j
    requires forall j | j in result :: paths.key(result[j].path) == j
    ensures k in after <==> k in result
    ensures k in result ==> after[k].bytes == result[k].bytes
    ensures k in result ==> after[k].path == if k in base && base[k].bytes == result[k].bytes then base[k].path else result[k].path
  {
    var needed := Needed(base, result, k);
    if needed.Some? {
      assert needed.value in changes && paths.key(needed.value.path) == k;
    } else {
      assert forall c | c in changes :: paths.key(c.path) != k;
    }
  }

  /**
     Applying the delta to the workspace gives the files of the run: the same keys with the same
     bytes, and the same spelling of every path exactly when nothing was merely respelled.
   */
  lemma DeltaReproducesResult(paths: Paths, base: Baseline, result: Results, changes: seq<Change>)
    requires IsDelta(paths, base, result, changes)
    requires forall k | k in base :: paths.key(base[k].path) == k
    requires forall k | k in result :: paths.key(result[k].path) == k
    ensures var after := Apply(paths, FilesOf(base), changes);
      && after.Keys == result.Keys && (forall k | k in result :: after[k].bytes == result[k].bytes)
      && (after == result <==> !Respelled(base, result))
  {
    AscendingIsDistinct(paths, changes);
    ApplyChanges(paths, FilesOf(base), changes);
    var after := Apply(paths, FilesOf(base), changes);
    AppliedEverywhere(paths, base, result, changes, after);
    if Respelled(base, result) {
      var k :| k in base && k in result && base[k].bytes == result[k].bytes && base[k].path != result[k].path;
      assert after[k] != result[k];
    }
  }

  lemma AppliedEverywhere(paths: Paths, base: Baseline, result: Results, changes: seq<Change>, after: Files)
    requires IsDelta(paths, base, result, changes) && Changed(paths, FilesOf(base), after, changes)
    requires forall j | j in base :: paths.key(base[j].path) == j
    requires forall j | j in result :: paths.key(result[j].path) == j
    ensures after.Keys == result.Keys
    ensures forall k | k in result ::
      && after[k].bytes == result[k].bytes
      && after[k].path == if k in base && base[k].bytes == result[k].bytes then base[k].path else result[k].path
  {
    forall k
      ensures k in after <==> k in result
      ensures k in result ==> after[k].bytes == result[k].bytes
      ensures k in result ==> after[k].path == if k in base && base[k].bytes == result[k].bytes then base[k].path else result[k].path
    {
      AppliedAt(paths, base, result, changes, after, k);
    }
  }

  // ----- the host's check

  predicate BaseMatches(base: Baseline, k: Text, c: Change) {
    if c.Delete? then k in base && c.base == base[k].base
    else c.target == if k in base then Some(base[k].base) else None
  }

  function WrittenBytes(changes: seq<Change>): nat {
    if changes == [] then 0
    else WrittenBytes(changes[..|changes| - 1]) + (if changes[|changes| - 1].Write? then |changes[|changes| - 1].bytes| else 0)
  }

  /** What the host accepts: safe paths in strict order, the bases it knows, and bounded sizes. */
  predicate Acceptable(paths: Paths, base: Baseline, changes: seq<Change>) {
    && |changes| <= MAX_ENTRIES * 2 && Ascending(paths, changes) && WrittenBytes(changes) <= MAX_TOTAL_BYTES
    && forall i | 0 <= i < |changes| :: AcceptableChange(paths, base, changes[i])
  }

  lemma AscendingStep(paths: Paths, changes: seq<Change>, index: nat)
    requires index < |changes| && Ascending(paths, changes[..index])
    ensures Ascending(paths, changes[..index + 1])
        <==> index == 0 || Less(paths.key(changes[index - 1].path), paths.key(changes[index].path))
  {
    var done, more := changes[..index], changes[..index + 1];
    assert forall i | 0 <= i < index :: more[i] == done[i];
    if index > 0 && Less(paths.key(changes[index - 1].path), paths.key(changes[index].path)) {
      forall i | 0 <= i < index
        ensures Less(paths.key(more[i].path), paths.key(more[index].path))
      {
        if i < index - 1 {
          assert Less(paths.key(done[i].path), paths.key(done[index - 1].path));
          LessIsTransitive(paths.key(more[i].path), paths.key(more[index - 1].path), paths.key(more[index].path));
        }
      }
    }
    if index > 0 && Ascending(paths, more) {
      assert Less(paths.key(more[index - 1].path), paths.key(more[index].path));
    }
  }

  predicate AcceptableChange(paths: Paths, base: Baseline, c: Change) {
    paths.safe(c.path) && BaseMatches(base, paths.key(c.path), c) && (c.Write? ==> |c.bytes| <= MAX_FILE_BYTES)
  }

  /** The first changes pass, apart from their number. */
  predicate AcceptableSoFar(paths: Paths, base: Baseline, changes: seq<Change>) {
    && Ascending(paths, changes) && WrittenBytes(changes) <= MAX_TOTAL_BYTES
    && forall i | 0 <= i < |changes| :: AcceptableChange(paths, base, changes[i])
  }

  lemma {:induction false} WrittenBytesGrow(changes: seq<Change>, n: nat)
    requires n <= |changes|
    ensures WrittenBytes(changes[..n]) <= WrittenBytes(changes)
    decreases |changes| - n
  {
    if n < |changes| {
      assert changes[..n + 1][..n] == changes[..n];
      WrittenBytesGrow(changes, n + 1);
    } else {
      assert changes[..n] == changes;
    }
  }

  lemma PrefixesPass(paths: Paths, base: Baseline, changes: seq<Change>, n: nat)
    requires n <= |changes| && AcceptableSoFar(paths, base, changes)
    ensures AcceptableSoFar(paths, base, changes[..n])
  {
    WrittenBytesGrow(changes, n);
  }

  /** One turn of the check, and what it says about the whole. */
  lemma CheckStep(paths: Paths, base: Baseline, changes: seq<Change>, index: nat)
    requires index < |changes| && AcceptableSoFar(paths, base, changes[..index])
    ensures AcceptableSoFar(paths, base, changes[..index + 1]) <==>
      && (index == 0 || Less(paths.key(changes[index - 1].path), paths.key(changes[index].path)))
      && AcceptableChange(paths, base, changes[index])
      && (changes[index].Write? ==> WrittenBytes(changes[..index]) + |changes[index].bytes| <= MAX_TOTAL_BYTES)
    ensures WrittenBytes(changes[..index + 1])
         == WrittenBytes(changes[..index]) + if changes[index].Write? then |changes[index].bytes| else 0
  {
    var more := changes[..index + 1];
    assert more[..index] == changes[..index] && more[index] == changes[index];
    AscendingStep(paths, changes, index);
  }

  /** A delta is taken exactly when it is acceptable, and taken as it is. */
  method ParseWorkspaceDelta(paths: Paths, base: Baseline, changes: seq<Change>) returns (result: Option<seq<Change>>)
    ensures result == if Acceptable(paths, base, changes) then Some(changes) else None
  {
    if |changes| > MAX_ENTRIES * 2 {
      return None;
    }
    var parsed: seq<Change> := [];
    var totalBytes := 0;
    for index := 0 to |changes|
      invariant parsed == changes[..index] && AcceptableSoFar(paths, base, parsed) && totalBytes == WrittenBytes(parsed)
    {
      var change := changes[index];
      var pathKey := paths.key(change.path);
      CheckStep(paths, base, changes, index);
      if AcceptableSoFar(paths, base, changes) {
        PrefixesPass(paths, base, changes, index + 1);
      }
      if !paths.safe(change.path) {
        return None;
      }
      if index > 0 && !Less(paths.key(changes[index - 1].path), pathKey) {
        return None;
      }
      if !BaseMatches(base, pathKey, change) {
        return None;
      }
      if change.Write? {
        if |change.bytes| > MAX_FILE_BYTES {
          return None;
        }
        totalBytes := totalBytes + |change.bytes|;
        if totalBytes > MAX_TOTAL_BYTES {
          return None;
        }
      }
      parsed := parsed + [change];
    }
    assert changes[..|changes|] == changes;
    return Some(parsed);
  }

  /** The files the changes write, in order. */
  function WrittenFiles(changes: seq<Change>): seq<ResultFile> {
    if changes == [] then []
    else WrittenFiles(changes[..|changes| - 1])
         + (if changes[|changes| - 1].Write? then [ResultFile(changes[|changes| - 1].path, changes[|changes| - 1].bytes)] else [])
  }

  lemma {:induction false} TotalOfAppend(files: seq<ResultFile>, more: seq<ResultFile>)
    ensures TotalBytes(files + more) == TotalBytes(files) + TotalBytes(more)
    decreases |files|
  {
    if files == [] {
      assert files + more == more;
    } else {
      assert (files + more)[1..] == files[1..] + more;
      TotalOfAppend(files[1..], more);
    }
  }

  lemma {:induction false} WrittenFilesWeigh(changes: seq<Change>)
    ensures TotalBytes(WrittenFiles(changes)) == WrittenBytes(changes)
    decreases |changes|
  {
    if changes != [] {
      var last := changes[|changes| - 1];
      WrittenFilesWeigh(changes[..|changes| - 1]);
      TotalOfAppend(WrittenFiles(changes[..|changes| - 1]), if last.Write? then [ResultFile(last.path, last.bytes)] else []);
    }
  }

  /**
     What taking a delta can do to the files: whatever is there afterwards is as it was, or was written under a safe
     path within 2 MiB and replaces nothing or the base it names; whatever is gone was deleted under the base it had;
     and all that is written is within 8 MiB.
   */
  lemma AcceptedIsHarmless(paths: Paths, base: Baseline, changes: seq<Change>, after: Files)
    requires Acceptable(paths, base, changes) && after == Apply(paths, FilesOf(base), changes)
    ensures forall k | k in base && k !in after :: exists c :: c in changes && c == Delete(c.path, base[k].base) && paths.key(c.path) == k
    ensures forall k | k in after && !(k in base && after[k] == FilesOf(base)[k]) ::
      && paths.safe(after[k].path) && paths.key(after[k].path) == k && |after[k].bytes| <= 2_097_152
      && Write(after[k].path, if k in base then Some(base[k].base) else None, after[k].bytes) in changes
    ensures |changes| <= 1_024 && TotalBytes(WrittenFiles(changes)) <= 8_388_608
  {
    AscendingIsDistinct(paths, changes);
    ApplyChanges(paths, FilesOf(base), changes);
    WrittenFilesWeigh(changes);
    forall k
      ensures k in base && k !in after ==> exists c :: c in changes && c == Delete(c.path, base[k].base) && paths.key(c.path) == k
      ensures k in after && !(k in base && after[k] == FilesOf(base)[k]) ==>
        && paths.safe(after[k].path) && paths.key(after[k].path) == k && |after[k].bytes| <= 2_097_152
        && Write(after[k].path, if k in base then Some(base[k].base) else None, after[k].bytes) in changes
    {
      if c :| c in changes && paths.key(c.path) == k {
        var i :| 0 <= i < |changes| && changes[i] == c;
        assert AcceptableChange(paths, base, changes[i]);
      }
    }
  }

  // ----- every delta of a bounded run is accepted

  lemma {:induction false} CountBound(paths: Paths, changes: seq<Change>, keys: set<Text>)
    requires DistinctChanges(paths, changes) && forall i | 0 <= i < |changes| :: paths.key(changes[i].path) in keys
    ensures |changes| <= |keys|
    decreases |changes|
  {
    if changes != [] {
      CountBound(paths, changes[1..], keys - {paths.key(changes[0].path)});
    }
  }

  lemma {:induction false} KeyCount(paths: Paths, names: seq<Text>, keys: set<Text>)
    requires forall k | k in keys :: exists i | 0 <= i < |names| :: paths.key(names[i]) == k
    ensures |keys| <= |names|
    decreases |names|
  {
    if names == [] {
      assert keys == {};
    } else {
      var head := paths.key(names[0]);
      forall k | k in keys - {head}
        ensures exists i | 0 <= i < |names[1..]| :: paths.key(names[1..][i]) == k
      {
        var i :| 0 <= i < |names| && paths.key(names[i]) == k;
        assert names[1..][i - 1] == names[i];
      }
      KeyCount(paths, names[1..], keys - {head});
    }
  }

  lemma BaselineCount(paths: Paths, files: seq<WorkspaceFile>, base: Baseline)
    requires IsBaseline(paths, files, base)
    ensures |base.Keys| <= |files|
  {
    var names := seq(|files|, i requires 0 <= i < |files| => files[i].path);
    forall k | k in base.Keys
      ensures exists i | 0 <= i < |names| :: paths.key(names[i]) == k
    {
      var i :| 0 <= i < |files| && files[i] == base[k];
      assert paths.key(names[i]) == k;
    }
    KeyCount(paths, names, base.Keys);
  }

  lemma ResultCount(paths: Paths, results: seq<ResultFile>, result: Results)
    requires IsResult(paths, results, result)
    ensures |result.Keys| <= |results|
  {
    var names := seq(|results|, i requires 0 <= i < |results| => results[i].path);
    forall k | k in result.Keys
      ensures exists i | 0 <= i < |names| :: paths.key(names[i]) == k
    {
      var i :| 0 <= i < |results| && results[i] == result[k];
      assert paths.key(names[i]) == k;
    }
    KeyCount(paths, names, result.Keys);
  }

  lemma {:induction false} TotalWithout(results: seq<ResultFile>, i: nat)
    requires i < |results|
    ensures TotalBytes(results) == |results[i].bytes| + TotalBytes(results[..i] + results[i + 1..])
    decreases |results|
  {
    var without := results[..i] + results[i + 1..];
    if i == 0 {
      assert without == results[1..];
    } else {
      assert without[0] == results[0] && without[1..] == results[1..][..i - 1] + results[1..][i..];
      TotalWithout(results[1..], i - 1);
    }
  }

  predicate Matches(paths: Paths, c: Change, r: ResultFile) {
    c.Write? && paths.key(c.path) == paths.key(r.path) && c.bytes == r.bytes
  }

  /** Writes of distinct files that are all among the results weigh no more than the results. */
  lemma {:induction false} WritesWithinResults(paths: Paths, changes: seq<Change>, results: seq<ResultFile>)
    requires DistinctChanges(paths, changes)
    requires forall c | c in changes && c.Write? :: exists i | 0 <= i < |results| :: Matches(paths, c, results[i])
    ensures WrittenBytes(changes) <= TotalBytes(results)
    decreases |changes|
  {
    if changes != [] {
      var last := |changes| - 1;
      var c, before := changes[last], changes[..last];
      assert forall x | x in before :: x in changes;
      if c.Write? {
        assert c in changes;
        var i :| 0 <= i < |results| && Matches(paths, c, results[i]);
        var without := results[..i] + results[i + 1..];
        TotalWithout(results, i);
        forall x | x in before && x.Write?
          ensures exists j | 0 <= j < |without| :: Matches(paths, x, without[j])
        {
          var j :| 0 <= j < |results| && Matches(paths, x, results[j]);
          assert paths.key(x.path) != paths.key(c.path);
          assert j != i;
          assert without[if j < i then j else j - 1] == results[j];
        }
        WritesWithinResults(paths, before, without);
      } else {
        WritesWithinResults(paths, before, results);
      }
    }
  }

  /** The delta of a valid workspace and a bounded snapshot passes the host's check unchanged. */
  lemma DeltaIsAccepted(paths: Paths, files: seq<WorkspaceFile>, results: seq<ResultFile>, base: Baseline, result: Results,
                        changes: seq<Change>)
    requires ValidWorkspace(paths, files) && BoundedSnapshot(paths, results)
    requires IsBaseline(paths, files, base) && IsResult(paths, results, result) && IsDelta(paths, base, result, changes)
    ensures Acceptable(paths, base, changes)
  {
    AscendingIsDistinct(paths, changes);
    forall i | 0 <= i < |changes|
      ensures paths.key(changes[i].path) in base.Keys + result.Keys
    {
      assert changes[i] in changes;
    }
    CountBound(paths, changes, base.Keys + result.Keys);
    BaselineCount(paths, files, base);
    ResultCount(paths, results, result);
    forall c | c in changes && c.Write?
      ensures exists i | 0 <= i < |results| :: Matches(paths, c, results[i])
    {
      var k := paths.key(c.path);
      var i :| 0 <= i < |results| && results[i] == result[k];
      assert Matches(paths, c, results[i]);
    }
    WritesWithinResults(paths, changes, results);
    forall i | 0 <= i < |changes|
      ensures AcceptableChange(paths, base, changes[i])
    {
      ChangeIsAcceptable(paths, files, results, base, result, changes[i]);
    }
  }

  lemma ChangeIsAcceptable(paths: Paths, files: seq<WorkspaceFile>, results: seq<ResultFile>, base: Baseline, result: Results, c: Change)
    requires ValidWorkspace(paths, files) && BoundedSnapshot(paths, results)
    requires IsBaseline(paths, files, base) && IsResult(paths, results, result)
    requires Needed(base, result, paths.key(c.path)) == Some(c)
    ensures AcceptableChange(paths, base, c)
  {
    var k := paths.key(c.path);
    if k in base {
      var i :| 0 <= i < |files| && files[i] == base[k];
    }
    if k in result {
      var i :| 0 <= i < |results| && results[i] == result[k];
    }
  }

  /** A run that only respells a path, and changes nothing else, has an empty delta: the old spelling stays. */
  lemma RespellingIsLost(paths: Paths, key: Text, before: Text, after: Text, bytes: seq<Byte>, base: Base)
    requires paths.key(before) == paths.key(after) == key && before != after
    ensures var baseline := map[key := WorkspaceFile(before, bytes, base)];
      && IsDelta(paths, baseline, map[key := ResultFile(after, bytes)], [])
      && Apply(paths, FilesOf(baseline), []) == map[key := ResultFile(before, bytes)]
  {
  }
}
