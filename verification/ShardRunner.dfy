/** Round-robin shards of the test files, their audit, and the acceptance rule of one shard. */
module ShardRunner {
  import opened Basics
  import opened JUnitEvidence
  import opened JUnitCounting

  // ------------------------------------------------------------------ partitions

  /** Every `count`-th file from position `start` on. */
  function Stride(files: seq<string>, start: nat, count: nat): seq<string>
    requires count >= 1
    decreases |files| - start
  {
    if start >= |files| then [] else [files[start]] + Stride(files, start + count, count)
  }

  datatype RunnerError = BadShardArguments | EmptyShard | AccountingFailure

  predicate ShardArguments(number: int, count: int) {
    count >= 1 && 1 <= number <= count
  }

  function PartitionTestFiles(files: seq<string>, number: int, count: int): Result<seq<string>, RunnerError> {
    if !ShardArguments(number, count) then Err(BadShardArguments) else Ok(Stride(files, number - 1, count))
  }

  function Flatten(partitions: seq<seq<string>>): seq<string> {
    if partitions == [] then [] else Flatten(partitions[..|partitions| - 1]) + partitions[|partitions| - 1]
  }

  predicate Unrepeated(s: multiset<string>) {
    forall x :: x in s ==> s[x] == 1
  }

  /** The audit compares occurrence counts of what was discovered and what was assigned. */
  predicate AuditPasses(files: seq<string>, partitions: seq<seq<string>>) {
    var expected, observed := multiset(files), multiset(Flatten(partitions));
    && Unrepeated(expected) && Unrepeated(observed)
    && expected - observed == multiset{} && observed - expected == multiset{}
  }

  /** The audit passes exactly when every file was discovered once and assigned once, and nothing else was. */
  lemma {:induction false} AuditDecides(files: seq<string>, partitions: seq<seq<string>>)
    ensures AuditPasses(files, partitions) <==>
              && (forall f :: f in files ==> multiset(files)[f] == 1)
              && (forall f :: multiset(Flatten(partitions))[f] == multiset(files)[f])
  {
    var expected, observed := multiset(files), multiset(Flatten(partitions));
    assert forall f :: f in files <==> f in expected;
    if expected - observed == multiset{} && observed - expected == multiset{} {
      forall f ensures observed[f] == expected[f] {
        assert (expected - observed)[f] == 0 && (observed - expected)[f] == 0;
      }
    }
    if forall f :: observed[f] == expected[f] {
      assert observed == expected;
    }
  }

  function Shards(files: seq<string>, count: nat): seq<seq<string>>
    requires count >= 1
  {
    seq(count, s requires 0 <= s < count => Stride(files, s, count))
  }

  method BuildPartitions(files: seq<string>, count: int) returns (r: Result<seq<seq<string>>, RunnerError>)
    ensures r.Ok? <==> 1 <= count <= |files| && Distinct(files)
    ensures r.Ok? ==> r.value == Shards(files, count) && AuditPasses(files, r.value)
    ensures r == Err(AccountingFailure) <==> 1 <= count <= |files| && !Distinct(files)
  {
    if !ShardArguments(1, count) { return Err(BadShardArguments); }
    var partitions: seq<seq<string>> := [];
    for number := 1 to count + 1
      invariant partitions == Shards(files, count)[..number - 1]
    {
      var partition := PartitionTestFiles(files, number, count);
      partitions := partitions + [partition.value];
    }
    assert partitions == Shards(files, count);
    ShardsNonEmpty(files, count);
    if exists p :: p in partitions && p == [] { return Err(EmptyShard); }
    ShardsArePartition(files, count);
    DistinctByCount(files);
    if !AuditPasses(files, partitions) { return Err(AccountingFailure); }
    return Ok(partitions);
  }

  lemma {:induction false} StrideMember(files: seq<string>, start: nat, count: nat, k: nat)
    requires count >= 1
    ensures k < |Stride(files, start, count)| <==> start + k * count < |files|
    ensures k < |Stride(files, start, count)| ==> Stride(files, start, count)[k] == files[start + k * count]
    decreases k
  {
    if start >= |files| {
      assert k * count >= 0;
    } else if k == 0 {
      assert k * count == 0;
    } else {
      StrideMember(files, start + count, count, k - 1);
      assert (k - 1) * count + count == k * count;
    }
  }

  lemma {:induction false} ShardsNonEmpty(files: seq<string>, count: nat)
    requires count >= 1
    ensures (exists p :: p in Shards(files, count) && p == []) <==> count > |files|
  {
    if count > |files| {
      assert Shards(files, count)[|files|] == [] && Shards(files, count)[|files|] in Shards(files, count);
    }
    if p :| p in Shards(files, count) && p == [] {
      var s :| 0 <= s < count && Shards(files, count)[s] == p;
      StrideMember(files, s, count, 0);
    }
  }

  /** A file appended to the list goes to exactly one shard: position modulo the shard count. */
  lemma {:induction false} StrideSnoc(files: seq<string>, x: string, start: nat, count: nat)
    requires count >= 1
    ensures Stride(files + [x], start, count) ==
            Stride(files, start, count) + if start <= |files| && (|files| - start) % count == 0 then [x] else []
    decreases |files| - start
  {
    if start < |files| {
      StrideSnoc(files, x, start + count, count);
      ModShift(|files| - start, count);
      if |files| - start < count { ModSmall(|files| - start, count); }
    } else if start == |files| {
      assert Stride(files + [x], start + count, count) == [];
    }
  }

  lemma {:induction false} ModShift(a: nat, m: nat)
    requires m >= 1
    ensures a >= m ==> (a - m) % m == a % m
  {
    if a >= m {
      var q, r := a / m, a % m;
      assert a - m == (q - 1) * m + r;
      ModUnique(a - m, q - 1, r, m);
    }
  }

  lemma {:induction false} ModSmall(a: nat, m: nat)
    requires 0 < a < m
    ensures a % m != 0
  {
  }

  lemma {:induction false} ModUnique(a: nat, q: int, r: nat, m: nat)
    requires m >= 1 && r < m && a == q * m + r
    ensures a % m == r
  {
    var d := a / m - q;
    assert a == (a / m) * m + a % m;
    assert d * m == r - a % m by { assert d * m == (a / m) * m - q * m; }
    MulBounds(d, m);
  }

  lemma {:induction false} MulBounds(d: int, m: int)
    requires m >= 0
    ensures d >= 1 ==> d * m >= m
    ensures d <= -1 ==> d * m <= -m
  {
  }

  function ShardsFirst(files: seq<string>, n: nat, count: nat): multiset<string>
    requires n <= count && count >= 1
  {
    multiset(Flatten(Shards(files, count)[..n]))
  }

  lemma {:induction false} FlattenStep(files: seq<string>, n: nat, count: nat)
    requires 0 < n <= count
    ensures ShardsFirst(files, n, count) == ShardsFirst(files, n - 1, count) + multiset(Stride(files, n - 1, count))
  {
    var shards := Shards(files, count);
    assert shards[..n][..n - 1] == shards[..n - 1];
    assert shards[..n][n - 1] == Stride(files, n - 1, count);
  }

  lemma {:induction false} NoShards(files: seq<string>, count: nat)
    requires count >= 1
    ensures ShardsFirst(files, 0, count) == multiset{}
  {
  }

  lemma {:induction false} AppendedOnce(files: seq<string>, x: string, n: nat, count: nat)
    requires n <= count && count >= 1
    ensures ShardsFirst(files + [x], n, count) ==
            ShardsFirst(files, n, count) + if |files| % count < n then multiset{x} else multiset{}
  {
    hide Stride, Flatten, Shards, ShardsFirst;
    if n == 0 {
      NoShards(files, count);
      NoShards(files + [x], count);
    } else {
      AppendedOnce(files, x, n - 1, count);
      FlattenStep(files, n, count);
      FlattenStep(files + [x], n, count);
      StrideSnoc(files, x, n - 1, count);
      TurnOf(|files|, n - 1, count);
      assert multiset(Stride(files, n - 1, count) + [x]) == multiset(Stride(files, n - 1, count)) + multiset{x};
    }
  }

  lemma {:induction false} TurnOf(a: nat, s: nat, m: nat)
    requires s < m
    ensures s <= a && (a - s) % m == 0 <==> a % m == s
  {
    if a % m == s {
      assert a == (a / m) * m + s;
      ModUnique(a - s, a / m, 0, m);
    }
    if s <= a && (a - s) % m == 0 {
      assert a == ((a - s) / m) * m + s;
      ModUnique(a, (a - s) / m, s, m);
    }
  }

  /** Round-robin neither drops nor repeats a file. */
  lemma {:induction false} ShardsArePartition(files: seq<string>, count: nat)
    requires count >= 1
    ensures multiset(Flatten(Shards(files, count))) == multiset(files)
  {
    assert Shards(files, count)[..count] == Shards(files, count);
    if files == [] {
      EmptyShards(count, count);
    } else {
      var init, x := files[..|files| - 1], files[|files| - 1];
      ShardsArePartition(init, count);
      assert Shards(init, count)[..count] == Shards(init, count);
      assert files == init + [x];
      AppendedOnce(init, x, count, count);
    }
  }

  lemma {:induction false} EmptyShards(n: nat, count: nat)
    requires n <= count && count >= 1
    ensures ShardsFirst([], n, count) == multiset{}
  {
    if n > 0 {
      EmptyShards(n - 1, count);
      FlattenStep([], n, count);
    }
  }

  lemma {:induction false} DistinctByCount(files: seq<string>)
    ensures Distinct(files) <==> Unrepeated(multiset(files))
  {
    if Distinct(files) {
      forall x | x in multiset(files)
        ensures multiset(files)[x] == 1
      {
        CountAtMostOne(files, x);
      }
    } else {
      var i, j :| 0 <= i < j < |files| && files[i] == files[j];
      CountTwice(files, i, j);
    }
  }

  /** Shard sizes differ by at most one file. */
  lemma {:induction false} ShardsAreBalanced(files: seq<string>, s: nat, t: nat, count: nat)
    requires s < count && t < count
    ensures |Stride(files, s, count)| <= |Stride(files, t, count)| + 1
  {
    var n := |Stride(files, t, count)|;
    StrideMember(files, t, count, n);
    StrideMember(files, s, count, n + 1);
    assert (n + 1) * count == n * count + count;
  }

  // ------------------------------------------------------------------ running a shard

  const PYTEST_EXIT_NO_TESTS_COLLECTED := 5

  /** One pytest process: its exit code unless it could not be launched, and the JUnit file it left. */
  datatype Outcome = Outcome(returnCode: Option<int>, document: Option<Element>)

  ghost predicate HasEvidence(o: Outcome) {
    o.document.Some? && Evident(o.document.value)
  }

  ghost predicate FileAccepted(o: Outcome) {
    && HasEvidence(o)
    && (o.returnCode == Some(0)
        || (o.returnCode == Some(PYTEST_EXIT_NO_TESTS_COLLECTED) && AllSkipped(EvidenceOf(o.document.value))))
  }

  ghost function TestsIn(files: seq<string>, run: string -> Outcome): nat {
    if files == [] then 0
    else
      var o := run(files[|files| - 1]);
      TestsIn(files[..|files| - 1], run) + if HasEvidence(o) then EvidenceOf(o.document.value).tests else 0
  }

  datatype Report = Report(exitCode: int, totalTests: nat, attempted: seq<string>, failedFiles: seq<string>)

  method JudgeFile(o: Outcome) returns (accepted: bool, tests: nat)
    ensures accepted <==> FileAccepted(o)
    ensures tests == if HasEvidence(o) then EvidenceOf(o.document.value).tests else 0
  {
    hide Evident, AllSkipped, EvidenceOf;
    var evidence := ReadEvidence(o.document);
    tests := if evidence.Ok? then evidence.value.tests else 0;
    var acceptedReturnCode :=
      o.returnCode == Some(0)
      || (o.returnCode == Some(PYTEST_EXIT_NO_TESTS_COLLECTED) && evidence.Ok? && AllSkipped(evidence.value));
    accepted := acceptedReturnCode && evidence.Ok?;
  }

  method RunTestShard(files: seq<string>, number: int, count: int, run: string -> Outcome)
    returns (r: Result<Report, RunnerError>)
    ensures r.Ok? <==> ShardArguments(number, count) && count <= |files| && Distinct(files)
    ensures r.Ok? ==>
      var selected := Stride(files, number - 1, count);
      && r.value.attempted == selected
      && r.value.totalTests == TestsIn(selected, run)
      && (forall f :: f in r.value.failedFiles <==> f in selected && !FileAccepted(run(f)))
      && r.value.exitCode == if ShardGreen(files, number - 1, count, run) then 0 else 1
  {
    hide Evident, AllSkipped, EvidenceOf, AuditPasses, Distinct, Stride, FileAccepted, HasEvidence, Flatten;
    if !ShardArguments(number, count) { return Err(BadShardArguments); }
    var partitions := BuildPartitions(files, count);
    if partitions.Err? { return Err(partitions.error); }
    var selected := partitions.value[number - 1];
    var attempted: seq<string>, failedFiles: seq<string> := [], [];
    var totalTests := 0;
    for k := 0 to |selected|
      invariant attempted == selected[..k]
      invariant totalTests == TestsIn(selected[..k], run)
      invariant forall f :: f in failedFiles <==> exists i :: 0 <= i < k && selected[i] == f && !FileAccepted(run(f))
    {
      var file := selected[k];
      attempted := attempted + [file];
      TestsStep(selected, k, run);
      var accepted, tests := JudgeFile(run(file));
      totalTests := totalTests + tests;
      if !accepted { failedFiles := failedFiles + [file]; }
    }
    assert selected[..|selected|] == selected;
    ShardIsDistinct(files, number - 1, count);
    AttemptsAudit(selected);
    if !AuditPasses(selected, [attempted]) { return Err(AccountingFailure); }
    assert forall f :: f in failedFiles <==> f in selected && !FileAccepted(run(f));
    assert failedFiles != [] <==> exists f :: f in failedFiles by {
      if failedFiles != [] { assert failedFiles[0] in failedFiles; }
    }
    return Ok(Report(if failedFiles != [] then 1 else 0, totalTests, attempted, failedFiles));
  }

  lemma {:induction false} MulMonotone(i: nat, j: nat, m: nat)
    requires i < j && m >= 1
    ensures 0 <= i * m < j * m
  {
    assert j * m == i * m + (j - i) * m;
    MulBounds(j - i, m);
  }

  lemma {:induction false} AttemptsAudit(selected: seq<string>)
    requires Distinct(selected)
    ensures AuditPasses(selected, [selected])
  {
    assert [selected][..0] == [];
    assert Flatten([selected]) == selected;
    DistinctByCount(selected);
  }

  lemma {:induction false} TestsStep(files: seq<string>, k: nat, run: string -> Outcome)
    requires k < |files|
    ensures TestsIn(files[..k + 1], run) == TestsIn(files[..k], run) +
            if HasEvidence(run(files[k])) then EvidenceOf(run(files[k]).document.value).tests else 0
  {
    hide Evident, EvidenceOf;
    assert files[..k + 1][..k] == files[..k] && files[..k + 1][k] == files[k];
  }

  lemma {:induction false} ShardIsDistinct(files: seq<string>, s: nat, count: nat)
    requires Distinct(files) && s < count
    ensures Distinct(Stride(files, s, count))
  {
    hide Stride;
    var shard := Stride(files, s, count);
    forall i, j | 0 <= i < j < |shard|
      ensures shard[i] != shard[j]
    {
      StrideMember(files, s, count, i);
      StrideMember(files, s, count, j);
      MulMonotone(i, j, count);
    }
  }

  lemma {:induction false} FlattenMember(partitions: seq<seq<string>>, f: string)
    ensures f in Flatten(partitions) <==> exists s :: 0 <= s < |partitions| && f in partitions[s]
  {
    if partitions != [] {
      FlattenMember(partitions[..|partitions| - 1], f);
    }
  }

  lemma {:induction false} EveryFileHasAShard(files: seq<string>, count: nat, f: string)
    requires count >= 1
    ensures f in files <==> exists s :: 0 <= s < count && f in Stride(files, s, count)
  {
    hide Stride, Flatten;
    var shards := Shards(files, count);
    ShardsArePartition(files, count);
    assert f in files <==> f in multiset(files);
    assert f in Flatten(shards) <==> f in multiset(Flatten(shards));
    FlattenMember(shards, f);
    if s :| 0 <= s < count && f in Stride(files, s, count) {
      assert f in shards[s];
    }
    if s :| 0 <= s < |shards| && f in shards[s] {
      assert f in Stride(files, s, count);
    }
  }

  ghost predicate ShardGreen(files: seq<string>, s: nat, count: nat, run: string -> Outcome)
    requires count >= 1
  {
    forall f :: f in Stride(files, s, count) ==> FileAccepted(run(f))
  }

  lemma {:induction false} ShardFilesAreFiles(files: seq<string>, s: nat, count: nat)
    requires s < count
    ensures forall f :: f in Stride(files, s, count) ==> f in files
  {
    forall f | f in Stride(files, s, count)
      ensures f in files
    {
      EveryFileHasAShard(files, count, f);
    }
  }

  /** All shards exit 0 exactly when every discovered file was accepted. */
  lemma {:induction false} AllShardsGreen(files: seq<string>, count: nat, run: string -> Outcome)
    requires 1 <= count
    ensures (forall s :: 0 <= s < count ==> ShardGreen(files, s, count, run)) <==>
            forall f :: f in files ==> FileAccepted(run(f))
  {
    hide FileAccepted;
    if forall s :: 0 <= s < count ==> ShardGreen(files, s, count, run) {
      forall f | f in files
        ensures FileAccepted(run(f))
      {
        EveryFileHasAShard(files, count, f);
        var s :| 0 <= s < count && f in Stride(files, s, count);
        assert ShardGreen(files, s, count, run);
      }
    }
    if forall f :: f in files ==> FileAccepted(run(f)) {
      forall s | 0 <= s < count
        ensures ShardGreen(files, s, count, run)
      {
        ShardFilesAreFiles(files, s, count);
      }
    }
  }

  /** No file is assigned to two shards. */
  lemma {:induction false} OneShardOnly(files: seq<string>, s: nat, t: nat, count: nat, f: string)
    requires Distinct(files) && s < count && t < count
    requires f in Stride(files, s, count) && f in Stride(files, t, count)
    ensures s == t
  {
    var i :| 0 <= i < |Stride(files, s, count)| && Stride(files, s, count)[i] == f;
    var j :| 0 <= j < |Stride(files, t, count)| && Stride(files, t, count)[j] == f;
    StrideMember(files, s, count, i);
    StrideMember(files, t, count, j);
    assert s + i * count == t + j * count;
    ModUnique(s + i * count, i, s, count);
    ModUnique(t + j * count, j, t, count);
  }

  /** A green shard means: every selected file exited 0 with valid evidence, or exited 5 leaving a
      document in which every testcase anywhere was a skipped collection. */
  lemma {:induction false} GreenShardMeans(files: seq<string>, s: nat, count: nat, run: string -> Outcome)
    requires s < count
    ensures ShardGreen(files, s, count, run) <==>
            forall f :: f in Stride(files, s, count) ==>
              && HasEvidence(run(f))
              && (run(f).returnCode == Some(0)
                  || (run(f).returnCode == Some(5) && SkippedDocument(run(f).document.value)))
  {
    hide Evident, AllSkipped, EvidenceOf, SkippedDocument;
    forall f | f in Stride(files, s, count) && HasEvidence(run(f))
      ensures AllSkipped(EvidenceOf(run(f).document.value)) <==> SkippedDocument(run(f).document.value)
    {
      AllSkippedExactlyWhen(run(f).document.value);
    }
  }
}
