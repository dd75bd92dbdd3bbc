/** Splitting the corpus into strided shards, and merging the shards' reports. */
module CorpusShards {
  import opened Ordering

  datatype Result<+T> = Ok(value: T) | Err(error: Error)

  datatype Error = EmptyShard | IncompleteShard | WrongReportCount | DuplicateScripts | NotCovered

  /** What an audit reports, by script. */
  type Report<Record> = map<string, Record>

  predicate Distinct<T(==)>(xs: seq<T>) {
    forall i, j :: 0 <= i < j < |xs| ==> xs[i] != xs[j]
  }

  // ---- Running one shard ---------------------------------------------------

  /** Python's `scripts[from::count]`. */
  function Selected(scripts: seq<string>, from: nat, count: nat): seq<string>
    requires count > 0
    decreases |scripts| - from
  {
    if from >= |scripts| then [] else [scripts[from]] + Selected(scripts, from + count, count)
  }

  /** A shard is accepted when it has scripts and its audit reports exactly those. */
  function Run<Record>(scripts: seq<string>, shard: nat, count: nat, audit: Report<Record>): (r: Result<Report<Record>>)
    requires shard < count
    ensures r.Ok? ==> r.value == audit && audit.Keys == Elements(Selected(scripts, shard, count)) != {}
    ensures r == Err(EmptyShard) <==> |scripts| <= shard
  {
    var selected := Selected(scripts, shard, count);
    if selected == [] then Err(EmptyShard)
    else if audit.Keys != Elements(selected) then Err(IncompleteShard)
    else assert selected[0] in Elements(selected); Ok(audit)
  }

  lemma {:induction false} SelectedAt(scripts: seq<string>, from: nat, count: nat, k: nat)
    requires count > 0
    ensures k < |Selected(scripts, from, count)| <==> from + k * count < |scripts|
    ensures k < |Selected(scripts, from, count)| ==> Selected(scripts, from, count)[k] == scripts[from + k * count]
    decreases k
  {
    if k == 0 {
    } else if from < |scripts| {
      SelectedAt(scripts, from + count, count, k - 1);
      assert from + count + (k - 1) * count == from + k * count;
    } else {
      assert k * count >= 0;
    }
  }

  /** Later shards are no longer, and at most one script shorter. */
  lemma {:induction false} SizesDifferByOne(scripts: seq<string>, a: nat, b: nat, count: nat)
    requires count > 0 && a <= b <= a + count
    ensures |Selected(scripts, b, count)| <= |Selected(scripts, a, count)| <= |Selected(scripts, b, count)| + 1
    decreases 2 * |scripts| - a - b
  {
    if b < |scripts| {
      SizesDifferByOne(scripts, b, a + count, count);
    }
  }

  /** The script at `i` is in shard `i % count`. */
  lemma ScriptInShard(scripts: seq<string>, i: nat, count: nat)
    requires i < |scripts| && count > 0
    ensures i % count < count && scripts[i] in Elements(Selected(scripts, i % count, count))
  {
    var k := i / count;
    assert i == i % count + k * count;
    SelectedAt(scripts, i % count, count, k);
    assert Selected(scripts, i % count, count)[k] == scripts[i];
  }

  lemma {:induction false} SameResidue(s: nat, k: nat, t: nat, l: nat, count: nat)
    requires s < count && t < count && s + k * count == t + l * count
    ensures s == t
    decreases k
  {
    assert k > 0 ==> k * count == (k - 1) * count + count && (k - 1) * count >= 0;
    assert l > 0 ==> l * count == (l - 1) * count + count && (l - 1) * count >= 0;
    if k > 0 && l > 0 {
      SameResidue(s, k - 1, t, l - 1, count);
    }
  }

  /** No script is in two shards. */
  lemma ShardsDisjoint(scripts: seq<string>, s: nat, t: nat, count: nat)
    requires Distinct(scripts) && s < count && t < count && s != t
    ensures Elements(Selected(scripts, s, count)) !! Elements(Selected(scripts, t, count))
  {
    var a, b := Selected(scripts, s, count), Selected(scripts, t, count);
    forall x | x in Elements(a) ensures x !in Elements(b) {
      if x in Elements(b) {
        var k :| 0 <= k < |a| && a[k] == x;
        var l :| 0 <= l < |b| && b[l] == x;
        SelectedAt(scripts, s, count, k);
        SelectedAt(scripts, t, count, l);
        SameResidue(s, k, t, l, count);
      }
    }
  }

  /** A shard holds only scripts of the corpus. */
  lemma ShardFromCorpus(scripts: seq<string>, shard: nat, count: nat)
    requires count > 0
    ensures Elements(Selected(scripts, shard, count)) <= Elements(scripts)
  {
    var selected := Selected(scripts, shard, count);
    forall x | x in Elements(selected) ensures x in Elements(scripts) {
      var k :| 0 <= k < |selected| && selected[k] == x;
      SelectedAt(scripts, shard, count, k);
      assert scripts[shard + k * count] == x;
    }
  }

  // ---- Merging -------------------------------------------------------------

  predicate PairwiseDisjoint<Record>(reports: seq<Report<Record>>) {
    forall i, j :: 0 <= i < j < |reports| ==> reports[i].Keys !! reports[j].Keys
  }

  function AllKeys<Record>(reports: seq<Report<Record>>): set<string> {
    set k, x | 0 <= k < |reports| && x in reports[k].Keys :: x
  }

  /** The merge is accepted exactly when the reports are as many as expected, share no
      script, and cover the corpus; it then holds every report's own records. */
  predicate Mergeable<Record>(reports: seq<Report<Record>>, count: nat, corpus: set<string>) {
    |reports| == count && PairwiseDisjoint(reports) && AllKeys(reports) == corpus
  }

  predicate IsUnion<Record(==)>(combined: Report<Record>, reports: seq<Report<Record>>) {
    && combined.Keys == AllKeys(reports)
    && forall k, x :: 0 <= k < |reports| && x in reports[k].Keys ==> x in combined.Keys && combined[x] == reports[k][x]
  }

  method Merge<Record(==)>(reports: seq<Report<Record>>, count: nat, corpus: set<string>)
    returns (r: Result<Report<Record>>)
    ensures r.Ok? <==> Mergeable(reports, count, corpus)
    ensures r.Ok? ==> IsUnion(r.value, reports)
    ensures r == Err(WrongReportCount) <==> |reports| != count
    ensures r == Err(DuplicateScripts) <==> |reports| == count && !PairwiseDisjoint(reports)
  {
    if |reports| != count {
      return Err(WrongReportCount);
    }
    var combined: Report<Record> := map[];
    assert IsUnion(combined, reports[..0]);
    for k := 0 to |reports|
      invariant PairwiseDisjoint(reports[..k]) && IsUnion(combined, reports[..k])
    {
      var report := reports[k];
      if combined.Keys * report.Keys != {} {
        var x :| x in combined.Keys * report.Keys;
        var j :| 0 <= j < |reports[..k]| && x in reports[..k][j].Keys;
        assert x in reports[j].Keys && x in reports[k].Keys;
        return Err(DuplicateScripts);
      }
      assert combined.Keys !! report.Keys by {
        forall x | x in combined.Keys ensures x !in report.Keys {
          assert x !in combined.Keys * report.Keys;
        }
      }
      UnionExtends(combined, reports[..k], report);
      assert reports[..k + 1] == reports[..k] + [report];
      combined := combined + report;
    }
    assert reports[..|reports|] == reports;
    if combined.Keys != corpus {
      return Err(NotCovered);
    }
    return Ok(combined);
  }

  lemma UnionExtends<Record>(combined: Report<Record>, reports: seq<Report<Record>>, report: Report<Record>)
    requires PairwiseDisjoint(reports) && IsUnion(combined, reports) && combined.Keys !! report.Keys
    ensures PairwiseDisjoint(reports + [report]) && IsUnion(combined + report, reports + [report])
  {
    KeysExtend(reports, report);
    var longer := reports + [report];
    forall i, j | 0 <= i < j < |longer| ensures longer[i].Keys !! longer[j].Keys {
      if j == |reports| {
        assert reports[i].Keys <= combined.Keys by {
          forall x | x in reports[i].Keys ensures x in combined.Keys {}
        }
      }
    }
    forall k, x | 0 <= k < |longer| && x in longer[k].Keys
      ensures x in combined.Keys + report.Keys && (combined + report)[x] == longer[k][x]
    {
      if k < |reports| {
        assert x in reports[k].Keys;
      }
    }
  }

  lemma KeysExtend<Record>(reports: seq<Report<Record>>, report: Report<Record>)
    ensures AllKeys(reports + [report]) == AllKeys(reports) + report.Keys
  {
    var longer := reports + [report];
    forall x | x in AllKeys(longer) ensures x in AllKeys(reports) + report.Keys {
      var k :| 0 <= k < |longer| && x in longer[k].Keys;
      assert k < |reports| ==> x in reports[k].Keys;
    }
    forall x | x in AllKeys(reports) + report.Keys ensures x in AllKeys(longer) {
      if x in report.Keys {
        assert x in longer[|reports|].Keys;
      } else {
        var k :| 0 <= k < |reports| && x in reports[k].Keys;
        assert x in longer[k].Keys;
      }
    }
  }

  /** An accepted merge gives every script of the corpus from exactly one report. */
  lemma MergeCoversOnce<Record>(reports: seq<Report<Record>>, count: nat, corpus: set<string>, script: string)
    requires Mergeable(reports, count, corpus) && script in corpus
    ensures exists k :: 0 <= k < |reports| && script in reports[k].Keys &&
              forall j :: 0 <= j < |reports| && script in reports[j].Keys ==> j == k
  {}

  // ---- All shards together -------------------------------------------------

  /** `reports[k]` is the accepted report of shard `shards[k]`. */
  predicate AcceptedFor<Record>(scripts: seq<string>, count: nat, shards: seq<nat>, reports: seq<Report<Record>>) {
    && |shards| == |reports|
    && forall k :: 0 <= k < |shards| ==> shards[k] < count && Run(scripts, shards[k], count, reports[k]).Ok?
  }

  function Below(count: nat): (numbers: set<nat>)
    ensures |numbers| == count && forall s: nat :: s in numbers <==> s < count
  {
    if count == 0 then {} else Below(count - 1) + {count - 1}
  }

  lemma DistinctCover(shards: seq<nat>, count: nat)
    requires Distinct(shards) && |shards| == count && forall k :: 0 <= k < |shards| ==> shards[k] < count
    ensures forall s: nat :: s < count ==> s in shards
  {
    var found, all := (set s | s in shards), Below(count);
    DistinctCardinality(shards);
    assert found <= all;
    if found != all {
      var missing :| missing in all && missing !in found;
      SubsetCardinality(found, all - {missing});
    }
    forall s: nat | s < count ensures s in shards {
      assert s in found;
    }
  }

  /** Accepted shard reports merge, in whatever order their files are read, exactly
      when every shard is among them once. */
  lemma MergeIffEveryShardOnce<Record>(scripts: seq<string>, count: nat, shards: seq<nat>, reports: seq<Report<Record>>)
    requires Distinct(scripts) && count > 0 && AcceptedFor(scripts, count, shards, reports)
    ensures Mergeable(reports, count, Elements(scripts)) <==> Distinct(shards) && |shards| == count
  {
    if Mergeable(reports, count, Elements(scripts)) {
    } else if Distinct(shards) && |shards| == count {
      EveryShardMerges(scripts, count, shards, reports);
    }
  }

  lemma EveryShardMerges<Record>(scripts: seq<string>, count: nat, shards: seq<nat>, reports: seq<Report<Record>>)
    requires Distinct(scripts) && count > 0 && AcceptedFor(scripts, count, shards, reports)
    requires Distinct(shards) && |shards| == count
    ensures Mergeable(reports, count, Elements(scripts))
  {
    forall i, j | 0 <= i < j < |reports| ensures reports[i].Keys !! reports[j].Keys {
      assert Run(scripts, shards[i], count, reports[i]).Ok? && Run(scripts, shards[j], count, reports[j]).Ok?;
      ShardsDisjoint(scripts, shards[i], shards[j], count);
    }
    forall x | x in AllKeys(reports) ensures x in Elements(scripts) {
      var k :| 0 <= k < |reports| && x in reports[k].Keys;
      assert Run(scripts, shards[k], count, reports[k]).Ok?;
      ShardFromCorpus(scripts, shards[k], count);
    }
    forall x | x in Elements(scripts) ensures x in AllKeys(reports) {
      var i :| 0 <= i < |scripts| && scripts[i] == x;
      ScriptInShard(scripts, i, count);
      DistinctCover(shards, count);
      assert i % count in shards;
      var k :| 0 <= k < |shards| && shards[k] == i % count;
      assert Run(scripts, shards[k], count, reports[k]).Ok?;
      assert x in reports[k].Keys;
    }
  }

  /** Running every shard succeeds exactly when there are as many scripts as shards;
      `record` is what the audit reports of a script. */
  lemma EveryShardRuns<Record>(scripts: seq<string>, count: nat, record: string -> Record)
    requires count > 0
    ensures (forall s: nat :: s < count ==> Run(scripts, s, count, Audit(scripts, s, count, record)).Ok?) <==>
            count <= |scripts|
  {
    if |scripts| < count {
      assert Run(scripts, count - 1, count, Audit(scripts, count - 1, count, record)).Err?;
    } else {
      forall s: nat | s < count ensures Run(scripts, s, count, Audit(scripts, s, count, record)).Ok? {}
    }
  }

  function Audit<Record>(scripts: seq<string>, shard: nat, count: nat, record: string -> Record): (r: Report<Record>)
    requires shard < count
    ensures r.Keys == Elements(Selected(scripts, shard, count))
  {
    map x | x in Elements(Selected(scripts, shard, count)) :: record(x)
  }

  /** The audits of all shards, merged in any order: the records of the whole corpus. */
  lemma RunAllThenMerge<Record>(scripts: seq<string>, count: nat, record: string -> Record,
                                shards: seq<nat>, combined: Report<Record>)
    requires Distinct(scripts) && 0 < count <= |scripts|
    requires Distinct(shards) && |shards| == count && forall k :: 0 <= k < |shards| ==> shards[k] < count
    requires IsUnion(combined, Audits(scripts, shards, count, record))
    ensures Mergeable(Audits(scripts, shards, count, record), count, Elements(scripts))
    ensures combined.Keys == Elements(scripts) && forall x :: x in combined.Keys ==> combined[x] == record(x)
  {
    var reports := Audits(scripts, shards, count, record);
    EveryShardMerges(scripts, count, shards, reports);
    assert combined.Keys == Elements(scripts);
    forall x | x in combined.Keys ensures combined[x] == record(x) {
      var k :| 0 <= k < |reports| && x in reports[k].Keys;
      assert combined[x] == reports[k][x];
    }
  }

  /** The audits of the shards, in the order of their report files. */
  function Audits<Record>(scripts: seq<string>, shards: seq<nat>, count: nat, record: string -> Record):
    (reports: seq<Report<Record>>)
    requires forall k :: 0 <= k < |shards| ==> shards[k] < count
    ensures |reports| == |shards|
    ensures forall k :: 0 <= k < |shards| ==> reports[k] == Audit(scripts, shards[k], count, record)
  {
    seq(|shards|, k requires 0 <= k < |shards| => Audit(scripts, shards[k], count, record))
  }
}
