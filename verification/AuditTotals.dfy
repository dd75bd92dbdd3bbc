/** The totals of a consumer audit. Repositories are scanned by concurrent workers, so
    results arrive in any order; the totals must not depend on it. */
module AuditTotals {
  import opened Ordering

  // ---- One repository ------------------------------------------------------

  /** What became of one candidate file. */
  datatype FileOutcome = Unavailable | Oversize | Scanned(hits: set<string>, truncated: bool) {
    predicate Truncates() {
      Oversize? || (Scanned? && truncated)
    }

    predicate Flawless() {
      Scanned? && !truncated
    }
  }

  datatype ScanResult = ScanResult(
    candidateFiles: nat, filesCompleted: nat, fileErrors: nat, sourceTruncations: nat,
    selectionErrors: nat, treeTruncations: nat, fileHits: seq<set<string>>, identity: string)
  {
    predicate Complete() {
      fileErrors == 0 && selectionErrors == 0 && sourceTruncations == 0 && treeTruncations == 0
    }

    /** The operations found in any file. */
    function Operations(): set<string> {
      set k, operation | 0 <= k < |fileHits| && operation in fileHits[k] :: operation
    }

    /** No file is lost: the ones neither completed nor in error were truncated. */
    predicate Accounted() {
      filesCompleted + fileErrors <= candidateFiles <= filesCompleted + fileErrors + sourceTruncations
    }
  }

  function Number<T>(xs: seq<T>, p: T -> bool): nat {
    if xs == [] then 0 else Number(xs[..|xs| - 1], p) + if p(xs[|xs| - 1]) then 1 else 0
  }

  lemma {:induction false} NumberZero<T>(xs: seq<T>, p: T -> bool)
    ensures Number(xs, p) == 0 <==> forall k :: 0 <= k < |xs| ==> !p(xs[k])
  {
    if xs != [] {
      NumberZero(xs[..|xs| - 1], p);
      assert forall k :: 0 <= k < |xs| - 1 ==> xs[..|xs| - 1][k] == xs[k];
    }
  }

  lemma {:induction false} NumberJoined<T>(xs: seq<T>, ys: seq<T>, p: T -> bool)
    ensures Number(xs + ys, p) == Number(xs, p) + Number(ys, p)
  {
    if ys == [] {
      assert xs + ys == xs;
    } else {
      NumberJoined(xs, ys[..|ys| - 1], p);
      assert (xs + ys)[..|xs + ys| - 1] == xs + ys[..|ys| - 1];
    }
  }

  /** Counting does not see the order. */
  lemma {:induction false} NumberPermuted<T>(xs: seq<T>, ys: seq<T>, p: T -> bool)
    requires multiset(xs) == multiset(ys)
    ensures Number(xs, p) == Number(ys, p)
  {
    SamePermutedLength(xs, ys);
    if xs != [] {
      var j := TakenOut(xs, ys);
      NumberPermuted(xs[1..], ys[..j] + ys[j + 1..], p);
      assert xs == [xs[0]] + xs[1..] && ys == ys[..j] + ([ys[j]] + ys[j + 1..]);
      NumberJoined([xs[0]], xs[1..], p);
      NumberJoined(ys[..j], [ys[j]] + ys[j + 1..], p);
      NumberJoined([ys[j]], ys[j + 1..], p);
      NumberJoined(ys[..j], ys[j + 1..], p);
    }
  }

  lemma SamePermutedLength<T>(xs: seq<T>, ys: seq<T>)
    requires multiset(xs) == multiset(ys)
    ensures |xs| == |ys|
  {
    assert |multiset(xs)| == |xs| && |multiset(ys)| == |ys|;
  }

  /** Where the first of `xs` stands in `ys`; without it the two still agree. */
  lemma TakenOut<T>(xs: seq<T>, ys: seq<T>) returns (j: nat)
    requires xs != [] && multiset(xs) == multiset(ys)
    ensures j < |ys| && ys[j] == xs[0]
    ensures multiset(xs[1..]) == multiset(ys[..j] + ys[j + 1..])
  {
    assert xs[0] in multiset(ys);
    j :| 0 <= j < |ys| && ys[j] == xs[0];
    assert xs == [xs[0]] + xs[1..];
    assert ys == ys[..j] + [ys[j]] + ys[j + 1..];
    assert multiset(xs) == multiset{xs[0]} + multiset(xs[1..]);
    assert multiset(ys) == multiset{ys[j]} + multiset(ys[..j] + ys[j + 1..]);
    Cancelled(multiset{xs[0]}, multiset(xs[1..]), multiset(ys[..j] + ys[j + 1..]));
  }

  lemma Cancelled<T>(common: multiset<T>, a: multiset<T>, b: multiset<T>)
    requires common + a == common + b
    ensures a == b
  {
    forall x ensures a[x] == b[x] {
      assert (common + a)[x] == common[x] + a[x] && (common + b)[x] == common[x] + b[x];
    }
  }

  lemma SameMembers<T>(xs: seq<T>, ys: seq<T>)
    requires multiset(xs) == multiset(ys)
    ensures forall x :: x in xs <==> x in ys
  {
    forall x ensures x in xs <==> x in ys {
      assert x in xs <==> x in multiset(xs);
      assert x in ys <==> x in multiset(ys);
    }
  }

  /** The operations of the scanned files. */
  function FoundIn(outcomes: seq<FileOutcome>): set<string> {
    set k, operation | 0 <= k < |outcomes| && outcomes[k].Scanned? && operation in outcomes[k].hits :: operation
  }

  /** The loop over a repository's candidate files, in whatever order the set gives them. */
  method ScanFiles(outcomes: seq<FileOutcome>, selectionErrors: nat, treeTruncations: nat, identity: string)
    returns (result: ScanResult)
    ensures result.candidateFiles == |outcomes| && result.identity == identity
    ensures result.selectionErrors == selectionErrors && result.treeTruncations == treeTruncations
    ensures result.filesCompleted == Number(outcomes, (o: FileOutcome) => o.Scanned?)
    ensures result.fileErrors == Number(outcomes, (o: FileOutcome) => o.Unavailable?)
    ensures result.sourceTruncations == Number(outcomes, (o: FileOutcome) => o.Truncates())
    ensures result.filesCompleted + result.fileErrors + Number(outcomes, (o: FileOutcome) => o.Oversize?) == |outcomes|
    ensures result.Accounted()
    ensures result.Operations() == FoundIn(outcomes)
    ensures forall k :: 0 <= k < |result.fileHits| ==> result.fileHits[k] != {}
  {
    result := ScanResult(|outcomes|, 0, 0, 0, selectionErrors, treeTruncations, [], identity);
    for k := 0 to |outcomes|
      invariant result.candidateFiles == |outcomes| && result.identity == identity
      invariant result.selectionErrors == selectionErrors && result.treeTruncations == treeTruncations
      invariant result.filesCompleted == Number(outcomes[..k], (o: FileOutcome) => o.Scanned?)
      invariant result.fileErrors == Number(outcomes[..k], (o: FileOutcome) => o.Unavailable?)
      invariant result.sourceTruncations == Number(outcomes[..k], (o: FileOutcome) => o.Truncates())
      invariant result.filesCompleted + result.fileErrors + Number(outcomes[..k], (o: FileOutcome) => o.Oversize?) == k
      invariant k <= result.filesCompleted + result.fileErrors + result.sourceTruncations
      invariant result.Operations() == FoundIn(outcomes[..k])
      invariant forall h :: 0 <= h < |result.fileHits| ==> result.fileHits[h] != {}
    {
      ghost var before := result;
      assert outcomes[..k + 1][..k] == outcomes[..k];
      FoundInMore(outcomes[..k], outcomes[k]);
      assert outcomes[..k + 1] == outcomes[..k] + [outcomes[k]];
      match outcomes[k]
      case Unavailable =>
        result := result.(fileErrors := result.fileErrors + 1);
      case Oversize =>
        result := result.(sourceTruncations := result.sourceTruncations + 1);
      case Scanned(hits, truncated) =>
        result := result.(
          filesCompleted := result.filesCompleted + 1,
          sourceTruncations := result.sourceTruncations + if truncated then 1 else 0);
        if hits != {} {
          OperationsMore(before, hits);
          result := result.(fileHits := result.fileHits + [hits]);
        }
    }
    assert outcomes[..|outcomes|] == outcomes;
  }

  lemma FoundInMore(outcomes: seq<FileOutcome>, last: FileOutcome)
    ensures FoundIn(outcomes + [last]) == FoundIn(outcomes) + if last.Scanned? then last.hits else {}
  {
    var all := outcomes + [last];
    forall operation | operation in FoundIn(outcomes) ensures operation in FoundIn(all) {
      var k :| 0 <= k < |outcomes| && outcomes[k].Scanned? && operation in outcomes[k].hits;
      assert all[k].Scanned? && operation in all[k].hits;
    }
    assert all[|outcomes|] == last;
  }

  lemma OperationsMore(result: ScanResult, hits: set<string>)
    ensures result.(fileHits := result.fileHits + [hits]).Operations() == result.Operations() + hits
  {
    var all := result.fileHits + [hits];
    forall operation | operation in result.Operations() + hits
      ensures exists k :: 0 <= k < |all| && operation in all[k]
    {
      if operation in hits {
        assert operation in all[|result.fileHits|];
      } else {
        var k :| 0 <= k < |result.fileHits| && operation in result.fileHits[k];
        assert operation in all[k];
      }
    }
  }

  /** A repository is complete exactly when its selection and tree were, and every file
      was read to its end. */
  lemma {:induction false} CompleteMeansFlawless(outcomes: seq<FileOutcome>, result: ScanResult)
    requires result.fileErrors == Number(outcomes, (o: FileOutcome) => o.Unavailable?)
    requires result.sourceTruncations == Number(outcomes, (o: FileOutcome) => o.Truncates())
    ensures result.Complete() <==>
            && result.selectionErrors == 0 && result.treeTruncations == 0
            && forall k :: 0 <= k < |outcomes| ==> outcomes[k].Flawless()
  {
    NumberZero(outcomes, (o: FileOutcome) => o.Unavailable?);
    NumberZero(outcomes, (o: FileOutcome) => o.Truncates());
  }

  // ---- What a source class counts ------------------------------------------

  datatype Tally = Tally(
    attempted: nat, completed: nat, incomplete: nat, candidateFiles: nat, filesCompleted: nat, fileErrors: nat,
    selectionErrors: nat, sourceTruncations: nat, treeTruncations: nat,
    fileHits: multiset<string>, repositoryHits: multiset<string>)
  {
    function Plus(other: Tally): Tally {
      Tally(attempted + other.attempted, completed + other.completed, incomplete + other.incomplete,
            candidateFiles + other.candidateFiles, filesCompleted + other.filesCompleted,
            fileErrors + other.fileErrors, selectionErrors + other.selectionErrors,
            sourceTruncations + other.sourceTruncations, treeTruncations + other.treeTruncations,
            fileHits + other.fileHits, repositoryHits + other.repositoryHits)
    }
  }

  function Zero(): Tally {
    Tally(0, 0, 0, 0, 0, 0, 0, 0, 0, multiset{}, multiset{})
  }

  /** A worker's answer: it failed, or it has a result. */
  datatype Outcome = Failed | Done(result: ScanResult) {
    predicate Flawless() {
      Done? && result.Complete()
    }

    function Operations(): set<string> {
      if Done? then result.Operations() else {}
    }
  }

  /** How often each operation was found, counted once a file. */
  function HitsOf(fileHits: seq<set<string>>): multiset<string> {
    if fileHits == [] then multiset{} else HitsOf(fileHits[..|fileHits| - 1]) + multiset(fileHits[|fileHits| - 1])
  }

  function FileTally(result: ScanResult): Tally {
    Tally(0, 0, 0, result.candidateFiles, result.filesCompleted, result.fileErrors, result.selectionErrors,
          result.sourceTruncations, result.treeTruncations, HitsOf(result.fileHits), multiset{})
  }

  /** What one answer adds to a class; remote classes count repositories at once. */
  function Contribution(outcome: Outcome, remote: bool): Tally {
    match outcome
    case Failed => Zero().(attempted := 1, incomplete := 1)
    case Done(result) =>
      FileTally(result).(
        attempted := 1,
        completed := if result.Complete() then 1 else 0,
        incomplete := if result.Complete() then 0 else 1,
        repositoryHits := if remote then multiset(result.Operations()) else multiset{})
  }

  function Total(outcomes: seq<Outcome>, remote: bool): Tally {
    if outcomes == [] then Zero()
    else Total(outcomes[..|outcomes| - 1], remote).Plus(Contribution(outcomes[|outcomes| - 1], remote))
  }

  lemma PlusMoves(a: Tally, b: Tally, c: Tally)
    ensures a.Plus(b.Plus(c)) == a.Plus(b).Plus(c) && a.Plus(b) == b.Plus(a)
  {}

  lemma {:induction false} TotalJoined(xs: seq<Outcome>, ys: seq<Outcome>, remote: bool)
    ensures Total(xs + ys, remote) == Total(xs, remote).Plus(Total(ys, remote))
  {
    if ys == [] {
      assert xs + ys == xs;
      ZeroPlus(Total(xs, remote));
    } else {
      var front, last := ys[..|ys| - 1], ys[|ys| - 1];
      TotalJoined(xs, front, remote);
      assert (xs + ys)[..|xs + ys| - 1] == xs + front;
      PlusMoves(Total(xs, remote), Total(front, remote), Contribution(last, remote));
    }
  }

  lemma TotalTakenOut(ys: seq<Outcome>, j: nat, remote: bool)
    requires j < |ys|
    ensures Total(ys, remote) == Contribution(ys[j], remote).Plus(Total(ys[..j] + ys[j + 1..], remote))
  {
    var a, one, c := Total(ys[..j], remote), Contribution(ys[j], remote), Total(ys[j + 1..], remote);
    assert ys == ys[..j + 1] + ys[j + 1..] && ys[..j + 1][..j] == ys[..j];
    TotalJoined(ys[..j + 1], ys[j + 1..], remote);
    assert Total(ys[..j + 1], remote) == a.Plus(one);
    TotalJoined(ys[..j], ys[j + 1..], remote);
    Rearranged(a, one, c);
  }

  lemma Rearranged(a: Tally, b: Tally, c: Tally)
    ensures a.Plus(b).Plus(c) == b.Plus(a.Plus(c))
  {}

  /** The totals are the same for every order in which the answers arrive. */
  lemma {:induction false} TotalPermuted(xs: seq<Outcome>, ys: seq<Outcome>, remote: bool)
    requires multiset(xs) == multiset(ys)
    ensures Total(xs, remote) == Total(ys, remote)
    decreases |xs|
  {
    SamePermutedLength(xs, ys);
    if xs != [] {
      var j := TakenOut(xs, ys);
      TotalPermuted(xs[1..], ys[..j] + ys[j + 1..], remote);
      assert xs[..0] + xs[1..] == xs[1..];
      TotalTakenOut(xs, 0, remote);
      TotalTakenOut(ys, j, remote);
    }
  }

  /** Every answer is attempted, and either completed or incomplete. */
  lemma {:induction false} Conserved(outcomes: seq<Outcome>, remote: bool)
    ensures var t := Total(outcomes, remote); t.completed + t.incomplete == t.attempted == |outcomes|
  {
    if outcomes != [] {
      Conserved(outcomes[..|outcomes| - 1], remote);
    }
  }

  /** A counter summed over the results that arrived. */
  function Added(outcomes: seq<Outcome>, counter: ScanResult -> nat): nat {
    if outcomes == [] then 0
    else
      var last := outcomes[|outcomes| - 1];
      Added(outcomes[..|outcomes| - 1], counter) + if last.Done? then counter(last.result) else 0
  }

  /** The counter adds up, and an answer adds this much to it. */
  ghost predicate AddsUp(counter: Tally -> nat, adds: Outcome -> nat, remote: bool) {
    && counter(Zero()) == 0
    && (forall a: Tally, b: Tally :: counter(a.Plus(b)) == counter(a) + counter(b))
    && (forall o: Outcome :: counter(Contribution(o, remote)) == adds(o))
  }

  lemma {:induction false} CounterSum(
    outcomes: seq<Outcome>, remote: bool, counter: Tally -> nat, result: ScanResult -> nat)
    requires AddsUp(counter, (o: Outcome) => if o.Done? then result(o.result) else 0, remote)
    ensures counter(Total(outcomes, remote)) == Added(outcomes, result)
  {
    if outcomes != [] {
      CounterSum(outcomes[..|outcomes| - 1], remote, counter, result);
    }
  }

  lemma {:induction false} CounterNumber(
    outcomes: seq<Outcome>, remote: bool, counter: Tally -> nat, counted: Outcome -> bool)
    requires AddsUp(counter, (o: Outcome) => if counted(o) then 1 else 0, remote)
    ensures counter(Total(outcomes, remote)) == Number(outcomes, counted)
  {
    if outcomes != [] {
      CounterNumber(outcomes[..|outcomes| - 1], remote, counter, counted);
    }
  }

  /** Each counter of a class is the sum of that counter of the results. */
  lemma CountersAdd(outcomes: seq<Outcome>, remote: bool)
    ensures var t := Total(outcomes, remote);
            && t.candidateFiles == Added(outcomes, (r: ScanResult) => r.candidateFiles)
            && t.filesCompleted == Added(outcomes, (r: ScanResult) => r.filesCompleted)
            && t.fileErrors == Added(outcomes, (r: ScanResult) => r.fileErrors)
            && t.selectionErrors == Added(outcomes, (r: ScanResult) => r.selectionErrors)
            && t.sourceTruncations == Added(outcomes, (r: ScanResult) => r.sourceTruncations)
            && t.treeTruncations == Added(outcomes, (r: ScanResult) => r.treeTruncations)
  {
    CounterSum(outcomes, remote, (t: Tally) => t.candidateFiles, (r: ScanResult) => r.candidateFiles);
    CounterSum(outcomes, remote, (t: Tally) => t.filesCompleted, (r: ScanResult) => r.filesCompleted);
    CounterSum(outcomes, remote, (t: Tally) => t.fileErrors, (r: ScanResult) => r.fileErrors);
    CounterSum(outcomes, remote, (t: Tally) => t.selectionErrors, (r: ScanResult) => r.selectionErrors);
    CounterSum(outcomes, remote, (t: Tally) => t.sourceTruncations, (r: ScanResult) => r.sourceTruncations);
    CounterSum(outcomes, remote, (t: Tally) => t.treeTruncations, (r: ScanResult) => r.treeTruncations);
  }

  /** Every answer is attempted, and completed when nothing went wrong in it. */
  lemma AnswersCounted(outcomes: seq<Outcome>, remote: bool)
    ensures Total(outcomes, remote).attempted == |outcomes|
    ensures Total(outcomes, remote).completed == Number(outcomes, (o: Outcome) => Well(o))
    ensures Total(outcomes, remote).incomplete == |outcomes| - Number(outcomes, (o: Outcome) => Well(o))
  {
    Conserved(outcomes, remote);
    var counted := (o: Outcome) => Well(o);
    forall o: Outcome ensures Contribution(o, remote).completed == if counted(o) then 1 else 0 {}
    CounterNumber(outcomes, remote, (t: Tally) => t.completed, counted);
  }

  /** The answer came, with no error and nothing cut short. */
  predicate Well(o: Outcome) {
    o.Done? && o.result.fileErrors == o.result.selectionErrors == o.result.sourceTruncations == 0 &&
    o.result.treeTruncations == 0
  }

  /** The files of a result that have the operation. */
  function FilesWith(operation: string): ScanResult -> nat {
    (r: ScanResult) => Number(r.fileHits, (hits: set<string>) => operation in hits)
  }

  /** An operation is counted once for every file that has it, and, in a remote class,
      once for every repository that has it in some file. */
  lemma HitsMean(outcomes: seq<Outcome>, remote: bool, operation: string)
    ensures Total(outcomes, remote).fileHits[operation] == Added(outcomes, FilesWith(operation))
    ensures Total(outcomes, remote).repositoryHits[operation] ==
            if remote then Number(outcomes, Having(operation)) else 0
  {
    forall o: Outcome
      ensures Contribution(o, remote).fileHits[operation] == if o.Done? then FilesWith(operation)(o.result) else 0
    {
      if o.Done? {
        HitsCountFiles(o.result.fileHits, operation);
      }
    }
    CounterSum(outcomes, remote, (t: Tally) => t.fileHits[operation], FilesWith(operation));
    if remote {
      forall o: Outcome
        ensures Contribution(o, true).repositoryHits[operation] == if Having(operation)(o) then 1 else 0
      {
        assert o.Done? ==> (operation in o.result.Operations() <==> HasOperation(o.result, operation));
      }
      CounterNumber(outcomes, remote, (t: Tally) => t.repositoryHits[operation], Having(operation));
    } else {
      CounterNumber(outcomes, remote, (t: Tally) => t.repositoryHits[operation], (o: Outcome) => false);
      NumberZero(outcomes, (o: Outcome) => false);
    }
  }

  function Having(operation: string): Outcome -> bool {
    (o: Outcome) => o.Done? && HasOperation(o.result, operation)
  }

  predicate HasOperation(result: ScanResult, operation: string) {
    exists k :: 0 <= k < |result.fileHits| && operation in result.fileHits[k]
  }

  predicate AllFlawless(outcomes: seq<Outcome>) {
    forall k :: 0 <= k < |outcomes| ==> outcomes[k].Flawless()
  }

  predicate AllAccounted(outcomes: seq<Outcome>) {
    forall k :: 0 <= k < |outcomes| ==> outcomes[k].Done? ==> outcomes[k].result.Accounted()
  }

  /** Nothing went wrong in what was counted. */
  predicate Spotless(t: Tally) {
    t.incomplete == 0 && t.fileErrors == t.selectionErrors == t.sourceTruncations == t.treeTruncations == 0
  }

  /** Nothing is incomplete exactly when every answer is flawless; then nothing else is
      amiss, and every candidate file was completed. */
  lemma {:induction false} NothingIncomplete(outcomes: seq<Outcome>, remote: bool)
    ensures Total(outcomes, remote).incomplete == 0 <==> AllFlawless(outcomes)
    ensures AllFlawless(outcomes) ==> Spotless(Total(outcomes, remote))
    ensures AllFlawless(outcomes) && AllAccounted(outcomes) ==>
              Total(outcomes, remote).filesCompleted == Total(outcomes, remote).candidateFiles
  {
    if outcomes != [] {
      var front, last := outcomes[..|outcomes| - 1], outcomes[|outcomes| - 1];
      NothingIncomplete(front, remote);
    }
  }

  // ---- A source class ------------------------------------------------------

  datatype Counts = Counts(
    sourceRequested: bool, listingCompleted: bool, selectionRequested: bool, selectionCompleted: bool,
    selectionSkipped: bool, selectionTruncations: nat, overallComplete: bool,
    discovered: nat, logical: nat, tally: Tally)

  function NewCounts(): Counts {
    Counts(false, false, false, false, false, 0, false, 0, 0, Zero())
  }

  /** `finalize_source`. */
  function Finalized(c: Counts): Counts {
    var selection :=
      c.selectionRequested && !c.selectionSkipped && c.tally.selectionErrors == 0 && c.selectionTruncations == 0;
    c.(selectionCompleted := selection,
       overallComplete := c.sourceRequested && c.listingCompleted && selection && c.tally.attempted == c.discovered &&
                          c.tally.incomplete == 0 && c.tally.fileErrors == 0 && c.tally.sourceTruncations == 0 &&
                          c.tally.treeTruncations == 0)
  }

  /** Adds one for every operation, in any order. */
  method CountOperations(counts: multiset<string>, operations: set<string>) returns (r: multiset<string>)
    ensures r == counts + multiset(operations)
  {
    r := counts;
    var left := operations;
    while left != {}
      invariant left <= operations && r == counts + multiset(operations - left)
      decreases |left|
    {
      var operation :| operation in left;
      assert operations - (left - {operation}) == operations - left + {operation};
      r := r[operation := r[operation] + 1];
      left := left - {operation};
    }
    assert operations - left == operations;
  }

  method CountFiles(counts: multiset<string>, fileHits: seq<set<string>>) returns (r: multiset<string>)
    ensures r == counts + HitsOf(fileHits)
  {
    r := counts;
    for k := 0 to |fileHits|
      invariant r == counts + HitsOf(fileHits[..k])
    {
      assert fileHits[..k + 1][..k] == fileHits[..k];
      r := CountOperations(r, fileHits[k]);
    }
    assert fileHits[..|fileHits|] == fileHits;
  }

  /** An operation is counted once for every file that has it. */
  lemma {:induction false} HitsCountFiles(fileHits: seq<set<string>>, operation: string)
    ensures HitsOf(fileHits)[operation] == Number(fileHits, (hits: set<string>) => operation in hits)
  {
    if fileHits != [] {
      HitsCountFiles(fileHits[..|fileHits| - 1], operation);
    }
  }

  function Recorded(t: Tally, result: ScanResult, remote: bool): Tally {
    var merged := t.Plus(FileTally(result));
    var judged := if result.Complete() then merged.(completed := merged.completed + 1)
                  else merged.(incomplete := merged.incomplete + 1);
    if remote then judged.(repositoryHits := judged.repositoryHits + multiset(result.Operations())) else judged
  }

  lemma DoneAdds(t: Tally, result: ScanResult, remote: bool)
    ensures Recorded(t.(attempted := t.attempted + 1), result, remote) == t.Plus(Contribution(Done(result), remote))
  {
    assert t.repositoryHits + multiset{} == t.repositoryHits;
  }

  lemma ZeroPlus(t: Tally)
    ensures Zero().Plus(t) == t == t.Plus(Zero())
  {}

  /** The dictionary of one source class, which the scans update in place. */
  class SourceClass {
    var counts: Counts

    constructor ()
      ensures counts == NewCounts()
      ensures !counts.sourceRequested && !counts.listingCompleted && !counts.overallComplete
      ensures !counts.selectionRequested && !counts.selectionCompleted && !counts.selectionSkipped
      ensures counts.selectionTruncations == counts.discovered == counts.logical == 0 && counts.tally == Total([], true)
    {
      counts := NewCounts();
    }

    method Request(discovered: nat)
      modifies this
      ensures counts == old(counts).(
        sourceRequested := true, listingCompleted := true, selectionRequested := true, discovered := discovered)
    {
      counts := counts.(sourceRequested := true);
      counts := counts.(listingCompleted := true);
      counts := counts.(selectionRequested := true);
      counts := counts.(discovered := discovered);
    }

    method MergeFileCounts(result: ScanResult)
      modifies this
      ensures counts == old(counts).(tally := old(counts).tally.Plus(FileTally(result)))
    {
      var t := counts.tally;
      t := t.(candidateFiles := t.candidateFiles + result.candidateFiles);
      t := t.(filesCompleted := t.filesCompleted + result.filesCompleted);
      t := t.(fileErrors := t.fileErrors + result.fileErrors);
      t := t.(selectionErrors := t.selectionErrors + result.selectionErrors);
      t := t.(sourceTruncations := t.sourceTruncations + result.sourceTruncations);
      t := t.(treeTruncations := t.treeTruncations + result.treeTruncations);
      var found := CountFiles(t.fileHits, result.fileHits);
      counts := counts.(tally := t.(fileHits := found));
    }

    method Incomplete()
      modifies this
      ensures counts == old(counts).(tally := old(counts).tally.(incomplete := old(counts).tally.incomplete + 1))
    {
      counts := counts.(tally := counts.tally.(incomplete := counts.tally.incomplete + 1));
    }

    method Completed()
      modifies this
      ensures counts == old(counts).(tally := old(counts).tally.(completed := old(counts).tally.completed + 1))
    {
      counts := counts.(tally := counts.tally.(completed := counts.tally.completed + 1));
    }

    /** One future has finished. */
    method Arrive(outcome: Outcome, remote: bool)
      modifies this
      ensures counts == old(counts).(tally := old(counts).tally.Plus(Contribution(outcome, remote)))
    {
      ghost var before := counts.tally;
      counts := counts.(tally := counts.tally.(attempted := counts.tally.attempted + 1));
      match outcome
      case Failed =>
        Incomplete();
      case Done(result) =>
        DoneAdds(before, result, remote);
        Record(result, remote);
    }

    method Record(result: ScanResult, remote: bool)
      modifies this
      ensures counts == old(counts).(tally := Recorded(old(counts).tally, result, remote))
    {
      MergeFileCounts(result);
      if result.Complete() {
        Completed();
      } else {
        Incomplete();
      }
      if remote {
        CountRepository(result.Operations());
      }
    }

    method CountRepository(operations: set<string>)
      modifies this
      ensures counts == old(counts).(
        tally := old(counts).tally.(repositoryHits := old(counts).tally.repositoryHits + multiset(operations)))
    {
      var found := CountOperations(counts.tally.repositoryHits, operations);
      counts := counts.(tally := counts.tally.(repositoryHits := found));
    }

    method Finalize()
      modifies this
      ensures counts == Finalized(old(counts))
    {
      var t := counts.tally;
      counts := counts.(selectionCompleted :=
        counts.selectionRequested && !counts.selectionSkipped &&
        t.selectionErrors == 0 && counts.selectionTruncations == 0);
      counts := counts.(overallComplete :=
        counts.sourceRequested && counts.listingCompleted && counts.selectionCompleted &&
        t.attempted == counts.discovered &&
        t.incomplete == 0 && t.fileErrors == 0 && t.sourceTruncations == 0 && t.treeTruncations == 0);
    }
  }

  // ---- Remote scans --------------------------------------------------------

  /** `sorted(current | operations)`. */
  function NamedUnion(current: seq<string>, operations: set<string>): seq<string> {
    Sorted(Elements(current) + operations)
  }

  class NamedConsumers {
    var fortNum: seq<string>
    var mhd1d: seq<string>

    constructor ()
      ensures fortNum == [] && mhd1d == []
    {
      fortNum, mhd1d := [], [];
    }

    method ObserveLocal(isFortNum: bool, outcome: Outcome)
      modifies this
      ensures Elements(fortNum) == Elements(old(fortNum)) + if isFortNum then outcome.Operations() else {}
      ensures StrictlySorted(old(fortNum)) ==> StrictlySorted(fortNum)
      ensures mhd1d == old(mhd1d)
    {
      if outcome.Done? && isFortNum {
        fortNum := NamedUnion(fortNum, outcome.Operations());
      }
    }

    /** Unions the operations of a repository that is one of the two. */
    method Observe(arrival: Remote)
      modifies this
      ensures Elements(fortNum) ==
              Elements(old(fortNum)) + if arrival.fullName == FORTNUM then arrival.outcome.Operations() else {}
      ensures Elements(mhd1d) ==
              Elements(old(mhd1d)) + if arrival.fullName == MHD1D then arrival.outcome.Operations() else {}
      ensures StrictlySorted(old(fortNum)) ==> StrictlySorted(fortNum)
      ensures StrictlySorted(old(mhd1d)) ==> StrictlySorted(mhd1d)
    {
      if arrival.outcome.Done? {
        if arrival.fullName == FORTNUM {
          fortNum := NamedUnion(fortNum, arrival.outcome.Operations());
        }
        if arrival.fullName == MHD1D {
          mhd1d := NamedUnion(mhd1d, arrival.outcome.Operations());
        }
      }
    }
  }

  /** A repository, by its lower-case full name, and its worker's answer. */
  datatype Remote = Remote(fullName: string, outcome: Outcome)

  function OutcomesOf(arrivals: seq<Remote>): (outcomes: seq<Outcome>)
    ensures |outcomes| == |arrivals| && forall k :: 0 <= k < |arrivals| ==> outcomes[k] == arrivals[k].outcome
  {
    seq(|arrivals|, k requires 0 <= k < |arrivals| => arrivals[k].outcome)
  }

  /** The operations found in the repositories of a name. */
  function NamedOperations(arrivals: seq<Remote>, fullName: string): set<string> {
    set a, operation | a in arrivals && a.fullName == fullName && operation in a.outcome.Operations() :: operation
  }

  const FORTNUM := "lazy-fortran/fortnum"
  const MHD1D := "itpplasma/mhd1d"

  /** The class after the scan of a new class: nothing but the answers matters. */
  function RemoteCounts(before: Counts, arrivals: seq<Remote>): Counts {
    Finalized(before.(
      sourceRequested := true, listingCompleted := true, selectionRequested := true,
      discovered := |arrivals|, logical := |arrivals|,
      tally := before.tally.Plus(Total(OutcomesOf(arrivals), true))))
  }

  method ScanRemote(target: SourceClass, named: NamedConsumers, arrivals: seq<Remote>)
    modifies target, named
    ensures target.counts == RemoteCounts(old(target.counts), arrivals)
    ensures Elements(named.fortNum) == Elements(old(named.fortNum)) + NamedOperations(arrivals, "lazy-fortran/fortnum")
    ensures Elements(named.mhd1d) == Elements(old(named.mhd1d)) + NamedOperations(arrivals, "itpplasma/mhd1d")
    ensures StrictlySorted(old(named.fortNum)) ==> StrictlySorted(named.fortNum)
    ensures StrictlySorted(old(named.mhd1d)) ==> StrictlySorted(named.mhd1d)
  {
    target.Request(|arrivals|);
    target.counts := target.counts.(logical := |arrivals|);
    ghost var start := target.counts;
    ZeroPlus(start.tally);
    for k := 0 to |arrivals|
      invariant target.counts == start.(tally := start.tally.Plus(Total(OutcomesOf(arrivals[..k]), true)))
      invariant Elements(named.fortNum) == Elements(old(named.fortNum)) + NamedOperations(arrivals[..k], FORTNUM)
      invariant Elements(named.mhd1d) == Elements(old(named.mhd1d)) + NamedOperations(arrivals[..k], MHD1D)
      invariant StrictlySorted(old(named.fortNum)) ==> StrictlySorted(named.fortNum)
      invariant StrictlySorted(old(named.mhd1d)) ==> StrictlySorted(named.mhd1d)
    {
      var arrival := arrivals[k];
      ArrivesNext(start.tally, arrivals, k);
      NamedNext(Elements(old(named.fortNum)), arrivals, k, FORTNUM);
      NamedNext(Elements(old(named.mhd1d)), arrivals, k, MHD1D);
      target.Arrive(arrival.outcome, true);
      named.Observe(arrival);
    }
    assert arrivals[..|arrivals|] == arrivals;
    target.Finalize();
  }

  lemma ArrivesNext(start: Tally, arrivals: seq<Remote>, k: nat)
    requires k < |arrivals|
    ensures start.Plus(Total(OutcomesOf(arrivals[..k + 1]), true)) ==
            start.Plus(Total(OutcomesOf(arrivals[..k]), true)).Plus(Contribution(arrivals[k].outcome, true))
  {
    assert OutcomesOf(arrivals[..k + 1])[..k] == OutcomesOf(arrivals[..k]);
    PlusMoves(start, Total(OutcomesOf(arrivals[..k]), true), Contribution(arrivals[k].outcome, true));
  }

  lemma NamedNext(start: set<string>, arrivals: seq<Remote>, k: nat, fullName: string)
    requires k < |arrivals|
    ensures start + NamedOperations(arrivals[..k + 1], fullName) ==
            start + NamedOperations(arrivals[..k], fullName) +
            if arrivals[k].fullName == fullName then arrivals[k].outcome.Operations() else {}
  {}

  /** The whole result of a remote scan is the same for every order of completion. */
  lemma RemoteOrderIrrelevant(before: Counts, xs: seq<Remote>, ys: seq<Remote>, fullName: string)
    requires multiset(xs) == multiset(ys)
    ensures RemoteCounts(before, xs) == RemoteCounts(before, ys)
    ensures NamedOperations(xs, fullName) == NamedOperations(ys, fullName)
  {
    SamePermutedLength(xs, ys);
    SameMembers(xs, ys);
    OutcomesPermuted(xs, ys);
    TotalPermuted(OutcomesOf(xs), OutcomesOf(ys), true);
  }

  lemma {:induction false} OutcomesPermuted(xs: seq<Remote>, ys: seq<Remote>)
    requires multiset(xs) == multiset(ys)
    ensures multiset(OutcomesOf(xs)) == multiset(OutcomesOf(ys))
    decreases |xs|
  {
    SamePermutedLength(xs, ys);
    if xs != [] {
      var j := TakenOut(xs, ys);
      OutcomesPermuted(xs[1..], ys[..j] + ys[j + 1..]);
      assert OutcomesOf(xs) == [xs[0].outcome] + OutcomesOf(xs[1..]);
      assert OutcomesOf(ys) == OutcomesOf(ys)[..j] + [ys[j].outcome] + OutcomesOf(ys)[j + 1..];
      assert OutcomesOf(ys[..j] + ys[j + 1..]) == OutcomesOf(ys)[..j] + OutcomesOf(ys)[j + 1..];
    } else {
      assert OutcomesOf(xs) == OutcomesOf(ys);
    }
  }

  /** A class scanned anew: completed and incomplete make up what was attempted and
      discovered, and it is complete exactly when every answer was flawless. */
  lemma RemoteComplete(arrivals: seq<Remote>)
    ensures var after := RemoteCounts(NewCounts(), arrivals);
            && after.tally.completed + after.tally.incomplete == after.tally.attempted == after.discovered
            && after.discovered == after.logical == |arrivals|
            && (after.overallComplete <==> AllFlawless(OutcomesOf(arrivals)))
            && (after.overallComplete ==> after.tally.completed == after.discovered)
            && (after.overallComplete && AllAccounted(OutcomesOf(arrivals)) ==>
                  after.tally.filesCompleted == after.tally.candidateFiles)
  {
    ZeroPlus(Total(OutcomesOf(arrivals), true));
    Conserved(OutcomesOf(arrivals), true);
    NothingIncomplete(OutcomesOf(arrivals), true);
  }
}
