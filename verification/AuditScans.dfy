/** The scans of a consumer audit: local worktrees, the searches of the GitHub scan, and
    the merge of audits made apart. */
module AuditScans {
  import opened AuditTotals
  import opened Ordering

  // ---- Repositories by identity --------------------------------------------

  /** Two worktrees of one origin are one logical repository. */
  type Repositories = map<string, set<string>>

  /** `setdefault(identity, set()).update(operations)`. */
  function WithOutcome(repositories: Repositories, outcome: Outcome): Repositories {
    match outcome
    case Failed => repositories
    case Done(result) =>
      var known := if result.identity in repositories then repositories[result.identity] else {};
      repositories[result.identity := known + result.Operations()]
  }

  function Logical(outcomes: seq<Outcome>): Repositories {
    if outcomes == [] then map[]
    else WithOutcome(Logical(outcomes[..|outcomes| - 1]), outcomes[|outcomes| - 1])
  }

  predicate IsOf(outcome: Outcome, identity: string) {
    outcome.Done? && outcome.result.identity == identity
  }

  ghost predicate Known(outcomes: seq<Outcome>, identity: string) {
    exists o :: o in outcomes && IsOf(o, identity)
  }

  function FoundFor(outcomes: seq<Outcome>, identity: string): set<string> {
    set o, operation | o in outcomes && IsOf(o, identity) && operation in o.Operations() :: operation
  }

  /** An identity is there when a result has it, with what any such result found. */
  lemma {:induction false} LogicalMeans(outcomes: seq<Outcome>, identity: string)
    ensures identity in Logical(outcomes) <==> Known(outcomes, identity)
    ensures identity in Logical(outcomes) ==> Logical(outcomes)[identity] == FoundFor(outcomes, identity)
  {
    if outcomes != [] {
      var front, last := outcomes[..|outcomes| - 1], outcomes[|outcomes| - 1];
      LogicalMeans(front, identity);
      assert outcomes == front + [last];
      FoundForMore(front, last, identity);
    }
  }

  lemma FoundForMore(front: seq<Outcome>, last: Outcome, identity: string)
    ensures Known(front + [last], identity) <==> Known(front, identity) || IsOf(last, identity)
    ensures FoundFor(front + [last], identity) ==
            FoundFor(front, identity) + if IsOf(last, identity) then last.Operations() else {}
    ensures !Known(front, identity) ==> FoundFor(front, identity) == {}
  {}

  lemma LogicalPermuted(xs: seq<Outcome>, ys: seq<Outcome>)
    requires multiset(xs) == multiset(ys)
    ensures Logical(xs) == Logical(ys)
  {
    SameMembers(xs, ys);
    forall identity
      ensures identity in Logical(xs) <==> identity in Logical(ys)
      ensures identity in Logical(xs) ==> Logical(xs)[identity] == Logical(ys)[identity]
    {
      LogicalMeans(xs, identity);
      LogicalMeans(ys, identity);
    }
  }

  /** How many of the repositories have the operation. */
  function Holders(repositories: Repositories, operation: string): nat {
    |set identity | identity in repositories && operation in repositories[identity]|
  }

  /** Adds one for every operation of every repository, in any order. */
  method CountRepositories(counts: multiset<string>, repositories: Repositories) returns (r: multiset<string>)
    ensures forall operation :: r[operation] == counts[operation] + Holders(repositories, operation)
  {
    r := counts;
    var left := repositories;
    assert repositories - left.Keys == map[];
    while left != map[]
      invariant left.Keys <= repositories.Keys
      invariant forall identity :: identity in left ==> left[identity] == repositories[identity]
      invariant forall operation :: r[operation] == counts[operation] + Holders(repositories - left.Keys, operation)
      decreases left.Keys
    {
      var identity :| identity in left;
      var rest := left - {identity};
      forall operation
        ensures Holders(repositories - rest.Keys, operation) ==
                Holders(repositories - left.Keys, operation) + if operation in left[identity] then 1 else 0
      {
        HoldersMore(repositories - left.Keys, identity, left[identity], operation);
        assert repositories - rest.Keys == (repositories - left.Keys)[identity := left[identity]];
      }
      r := CountOperations(r, left[identity]);
      assert identity in left.Keys && identity !in rest.Keys;
      left := rest;
    }
    assert repositories - left.Keys == repositories;
  }

  lemma HoldersMore(repositories: Repositories, identity: string, operations: set<string>, operation: string)
    requires identity !in repositories
    ensures Holders(repositories[identity := operations], operation) ==
            Holders(repositories, operation) + if operation in operations then 1 else 0
  {
    var more := repositories[identity := operations];
    var before := set i | i in repositories && operation in repositories[i];
    var after := set i | i in more && operation in more[i];
    assert after == if operation in operations then before + {identity} else before;
  }

  // ---- Local scans ---------------------------------------------------------

  datatype Place = Proj | Code

  /** A worktree: which root it lies under, whether it is FortNum's, and the answer. */
  datatype Local = Local(place: Place, isFortNum: bool, outcome: Outcome)

  function AtPlace(arrivals: seq<Local>, place: Place): seq<Outcome> {
    if arrivals == [] then []
    else
      var last := arrivals[|arrivals| - 1];
      AtPlace(arrivals[..|arrivals| - 1], place) + if last.place == place then [last.outcome] else []
  }

  lemma {:induction false} AtPlaceJoined(xs: seq<Local>, ys: seq<Local>, place: Place)
    ensures AtPlace(xs + ys, place) == AtPlace(xs, place) + AtPlace(ys, place)
  {
    if ys == [] {
      assert xs + ys == xs;
    } else {
      AtPlaceJoined(xs, ys[..|ys| - 1], place);
      assert (xs + ys)[..|xs + ys| - 1] == xs + ys[..|ys| - 1];
    }
  }

  lemma AtPlaceTakenOut(ys: seq<Local>, j: nat, place: Place)
    requires j < |ys|
    ensures multiset(AtPlace(ys, place)) ==
            multiset(AtPlace([ys[j]], place)) + multiset(AtPlace(ys[..j] + ys[j + 1..], place))
  {
    assert ys == ys[..j] + ([ys[j]] + ys[j + 1..]);
    AtPlaceJoined(ys[..j], [ys[j]] + ys[j + 1..], place);
    AtPlaceJoined([ys[j]], ys[j + 1..], place);
    AtPlaceJoined(ys[..j], ys[j + 1..], place);
  }

  lemma AtPlaceFirst(xs: seq<Local>, place: Place)
    requires xs != []
    ensures multiset(AtPlace(xs, place)) == multiset(AtPlace([xs[0]], place)) + multiset(AtPlace(xs[1..], place))
  {
    assert xs == [xs[0]] + xs[1..];
    AtPlaceJoined([xs[0]], xs[1..], place);
  }

  lemma {:induction false} AtPlacePermuted(xs: seq<Local>, ys: seq<Local>, place: Place)
    requires multiset(xs) == multiset(ys)
    ensures multiset(AtPlace(xs, place)) == multiset(AtPlace(ys, place))
    decreases |xs|
  {
    if xs == [] {
      SamePermutedLength(xs, ys);
    } else {
      var j := TakenOut(xs, ys);
      var others := ys[..j] + ys[j + 1..];
      AtPlaceTakenOut(ys, j, place);
      AtPlaceFirst(xs, place);
      AtPlacePermuted(xs[1..], others, place);
    }
  }

  lemma AtPlaceNext(arrivals: seq<Local>, k: nat, place: Place)
    requires k < |arrivals|
    ensures AtPlace(arrivals[..k + 1], place) ==
            if arrivals[k].place == place then AtPlace(arrivals[..k], place) + [arrivals[k].outcome]
            else AtPlace(arrivals[..k], place)
  {
    assert arrivals[..k + 1][..k] == arrivals[..k];
  }

  function FortNumOperations(arrivals: seq<Local>): set<string> {
    set a, operation | a in arrivals && a.isFortNum && operation in a.outcome.Operations() :: operation
  }

  /** A class after its local scan; `hits` counts its logical repositories. */
  function LocalCounts(before: Counts, outcomes: seq<Outcome>, hits: multiset<string>): Counts {
    Finalized(before.(
      sourceRequested := true, listingCompleted := true, selectionRequested := true,
      discovered := before.discovered + |outcomes|, logical := |Logical(outcomes)|,
      tally := before.tally.Plus(Total(outcomes, false)).(repositoryHits := hits)))
  }

  /** What the scan leaves: the counts, with every operation counted once for each
      logical repository that has it. */
  ghost predicate LocalDone(before: Counts, after: Counts, outcomes: seq<Outcome>) {
    && after == LocalCounts(before, outcomes, after.tally.repositoryHits)
    && forall operation :: after.tally.repositoryHits[operation] ==
                           before.tally.repositoryHits[operation] + Holders(Logical(outcomes), operation)
  }

  method ScanLocal(proj: SourceClass, code: SourceClass, named: NamedConsumers, arrivals: seq<Local>)
    requires proj != code
    modifies proj, code, named
    ensures LocalDone(old(proj.counts), proj.counts, AtPlace(arrivals, Proj))
    ensures LocalDone(old(code.counts), code.counts, AtPlace(arrivals, Code))
    ensures Elements(named.fortNum) == Elements(old(named.fortNum)) + FortNumOperations(arrivals)
    ensures StrictlySorted(old(named.fortNum)) ==> StrictlySorted(named.fortNum)
    ensures named.mhd1d == old(named.mhd1d)
  {
    BeginLocal(proj, |AtPlace(arrivals, Proj)|);
    BeginLocal(code, |AtPlace(arrivals, Code)|);
    ghost var projStart := Requested(old(proj.counts), |AtPlace(arrivals, Proj)|);
    ghost var codeStart := Requested(old(code.counts), |AtPlace(arrivals, Code)|);
    var projHits, codeHits: Repositories := map[], map[];
    for k := 0 to |arrivals|
      invariant proj.counts == After(projStart, AtPlace(arrivals[..k], Proj))
      invariant projHits == Logical(AtPlace(arrivals[..k], Proj))
      invariant code.counts == After(codeStart, AtPlace(arrivals[..k], Code))
      invariant codeHits == Logical(AtPlace(arrivals[..k], Code))
      invariant Elements(named.fortNum) == Elements(old(named.fortNum)) + FortNumOperations(arrivals[..k])
      invariant StrictlySorted(old(named.fortNum)) ==> StrictlySorted(named.fortNum)
      invariant named.mhd1d == old(named.mhd1d)
    {
      var arrival := arrivals[k];
      AtPlaceNext(arrivals, k, Proj);
      AtPlaceNext(arrivals, k, Code);
      FortNumNext(Elements(old(named.fortNum)), arrivals, k);
      if arrival.place == Proj {
        projHits := Accept(proj, projHits, projStart, AtPlace(arrivals[..k], Proj), arrival.outcome);
      } else {
        codeHits := Accept(code, codeHits, codeStart, AtPlace(arrivals[..k], Code), arrival.outcome);
      }
      named.ObserveLocal(arrival.isFortNum, arrival.outcome);
    }
    assert arrivals[..|arrivals|] == arrivals;
    FinishLocal(proj, projHits, old(proj.counts), AtPlace(arrivals, Proj));
    FinishLocal(code, codeHits, old(code.counts), AtPlace(arrivals, Code));
  }

  function Requested(before: Counts, listed: nat): Counts {
    before.(sourceRequested := true, listingCompleted := true, selectionRequested := true,
            discovered := before.discovered + listed)
  }

  method BeginLocal(target: SourceClass, listed: nat)
    modifies target
    ensures target.counts == After(Requested(old(target.counts), listed), [])
  {
    target.Request(target.counts.discovered + listed);
    ZeroPlus(target.counts.tally);
  }

  /** The counts of a class when these answers of it have arrived. */
  function After(start: Counts, outcomes: seq<Outcome>): Counts {
    start.(tally := start.tally.Plus(Total(outcomes, false)))
  }

  /** One worktree of the class has been scanned. */
  method Accept(target: SourceClass, repositories: Repositories, ghost start: Counts, ghost outcomes: seq<Outcome>,
                outcome: Outcome) returns (r: Repositories)
    requires target.counts == After(start, outcomes) && repositories == Logical(outcomes)
    modifies target
    ensures target.counts == After(start, outcomes + [outcome]) && r == Logical(outcomes + [outcome])
  {
    assert (outcomes + [outcome])[..|outcomes|] == outcomes;
    PlusMoves(start.tally, Total(outcomes, false), Contribution(outcome, false));
    target.Arrive(outcome, false);
    r := WithOutcome(repositories, outcome);
  }

  method FinishLocal(
    target: SourceClass, repositories: Repositories, ghost before: Counts, ghost outcomes: seq<Outcome>)
    requires target.counts == After(Requested(before, |outcomes|), outcomes) && repositories == Logical(outcomes)
    modifies target
    ensures LocalDone(before, target.counts, outcomes)
  {
    NoRepositoryHits(outcomes);
    assert before.tally.repositoryHits + multiset{} == before.tally.repositoryHits;
    target.counts := target.counts.(logical := |repositories|);
    var hits := CountRepositories(target.counts.tally.repositoryHits, repositories);
    target.counts := target.counts.(tally := target.counts.tally.(repositoryHits := hits));
    target.Finalize();
  }

  /** Local answers count no repositories while they arrive. */
  lemma {:induction false} NoRepositoryHits(outcomes: seq<Outcome>)
    ensures Total(outcomes, false).repositoryHits == multiset{}
  {
    if outcomes != [] {
      NoRepositoryHits(outcomes[..|outcomes| - 1]);
    }
  }

  lemma FortNumNext(start: set<string>, arrivals: seq<Local>, k: nat)
    requires k < |arrivals|
    ensures start + FortNumOperations(arrivals[..k + 1]) ==
            start + FortNumOperations(arrivals[..k]) +
            if arrivals[k].isFortNum then arrivals[k].outcome.Operations() else {}
  {}

  /** The whole result of a local scan is the same for every order of completion. */
  lemma LocalOrderIrrelevant(before: Counts, a: Counts, b: Counts, xs: seq<Local>, ys: seq<Local>, place: Place)
    requires multiset(xs) == multiset(ys)
    requires LocalDone(before, a, AtPlace(xs, place)) && LocalDone(before, b, AtPlace(ys, place))
    ensures a == b
    ensures FortNumOperations(xs) == FortNumOperations(ys)
  {
    AtPlacePermuted(xs, ys, place);
    SamePermutedLength(AtPlace(xs, place), AtPlace(ys, place));
    TotalPermuted(AtPlace(xs, place), AtPlace(ys, place), false);
    LogicalPermuted(AtPlace(xs, place), AtPlace(ys, place));
    assert a.tally.repositoryHits == b.tally.repositoryHits by {
      forall operation ensures a.tally.repositoryHits[operation] == b.tally.repositoryHits[operation] {}
    }
    SameMembers(xs, ys);
  }

  /** A local class scanned anew is complete exactly when every answer was flawless. */
  lemma LocalComplete(after: Counts, outcomes: seq<Outcome>)
    requires LocalDone(NewCounts(), after, outcomes)
    ensures after.tally.completed + after.tally.incomplete == after.tally.attempted == after.discovered
    ensures after.overallComplete <==> AllFlawless(outcomes)
    ensures after.overallComplete ==> after.tally.completed == after.discovered
    ensures after.overallComplete && AllAccounted(outcomes) ==> after.tally.filesCompleted == after.tally.candidateFiles
  {
    ZeroPlus(Total(outcomes, false));
    Conserved(outcomes, false);
    NothingIncomplete(outcomes, false);
  }

  /** It lists every worktree and every logical repository. */
  lemma LocalListed(after: Counts, outcomes: seq<Outcome>)
    requires LocalDone(NewCounts(), after, outcomes)
    ensures after.discovered == |outcomes| && after.logical == |Logical(outcomes)|
  {}

  // ---- The GitHub scan -----------------------------------------------------

  /** A skipped or failed marker search makes every repository incomplete. */
  function GithubCounts(scanned: Counts, skipped: bool, searchErrors: nat, searchTruncations: nat): Counts {
    var errors := scanned.tally.selectionErrors + searchErrors;
    var truncations := scanned.selectionTruncations + searchTruncations;
    var doubtful := skipped || errors > 0 || truncations > 0;
    Finalized(scanned.(
      selectionSkipped := skipped, selectionTruncations := truncations,
      tally := scanned.tally.(
        selectionErrors := errors,
        completed := if doubtful then 0 else scanned.tally.completed,
        incomplete := if doubtful then scanned.discovered else scanned.tally.incomplete)))
  }

  method FinishGithub(github: SourceClass, skipped: bool, searchErrors: nat, searchTruncations: nat)
    modifies github
    ensures github.counts == GithubCounts(old(github.counts), skipped, searchErrors, searchTruncations)
  {
    var c := github.counts;
    c := c.(selectionSkipped := skipped);
    c := c.(tally := c.tally.(selectionErrors := c.tally.selectionErrors + searchErrors));
    c := c.(selectionTruncations := c.selectionTruncations + searchTruncations);
    if c.selectionSkipped || c.tally.selectionErrors > 0 || c.selectionTruncations > 0 {
      c := c.(tally := c.tally.(completed := 0));
      c := c.(tally := c.tally.(incomplete := c.discovered));
    }
    github.counts := c;
    github.Finalize();
  }

  /** The GitHub class is complete exactly when every answer was flawless and the marker
      search was run, without error and to its end. */
  lemma GithubComplete(arrivals: seq<Remote>, skipped: bool, searchErrors: nat, searchTruncations: nat)
    ensures var after := GithubCounts(RemoteCounts(NewCounts(), arrivals), skipped, searchErrors, searchTruncations);
            && after.tally.completed + after.tally.incomplete == after.tally.attempted == after.discovered == |arrivals|
            && (after.overallComplete <==>
                  AllFlawless(OutcomesOf(arrivals)) && !skipped && searchErrors == 0 && searchTruncations == 0)
            && (after.overallComplete ==> after.tally.completed == after.discovered)
            && (after.overallComplete && AllAccounted(OutcomesOf(arrivals)) ==>
                  after.tally.filesCompleted == after.tally.candidateFiles)
  {
    RemoteComplete(arrivals);
    ZeroPlus(Total(OutcomesOf(arrivals), true));
    Conserved(OutcomesOf(arrivals), true);
    NothingIncomplete(OutcomesOf(arrivals), true);
  }

  /** The marker search adds its errors and truncations, and one that was skipped or did
      not go well leaves no repository completed. */
  lemma GithubMeans(arrivals: seq<Remote>, skipped: bool, searchErrors: nat, searchTruncations: nat)
    ensures var before := RemoteCounts(NewCounts(), arrivals);
            var after := GithubCounts(before, skipped, searchErrors, searchTruncations);
            var errors := searchErrors + Added(OutcomesOf(arrivals), (r: ScanResult) => r.selectionErrors);
            var well := !skipped && errors == 0 && searchTruncations == 0;
            && after.selectionSkipped == skipped && after.selectionTruncations == searchTruncations
            && after.selectionCompleted == well
            && after.tally.selectionErrors == errors
            && after.tally.completed == (if well then before.tally.completed else 0)
            && after.tally.incomplete == (if well then before.tally.incomplete else |arrivals|)
            && after.tally.candidateFiles == before.tally.candidateFiles
            && after.tally.filesCompleted == before.tally.filesCompleted
            && after.tally.fileErrors == before.tally.fileErrors
            && after.tally.sourceTruncations == before.tally.sourceTruncations
            && after.tally.treeTruncations == before.tally.treeTruncations
            && after.tally.fileHits == before.tally.fileHits
            && after.tally.repositoryHits == before.tally.repositoryHits
  {
    ZeroPlus(Total(OutcomesOf(arrivals), true));
    CountersAdd(OutcomesOf(arrivals), true);
  }

  // ---- Merging audits ------------------------------------------------------

  datatype ClassName = LocalProj | LocalCode | GitLab | GitHub

  datatype Consumer = FortNum | Mhd1d

  const SCHEMA_VERSION: int := 2

  /** An audit file. */
  datatype Audit = Audit(schemaVersion: int, classes: map<ClassName, Counts>, named: map<Consumer, set<string>>) {
    predicate Discovers(c: ClassName) {
      c in classes && classes[c].discovered != 0
    }

    function Observed(consumer: Consumer): set<string> {
      if consumer in named then named[consumer] else {}
    }
  }

  datatype Merged = Merged(classes: map<ClassName, Counts>, named: map<Consumer, seq<string>>)

  datatype MergeResult = Accepted(merged: Merged) | IncompatibleSchema(file: Audit) | DuplicateClass(name: ClassName)

  function Discoverers(files: seq<Audit>, c: ClassName): nat {
    Number(files, (f: Audit) => f.Discovers(c))
  }

  ghost predicate Mergeable(files: seq<Audit>) {
    && (forall k :: 0 <= k < |files| ==> files[k].schemaVersion == 2)
    && (forall c :: Discoverers(files, c) <= 1)
  }

  function ObservedIn(files: seq<Audit>, consumer: Consumer): set<string> {
    set f, operation | f in files && operation in f.Observed(consumer) :: operation
  }

  /** Every class as the one file that discovered repositories in it has it, and every
      consumer's operations. */
  ghost predicate IsMerge(merged: Merged, files: seq<Audit>) {
    && (forall c: ClassName :: c in merged.classes)
    && (forall c :: Discoverers(files, c) == 0 ==> merged.classes[c] == NewCounts())
    && (forall c, f :: f in files && f.Discovers(c) ==> merged.classes[c] == f.classes[c])
    && (forall n: Consumer :: n in merged.named)
    && (forall n :: StrictlySorted(merged.named[n]) && Elements(merged.named[n]) == ObservedIn(files, n))
  }

  method MergeAudits(files: seq<Audit>) returns (r: MergeResult)
    ensures r.Accepted? <==> Mergeable(files)
    ensures r.Accepted? ==> IsMerge(r.merged, files)
    ensures r.IncompatibleSchema? ==> r.file in files && r.file.schemaVersion != 2
    ensures r.DuplicateClass? ==> Discoverers(files, r.name) > 1
  {
    var merged := Merged(
      map[LocalProj := NewCounts(), LocalCode := NewCounts(), GitLab := NewCounts(), GitHub := NewCounts()],
      map[FortNum := [], Mhd1d := []]);
    NothingMerged(merged);
    for k := 0 to |files|
      invariant Mergeable(files[..k]) && IsMerge(merged, files[..k])
    {
      var source := files[k];
      assert files[..k + 1] == files[..k] + [source];
      if source.schemaVersion != SCHEMA_VERSION {
        return IncompatibleSchema(source);
      }
      var taken := TakeClasses(merged.classes, source);
      if taken.Err? {
        StillDuplicate(files, k, merged, taken.name);
        return DuplicateClass(taken.name);
      }
      var names := map[
        FortNum := NamedUnion(merged.named[FortNum], source.Observed(FortNum)),
        Mhd1d := NamedUnion(merged.named[Mhd1d], source.Observed(Mhd1d))];
      forall n: Consumer ensures n in names && names[n] == NamedUnion(merged.named[n], source.Observed(n)) {
        match n case FortNum => case Mhd1d =>
      }
      MergedMore(merged, files[..k], source, taken.classes, names);
      merged := Merged(taken.classes, names);
    }
    assert files[..|files|] == files;
    return Accepted(merged);
  }

  datatype Taken = Took(classes: map<ClassName, Counts>) | Err(name: ClassName)

  /** The classes in which the file discovered repositories, unless one of them is held
      already. */
  method TakeClasses(held: map<ClassName, Counts>, source: Audit) returns (r: Taken)
    requires forall c: ClassName :: c in held
    ensures r.Took? <==> forall c :: source.Discovers(c) ==> held[c].discovered == 0
    ensures r.Took? ==> forall c: ClassName ::
              c in r.classes && r.classes[c] == if source.Discovers(c) then source.classes[c] else held[c]
    ensures r.Err? ==> source.Discovers(r.name) && held[r.name].discovered != 0
  {
    var classes := held;
    var left := source.classes.Keys;
    while left != {}
      invariant left <= source.classes.Keys
      invariant forall c: ClassName :: c in classes
      invariant forall c :: c in left ==> classes[c] == held[c]
      invariant forall c :: c !in left ==> classes[c] == if source.Discovers(c) then source.classes[c] else held[c]
      invariant forall c :: c !in left && source.Discovers(c) ==> held[c].discovered == 0
      decreases |left|
    {
      var c :| c in left;
      left := left - {c};
      if source.classes[c].discovered != 0 {
        if classes[c].discovered != 0 {
          return Err(c);
        }
        classes := classes[c := source.classes[c]];
      }
    }
    return Took(classes);
  }

  lemma NothingMerged(merged: Merged)
    requires merged.classes ==
             map[LocalProj := NewCounts(), LocalCode := NewCounts(), GitLab := NewCounts(), GitHub := NewCounts()]
    requires merged.named == map[FortNum := [], Mhd1d := []]
    ensures Mergeable([]) && IsMerge(merged, [])
  {
    forall n: Consumer ensures n in merged.named && merged.named[n] == [] {
      match n case FortNum => case Mhd1d =>
    }
    forall c: ClassName ensures c in merged.classes && merged.classes[c] == NewCounts() {
      match c case LocalProj => case LocalCode => case GitLab => case GitHub =>
    }
  }

  lemma StillDuplicate(files: seq<Audit>, k: nat, merged: Merged, c: ClassName)
    requires k < |files| && IsMerge(merged, files[..k]) && files[k].Discovers(c) && merged.classes[c].discovered != 0
    ensures Discoverers(files, c) > 1
  {
    assert Discoverers(files[..k], c) > 0;
    assert files == files[..k] + [files[k]] + files[k + 1..];
    NumberJoined(files[..k] + [files[k]], files[k + 1..], (f: Audit) => f.Discovers(c));
  }

  lemma NotHeld(merged: Merged, files: seq<Audit>, c: ClassName)
    requires IsMerge(merged, files) && merged.classes[c].discovered == 0
    ensures Discoverers(files, c) == 0
  {
    forall k | 0 <= k < |files| ensures !files[k].Discovers(c) {
      assert files[k] in files;
    }
    NumberZero(files, (f: Audit) => f.Discovers(c));
  }

  lemma MergedMore(
    merged: Merged, files: seq<Audit>, source: Audit, classes: map<ClassName, Counts>,
    named: map<Consumer, seq<string>>)
    requires Mergeable(files) && IsMerge(merged, files) && source.schemaVersion == SCHEMA_VERSION
    requires forall c :: source.Discovers(c) ==> merged.classes[c].discovered == 0
    requires forall c: ClassName ::
               c in classes && classes[c] == if source.Discovers(c) then source.classes[c] else merged.classes[c]
    requires forall n: Consumer :: n in named && named[n] == NamedUnion(merged.named[n], source.Observed(n))
    ensures Mergeable(files + [source]) && IsMerge(Merged(classes, named), files + [source])
  {
    var more := files + [source];
    forall c ensures Discoverers(more, c) <= 1 && (Discoverers(more, c) == 0 ==> classes[c] == NewCounts()) {
      if source.Discovers(c) {
        NotHeld(merged, files, c);
      }
    }
    forall c, f | f in more && f.Discovers(c) ensures classes[c] == f.classes[c] {
      if f in files {
        assert merged.classes[c] == f.classes[c];
      }
    }
    forall n ensures Elements(named[n]) == ObservedIn(more, n) {
      ObservedMore(files, source, n);
    }
  }

  lemma ObservedMore(files: seq<Audit>, source: Audit, n: Consumer)
    ensures ObservedIn(files + [source], n) == ObservedIn(files, n) + source.Observed(n)
  {}

  /** What a file has of a class is kept exactly when it discovered a repository there, or
      says no more than a new class says and no file discovered one: a class that was
      requested and scanned to the end without finding any is merged as never scanned. */
  lemma KeptExactly(merged: Merged, files: seq<Audit>, f: Audit, c: ClassName)
    requires Mergeable(files) && IsMerge(merged, files) && f in files && c in f.classes
    ensures merged.classes[c] == f.classes[c] <==>
              f.Discovers(c) || (Discoverers(files, c) == 0 && f.classes[c] == NewCounts())
  {
    if Discoverers(files, c) != 0 {
      NumberZero(files, (g: Audit) => g.Discovers(c));
      var k :| 0 <= k < |files| && files[k].Discovers(c);
      assert files[k] in files && merged.classes[c] == files[k].classes[c];
    }
  }

  /** Two files that both requested a class and listed no repository in it: they are
      merged, and nothing of the request is left. */
  lemma EmptyScanIsLost(f: Audit, merged: Merged)
    requires f.schemaVersion == SCHEMA_VERSION
    requires f.classes == map[GitLab := NewCounts().(sourceRequested := true, listingCompleted := true)]
    requires IsMerge(merged, [f, f])
    ensures Mergeable([f, f]) && !merged.classes[GitLab].sourceRequested
  {
    forall c ensures Discoverers([f, f], c) == 0 {
      NumberZero([f, f], (g: Audit) => g.Discovers(c));
    }
  }

  /** Files in another order are merged alike, or refused alike. */
  lemma MergeOrderIrrelevant(xs: seq<Audit>, ys: seq<Audit>, a: Merged, b: Merged)
    requires multiset(xs) == multiset(ys)
    ensures Mergeable(xs) <==> Mergeable(ys)
    ensures Mergeable(xs) && IsMerge(a, xs) && IsMerge(b, ys) ==> a == b
  {
    SameMembers(xs, ys);
    forall c ensures Discoverers(xs, c) == Discoverers(ys, c) {
      NumberPermuted(xs, ys, (f: Audit) => f.Discovers(c));
    }
    assert (forall k :: 0 <= k < |xs| ==> xs[k].schemaVersion == SCHEMA_VERSION) <==>
           (forall f :: f in xs ==> f.schemaVersion == SCHEMA_VERSION);
    assert (forall k :: 0 <= k < |ys| ==> ys[k].schemaVersion == SCHEMA_VERSION) <==>
           (forall f :: f in ys ==> f.schemaVersion == SCHEMA_VERSION);
    if Mergeable(xs) && IsMerge(a, xs) && IsMerge(b, ys) {
      SameMerge(xs, ys, a, b);
    }
  }

  lemma SameMerge(xs: seq<Audit>, ys: seq<Audit>, a: Merged, b: Merged)
    requires IsMerge(a, xs) && IsMerge(b, ys)
    requires forall f :: f in xs <==> f in ys
    requires forall c :: Discoverers(xs, c) == Discoverers(ys, c)
    ensures a == b
  {
    forall c ensures a.classes[c] == b.classes[c] {
      NumberZero(xs, (f: Audit) => f.Discovers(c));
      if Discoverers(xs, c) != 0 {
        var k :| 0 <= k < |xs| && xs[k].Discovers(c);
        assert xs[k] in xs && xs[k] in ys;
      }
    }
    assert a.classes == b.classes;
    forall n ensures a.named[n] == b.named[n] {
      assert ObservedIn(xs, n) == ObservedIn(ys, n);
      StrictlySortedUnique(a.named[n], b.named[n]);
    }
    assert a.named == b.named;
  }
}
