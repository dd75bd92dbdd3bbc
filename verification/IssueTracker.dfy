/** The issue of a branch that collects the failing shards of nightly runs, until a
    green run covers them all. */
module IssueTracker {
  import opened ShardText
  import opened FailureReport

  /** An issue: its body and then its comments are its texts. */
  datatype Issue = Issue(title: string, open: bool, texts: seq<string>)

  const TITLE := "Nightly corpus failure on "

  function IssueTitle(branch: string): string {
    TITLE + branch
  }

  lemma TitlesDiffer(a: string, b: string)
    ensures IssueTitle(a) == IssueTitle(b) <==> a == b
    ensures IssueTitle(a) == "Nightly corpus failure on " + a
  {
    assert IssueTitle(a)[|TITLE|..] == a && IssueTitle(b)[|TITLE|..] == b;
  }

  /** What happens on a branch: a failure that reports shards, a failure that reports
      none, or a success of those that the run was given. */
  datatype Event =
    | Failed(branch: string, reported: set<nat>)
    | Refused(branch: string)
    | Succeeded(branch: string, shards: string)

  predicate ShouldClose(green: seq<int>, recorded: set<nat>) {
    recorded != {} && forall s :: s in recorded ==> s in green
  }

  /** There is an open issue that records some shard, and the run covers all it records. */
  predicate Closes(record: Option<set<nat>>, shards: string) {
    && record.Some? && |record.value| > 0
    && match ParseShards(shards)
       case ValueError => false
       case Ok(green) => record.value <= set s: nat | s in green
  }

  lemma ClosesMeans(recorded: set<nat>, shards: string)
    ensures Closes(Some(recorded), shards) <==>
            ParseShards(shards).Ok? && ShouldClose(ParseShards(shards).value, recorded)
  {
    assert |recorded| > 0 <==> recorded != {};
  }

  function Recording(record: Option<set<nat>>): set<nat> {
    if record.Some? then record.value else {}
  }

  /** The record of a branch, what its open issue holds, after an event. */
  function Next(record: Option<set<nat>>, e: Event, branch: string): Option<set<nat>> {
    if e.branch != branch then record
    else match e
      case Failed(_, reported) => Some(Recording(record) + reported)
      case Refused(_) => record
      case Succeeded(_, shards) => if Closes(record, shards) then None else record
  }

  function Replay(events: seq<Event>, branch: string): Option<set<nat>> {
    if events == [] then None
    else Next(Replay(events[..|events| - 1], branch), events[|events| - 1], branch)
  }

  predicate OpenAt(issues: seq<Issue>, k: int, title: string) {
    0 <= k < |issues| && issues[k].open && issues[k].title == title
  }

  /** At most one open issue has a title. */
  ghost predicate OneOpen(issues: seq<Issue>) {
    forall j, k, title :: OpenAt(issues, j, title) && OpenAt(issues, k, title) ==> j == k
  }

  /** The first open issue of the title, or the number of issues. */
  function FirstOpen(issues: seq<Issue>, title: string, from: nat): (k: nat)
    requires from <= |issues|
    ensures from <= k <= |issues|
    ensures k < |issues| ==> OpenAt(issues, k, title)
    ensures forall j :: from <= j < k ==> !OpenAt(issues, j, title)
    decreases |issues| - from
  {
    if from == |issues| || OpenAt(issues, from, title) then from else FirstOpen(issues, title, from + 1)
  }

  function RecordOf(issues: seq<Issue>, title: string): Option<set<nat>> {
    var k := FirstOpen(issues, title, 0);
    if k == |issues| then None else Some(RecordedIn(issues[k].texts))
  }

  lemma RecordOpen(issues: seq<Issue>, title: string, k: nat)
    requires OneOpen(issues) && OpenAt(issues, k, title)
    ensures RecordOf(issues, title) == Some(RecordedIn(issues[k].texts))
  {}

  /** A new comment on an open issue. */
  lemma Commented(before: seq<Issue>, k: nat, body: string, branch: string, b: string)
    requires OneOpen(before) && OpenAt(before, k, IssueTitle(branch))
    ensures var after := before[k := before[k].(texts := before[k].texts + [body])];
            OneOpen(after) &&
            RecordOf(after, IssueTitle(b)) == Next(RecordOf(before, IssueTitle(b)), Failed(branch, Recorded(body)), b)
  {
    var after := before[k := before[k].(texts := before[k].texts + [body])];
    TitlesDiffer(b, branch);
    assert forall j, title :: OpenAt(after, j, title) <==> OpenAt(before, j, title);
    if b == branch {
      RecordOpen(before, IssueTitle(b), k);
      RecordOpen(after, IssueTitle(b), k);
    }
  }

  /** A new issue, when none is open. */
  lemma Opened(before: seq<Issue>, body: string, branch: string, b: string)
    requires OneOpen(before) && forall k :: !OpenAt(before, k, IssueTitle(branch))
    ensures var after := before + [Issue(IssueTitle(branch), true, [body])];
            OneOpen(after) &&
            RecordOf(after, IssueTitle(b)) == Next(RecordOf(before, IssueTitle(b)), Failed(branch, Recorded(body)), b)
  {
    var after := before + [Issue(IssueTitle(branch), true, [body])];
    TitlesDiffer(b, branch);
    assert forall j, title :: OpenAt(after, j, title) <==>
                              OpenAt(before, j, title) || (j == |before| && title == IssueTitle(branch));
    if b == branch {
      RecordOpen(after, IssueTitle(b), |before|);
      assert [] + [body] == [body];
    }
  }

  /** The open issue is closed. */
  lemma Shut(before: seq<Issue>, k: nat, branch: string, b: string)
    requires OneOpen(before) && OpenAt(before, k, IssueTitle(branch))
    ensures var after := before[k := before[k].(open := false)];
            OneOpen(after) &&
            RecordOf(after, IssueTitle(b)) == if b == branch then None else RecordOf(before, IssueTitle(b))
  {
    var after := before[k := before[k].(open := false)];
    TitlesDiffer(b, branch);
    assert forall j, title :: OpenAt(after, j, title) <==> OpenAt(before, j, title) && j != k;
  }

  class Tracker {
    var issues: seq<Issue>

    constructor ()
      ensures Valid() && forall branch :: Record(branch) == None
    {
      issues := [];
    }

    /** Over all branches, at most one issue of each is open. */
    ghost predicate Valid()
      reads this
    {
      OneOpen(issues)
    }

    /** What the open issue of a branch records. */
    function Record(branch: string): Option<set<nat>>
      reads this
    {
      RecordOf(issues, IssueTitle(branch))
    }

    /** A failure comments on the branch's open issue, or opens one. */
    method Fail(branch: string, report: string)
      requires Valid()
      modifies this
      ensures Valid()
      ensures forall b :: Record(b) == Next(old(Record(b)), Failed(branch, Recorded(report)), b)
    {
      var k := FirstOpen(issues, IssueTitle(branch), 0);
      ghost var before := issues;
      if k < |issues| {
        issues := issues[k := issues[k].(texts := issues[k].texts + [report])];
        forall b
          ensures OneOpen(issues)
          ensures Record(b) == Next(RecordOf(before, IssueTitle(b)), Failed(branch, Recorded(report)), b)
        {
          Commented(before, k, report, branch, b);
        }
        Commented(before, k, report, branch, branch);
      } else {
        issues := issues + [Issue(IssueTitle(branch), true, [report])];
        forall b
          ensures OneOpen(issues)
          ensures Record(b) == Next(RecordOf(before, IssueTitle(b)), Failed(branch, Recorded(report)), b)
        {
          Opened(before, report, branch, b);
        }
        Opened(before, report, branch, branch);
      }
    }

    /** A success closes the branch's open issue when it covers all that is recorded. */
    method Succeed(branch: string, shards: string)
      requires Valid()
      modifies this
      ensures Valid()
      ensures forall b :: Record(b) == Next(old(Record(b)), Succeeded(branch, shards), b)
    {
      var k := FirstOpen(issues, IssueTitle(branch), 0);
      if k == |issues| {
        return;
      }
      var recorded := IssueShards(issues[k].texts);
      var green := ParseShards(shards);
      RecordOpen(issues, IssueTitle(branch), k);
      ClosesMeans(recorded, shards);
      if green == ValueError || !ShouldClose(green.value, recorded) {
        return;
      }
      ghost var before := issues;
      issues := issues[k := issues[k].(open := false)];
      ShutBySuccess(before, issues, k, branch, shards);
    }
  }

  lemma ShutBySuccess(before: seq<Issue>, after: seq<Issue>, k: nat, branch: string, shards: string)
    requires OneOpen(before) && OpenAt(before, k, IssueTitle(branch))
    requires after == before[k := before[k].(open := false)]
    requires Closes(Some(RecordedIn(before[k].texts)), shards)
    ensures OneOpen(after)
    ensures forall b ::
              RecordOf(after, IssueTitle(b)) == Next(RecordOf(before, IssueTitle(b)), Succeeded(branch, shards), b)
  {
    Shut(before, k, branch, branch);
    RecordOpen(before, IssueTitle(branch), k);
    forall b
      ensures RecordOf(after, IssueTitle(b)) == Next(RecordOf(before, IssueTitle(b)), Succeeded(branch, shards), b)
    {
      Shut(before, k, branch, b);
    }
  }

  // ---- What is recorded ----------------------------------------------------

  predicate IsFailure(e: Event, branch: string) {
    e.Failed? && e.branch == branch
  }

  predicate IsClosing(record: Option<set<nat>>, e: Event, branch: string) {
    e.Succeeded? && e.branch == branch && Closes(record, e.shards)
  }

  /** The event at k closes the branch's issue. */
  predicate ClosesAt(events: seq<Event>, branch: string, k: nat)
    requires k < |events|
  {
    IsClosing(Replay(events[..k], branch), events[k], branch)
  }

  /** The union of what the branch's failures reported, when it failed at all. */
  function Union(events: seq<Event>, branch: string): Option<set<nat>> {
    if events == [] then None
    else
      var before, last := Union(events[..|events| - 1], branch), events[|events| - 1];
      if IsFailure(last, branch) then Some(Recording(before) + last.reported) else before
  }

  /** The record is the union of the failures since the branch's issue was last closed;
      that close was by a success that covered the record of its time, and no success
      since has covered its own. */
  ghost predicate SinceClosed(events: seq<Event>, branch: string, start: nat) {
    && start <= |events|
    && Replay(events, branch) == Union(events[start..], branch)
    && (start > 0 ==> ClosesAt(events, branch, start - 1))
    && (forall k :: start <= k < |events| ==> !ClosesAt(events, branch, k))
  }

  ghost predicate IsUnionSinceClosed(events: seq<Event>, branch: string) {
    exists start :: SinceClosed(events, branch, start)
  }

  lemma {:induction false} RecordIsUnionSinceClosed(events: seq<Event>, branch: string)
    ensures IsUnionSinceClosed(events, branch)
  {
    if events == [] {
      NothingYet(branch);
    } else {
      var front, last := events[..|events| - 1], events[|events| - 1];
      assert front + [last] == events;
      RecordIsUnionSinceClosed(front, branch);
      OneMoreEvent(front, last, branch);
    }
  }

  lemma NothingYet(branch: string)
    ensures IsUnionSinceClosed([], branch)
  {
    var none: seq<Event> := [];
    assert none[0..] == [];
    assert SinceClosed(none, branch, 0);
  }

  lemma OneMoreEvent(front: seq<Event>, last: Event, branch: string)
    requires IsUnionSinceClosed(front, branch)
    ensures IsUnionSinceClosed(front + [last], branch)
  {
    var start: nat :| SinceClosed(front, branch, start);
    if IsClosing(Replay(front, branch), last, branch) {
      StartsAnew(front, last, branch);
      assert SinceClosed(front + [last], branch, |front| + 1);
    } else {
      GoesOn(front, last, branch, start);
      assert SinceClosed(front + [last], branch, start);
    }
  }

  lemma StartsAnew(front: seq<Event>, last: Event, branch: string)
    requires IsClosing(Replay(front, branch), last, branch)
    ensures SinceClosed(front + [last], branch, |front| + 1)
  {}

  lemma GoesOn(front: seq<Event>, last: Event, branch: string, start: nat)
    requires SinceClosed(front, branch, start) && !IsClosing(Replay(front, branch), last, branch)
    ensures SinceClosed(front + [last], branch, start)
  {
    UnionGrows(front, last, branch, start);
    forall k | start <= k < |front| + 1 ensures !ClosesAt(front + [last], branch, k) {
      ClosesAlike(front, last, branch, k);
    }
    if start > 0 {
      ClosesAlike(front, last, branch, start - 1);
    }
  }

  lemma ClosesAlike(front: seq<Event>, last: Event, branch: string, k: nat)
    requires k <= |front|
    ensures ClosesAt(front + [last], branch, k) ==
            if k < |front| then ClosesAt(front, branch, k) else IsClosing(Replay(front, branch), last, branch)
  {
    if k < |front| {
      PrefixKept(front, last, k);
    } else {
      assert (front + [last])[..k] == front;
    }
  }

  lemma PrefixKept(front: seq<Event>, last: Event, k: nat)
    requires k < |front|
    ensures (front + [last])[..k] == front[..k] && (front + [last])[k] == front[k]
  {}

  lemma UnionGrows(front: seq<Event>, last: Event, branch: string, start: nat)
    requires start <= |front| && Replay(front, branch) == Union(front[start..], branch)
    requires !IsClosing(Replay(front, branch), last, branch)
    ensures Replay(front + [last], branch) == Union((front + [last])[start..], branch)
  {
    var since := (front + [last])[start..];
    assert (front + [last])[..|front|] == front;
    assert since[..|since| - 1] == front[start..];
  }
}
