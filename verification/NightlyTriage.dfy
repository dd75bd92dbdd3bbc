/** Nightly triage: which shards failed, which run was last green, and what is reported. */
module NightlyTriage {
  import opened Numerals
  import opened Strings
  import opened ShardText
  import opened FailureReport
  import opened IssueTracker

  // ---- Jobs and runs -------------------------------------------------------

  datatype Job = Job(name: string, conclusion: string)

  /** The digits after the prefix; the pattern's end also matches before a last newline. */
  function NumberAfter(name: string, prefix: string): Option<nat> {
    if !StartsWith(name, prefix) then None
    else
      var rest := name[|prefix|..];
      var digits := if rest != "" && rest[|rest| - 1] == '\n' then rest[..|rest| - 1] else rest;
      if digits != "" && AllDigits(digits) then Some(Value(digits)) else None
  }

  function JobShard(name: string): Option<nat> {
    match NumberAfter(name, "corpus / Corpus shard ")
    case Some(shard) => Some(shard)
    case None => NumberAfter(name, "Corpus shard ")
  }

  /** The job of a shard is recognised, called from the corpus workflow or not, and also
      with a newline after it. */
  lemma JobOfShard(shard: nat, newline: bool)
    ensures var end := if newline then "\n" else "";
            && JobShard("Corpus shard " + (Decimal(shard) + end)) == Some(shard)
            && JobShard("corpus / Corpus shard " + (Decimal(shard) + end)) == Some(shard)
  {
    var rest := Decimal(shard) + if newline then "\n" else "";
    DecimalSpells(shard);
    assert newline ==> rest[..|rest| - 1] == Decimal(shard);
    NumberRead("Corpus shard ", rest, shard);
    NumberRead("corpus / Corpus shard ", rest, shard);
    assert "Corpus shard "[0] == 'C' && "corpus / Corpus shard "[0] == 'c';
    OtherStart("Corpus shard " + rest, "corpus / Corpus shard ");
  }

  lemma OtherStart(text: string, prefix: string)
    requires text != "" && prefix != "" && text[0] != prefix[0]
    ensures !StartsWith(text, prefix)
  {
    if |prefix| <= |text| {
      assert text[..|prefix|][0] == text[0];
    }
  }

  lemma NumberRead(prefix: string, rest: string, shard: nat)
    requires rest == Decimal(shard) || (rest == Decimal(shard) + "\n" && rest[..|rest| - 1] == Decimal(shard))
    requires Value(Decimal(shard)) == shard
    ensures NumberAfter(prefix + rest, prefix) == Some(shard)
  {
    assert rest == Decimal(shard) ==> IsDigit(rest[|rest| - 1]);
  }

  /** The name is the prefix, at least one digit and nothing else but perhaps a newline. */
  predicate Names(name: string, prefix: string, digits: string) {
    digits != "" && AllDigits(digits) && (name == prefix + digits || name == prefix + digits + "\n")
  }

  lemma NumberMeans(name: string, prefix: string, shard: nat)
    ensures NumberAfter(name, prefix) == Some(shard) <==>
            exists digits :: Names(name, prefix, digits) && Value(digits) == shard
  {
    if NumberAfter(name, prefix) == Some(shard) {
      var rest := name[|prefix|..];
      var digits := if rest != "" && rest[|rest| - 1] == '\n' then rest[..|rest| - 1] else rest;
      assert name == prefix + rest;
      assert digits != rest ==> rest == digits + "\n";
      assert Names(name, prefix, digits);
    }
    if digits :| Names(name, prefix, digits) && Value(digits) == shard {
      var rest := name[|prefix|..];
      assert rest == digits || rest == digits + "\n";
      assert rest == digits ==> IsDigit(rest[|rest| - 1]);
      assert rest == digits + "\n" ==> rest[..|rest| - 1] == digits;
    }
  }

  /** No other job is one of a shard. */
  lemma JobShardMeans(name: string, shard: nat)
    ensures JobShard(name) == Some(shard) <==>
              || (exists digits :: Names(name, "corpus / Corpus shard ", digits) && Value(digits) == shard)
              || (exists digits :: Names(name, "Corpus shard ", digits) && Value(digits) == shard)
  {
    NumberMeans(name, "corpus / Corpus shard ", shard);
    NumberMeans(name, "Corpus shard ", shard);
    if NumberAfter(name, "corpus / Corpus shard ").Some? {
      assert name[0] == "corpus / Corpus shard "[0] != "Corpus shard "[0];
      OtherStart(name, "Corpus shard ");
    }
  }

  predicate FailsShard(job: Job, shard: nat) {
    JobShard(job.name) == Some(shard) && job.conclusion in {"failure", "timed_out", "cancelled"}
  }

  /** `failing_shards`: sorted, and exactly the shards of the jobs that failed. */
  method FailingShards(jobs: seq<Job>) returns (shards: seq<nat>)
    ensures Increasing(shards)
    ensures forall s: nat :: s in shards <==> exists job :: job in jobs && FailsShard(job, s)
  {
    var found: seq<nat> := [];
    for k := 0 to |jobs|
      invariant forall s: nat :: s in found <==> exists job :: job in jobs[..k] && FailsShard(job, s)
    {
      var job := jobs[k];
      assert jobs[..k + 1] == jobs[..k] + [job];
      var shard := JobShard(job.name);
      if shard.Some? && job.conclusion in {"failure", "timed_out", "cancelled"} {
        found := found + [shard.value];
        assert FailsShard(job, shard.value) && job in jobs[..k + 1];
      }
    }
    assert jobs[..|jobs|] == jobs;
    var sorted := Sorted(found);
    forall s ensures s in sorted <==> s in found {
      assert s in Members(sorted) <==> s in Members(found);
    }
    assert forall k :: 0 <= k < |sorted| ==> sorted[k] in sorted;
    shards := sorted;
  }

  datatype Run = Run(id: int, headSha: string, conclusion: string, title: string, event: string)

  /** The title says that the run covered these shards. */
  ghost predicate Covers(title: string, needed: seq<nat>) {
    exists shards :: TitleShards(title) == Some(shards) && forall s :: s in needed ==> s in shards
  }

  /** `last_green`: the newest nightly run that succeeded, is not the current one and covers
      the shards, and only without one the newest run of the whole corpus that succeeded;
      the lists are newest first. */
  method LastGreen(nightly: seq<Run>, corpus: seq<Run>, needed: seq<nat>, current: int) returns (green: Option<Run>)
    ensures green.Some? ==> green.value.conclusion == "success"
    ensures (exists k ::
               && 0 <= k < |nightly| && green == Some(nightly[k])
               && nightly[k].id != current && Covers(nightly[k].title, needed)
               && forall j :: 0 <= j < k ==>
                    nightly[j].id == current || nightly[j].conclusion != "success" || !Covers(nightly[j].title, needed))
            || (&& (forall j :: 0 <= j < |nightly| ==>
                      nightly[j].id == current || nightly[j].conclusion != "success" ||
                      !Covers(nightly[j].title, needed))
                && if green == None then
                     forall j :: 0 <= j < |corpus| ==>
                       corpus[j].conclusion != "success" || corpus[j].event !in {"push", "release", "workflow_dispatch"}
                   else exists k ::
                     && 0 <= k < |corpus| && green == Some(corpus[k])
                     && corpus[k].event in {"push", "release", "workflow_dispatch"}
                     && forall j :: 0 <= j < k ==>
                          corpus[j].conclusion != "success" ||
                          corpus[j].event !in {"push", "release", "workflow_dispatch"})
  {
    var k := FirstNightly(nightly, needed, current);
    if k < |nightly| {
      return Some(nightly[k]);
    }
    for k := 0 to |corpus|
      invariant forall j :: 0 <= j < k ==>
        corpus[j].conclusion != "success" || corpus[j].event !in {"push", "release", "workflow_dispatch"}
    {
      if corpus[k].conclusion == "success" && corpus[k].event in {"push", "release", "workflow_dispatch"} {
        return Some(corpus[k]);
      }
    }
    return None;
  }

  /** The loop over the nightly runs. */
  method FirstNightly(nightly: seq<Run>, needed: seq<nat>, current: int) returns (k: nat)
    ensures k <= |nightly|
    ensures k < |nightly| ==>
              nightly[k].id != current && nightly[k].conclusion == "success" && Covers(nightly[k].title, needed)
    ensures forall j :: 0 <= j < k ==>
              nightly[j].id == current || nightly[j].conclusion != "success" || !Covers(nightly[j].title, needed)
  {
    for i := 0 to |nightly|
      invariant forall j :: 0 <= j < i ==>
        nightly[j].id == current || nightly[j].conclusion != "success" || !Covers(nightly[j].title, needed)
    {
      var green := IsGreen(nightly[i], needed, current);
      if green {
        return i;
      }
    }
    return |nightly|;
  }

  method IsGreen(run: Run, needed: seq<nat>, current: int) returns (green: bool)
    ensures green <==> run.id != current && run.conclusion == "success" && Covers(run.title, needed)
  {
    if run.id == current || run.conclusion != "success" {
      return false;
    }
    var covered := TitleShards(run.title);
    assert forall s: int :: s in needed <==> s in Members(needed);
    return covered.Some? && Members(needed) <= covered.value;
  }

  // ---- The report ----------------------------------------------------------

  datatype Culprit = Culprit(sha: string, subject: string)

  /** The report's fields; an empty `good` or `note` and a zero `pull` are absent. */
  datatype Report = Report(
    branch: string, bad: string, good: string, commits: nat, culprit: Option<Culprit>, pull: nat,
    shards: seq<nat>, runUrl: string, jobUrls: map<nat, string>, server: string, repo: string, note: string)

  function HeadParts(r: Report): seq<Part> {
    [Fixed("The nightly corpus failed on `"), Field(r.branch), Fixed("` at "), Id(r.bad), Fixed(".")]
  }

  function ShardItem(shard: nat, urls: map<nat, string>): seq<Part> {
    if shard in urls then [Fixed("["), Id(Decimal(shard)), Fixed("]("), Field(urls[shard]), Fixed(")")]
    else [Id(Decimal(shard))]
  }

  /** The items, joined by ", ". */
  function ShardItems(shards: seq<nat>, urls: map<nat, string>): seq<Part> {
    if shards == [] then []
    else if |shards| == 1 then ShardItem(shards[0], urls)
    else ShardItem(shards[0], urls) + [Fixed(", ")] + ShardItems(shards[1..], urls)
  }

  function FailingParts(r: Report): seq<Part> {
    [Fixed("Failing shards: ")] + ShardItems(r.shards, r.jobUrls)
  }

  const UNKNOWN_RANGE := "Commit range: unknown, no earlier green run covers these shards"

  function RangeParts(r: Report): seq<Part> {
    if r.good == "" then [Fixed(UNKNOWN_RANGE)]
    else CommitParts(r) + CompareParts(r)
  }

  function CommitParts(r: Report): seq<Part> {
    [Fixed("Commit range: "), Id(r.good), Fixed(".."), Id(r.bad)] +
    [Fixed(" ("), Id(Decimal(r.commits)), Fixed(" commits since the last green run, ")]
  }

  function CompareParts(r: Report): seq<Part> {
    [Fixed("[compare]("), Field(r.server), Fixed("/"), Field(r.repo), Fixed("/compare/"), Id(r.good),
     Fixed("..."), Id(r.bad), Fixed("))")]
  }

  function CulpritParts(culprit: Culprit, pull: nat): seq<Part> {
    [Fixed("First bad commit: "), Id(culprit.sha), Fixed(" "), Field(culprit.subject)] +
    if pull == 0 then [] else [Fixed(" from #"), Id(Decimal(pull))]
  }

  function LogParts(r: Report): seq<Part> {
    [Fixed("Run and bisection log: "), Field(r.runUrl)]
  }

  function OptionalLines(r: Report): seq<seq<Part>> {
    (if r.culprit.Some? then [CulpritParts(r.culprit.value, r.pull)] else []) +
    (if r.note != "" then [[Field(r.note)]] else [])
  }

  /** The formatted lines before the marker, part by part. */
  function LineParts(r: Report): seq<seq<Part>> {
    [HeadParts(r), [], FailingParts(r), RangeParts(r)] + OptionalLines(r) + [LogParts(r), []]
  }

  function Texts(lines: seq<seq<Part>>): (texts: seq<string>)
    ensures |texts| == |lines| && forall k :: 0 <= k < |lines| ==> texts[k] == Text(lines[k])
  {
    seq(|lines|, k requires 0 <= k < |lines| => Text(lines[k]))
  }

  function Rendered(r: Report): string {
    Join("\n", Texts(LineParts(r)) + [MarkerLine(r.shards)])
  }

  /** The list of lines, grown as the report's parts are known, and joined. */
  method RenderReport(r: Report) returns (text: string)
    ensures text == Rendered(r)
  {
    var lines := [Text(HeadParts(r)), ""];
    ghost var parts := [HeadParts(r), []];
    assert lines == Texts(parts);
    lines := lines + [Text(FailingParts(r))];
    parts := AddLine(parts, FailingParts(r));
    lines := lines + [Text(RangeParts(r))];
    parts := AddLine(parts, RangeParts(r));
    if r.culprit.Some? {
      lines := lines + [Text(CulpritParts(r.culprit.value, r.pull))];
      parts := AddLine(parts, CulpritParts(r.culprit.value, r.pull));
    }
    if r.note != "" {
      lines := lines + [r.note];
      JustField(r.note);
      parts := AddLine(parts, [Field(r.note)]);
    }
    lines := lines + [Text(LogParts(r))];
    parts := AddLine(parts, LogParts(r));
    lines := lines + [""];
    parts := AddLine(parts, []);
    assert parts == LineParts(r);
    lines := lines + [MarkerLine(r.shards)];
    text := Join("\n", lines);
  }

  ghost function AddLine(lines: seq<seq<Part>>, line: seq<Part>): (more: seq<seq<Part>>)
    ensures more == lines + [line] && Texts(more) == Texts(lines) + [Text(line)]
  {
    lines + [line]
  }

  lemma JustField(text: string)
    ensures Text([Field(text)]) == text
  {}

  function LinkText(shard: nat, urls: map<nat, string>): string {
    if shard in urls then "[" + Decimal(shard) + "](" + urls[shard] + ")" else Decimal(shard)
  }

  function LinkTexts(shards: seq<nat>, urls: map<nat, string>): (texts: seq<string>)
    ensures |texts| == |shards| && forall k :: 0 <= k < |shards| ==> texts[k] == LinkText(shards[k], urls)
  {
    seq(|shards|, k requires 0 <= k < |shards| => LinkText(shards[k], urls))
  }

  lemma {:induction false} TextJoined(a: seq<Part>, b: seq<Part>)
    ensures Text(a + b) == Text(a) + Text(b)
  {
    if a == [] {
      assert a + b == b;
    } else {
      TextJoined(a[1..], b);
      assert (a + b)[1..] == a[1..] + b && (a + b)[0] == a[0];
      Regroup(a[0].text, Text(a[1..]), Text(b));
    }
  }

  lemma Regroup(a: string, b: string, c: string)
    ensures a + (b + c) == a + b + c
  {}

  lemma OneText(a: Part)
    ensures Text([a]) == a.text
  {}

  lemma ThreeTexts(a: Part, b: Part, c: Part)
    ensures Text([a, b, c]) == a.text + b.text + c.text
  {
    OneText(a);
    OneText(b);
    OneText(c);
    TextJoined([a], [b]);
    TextJoined([a] + [b], [c]);
    assert [a, b, c] == [a] + [b] + [c];
  }

  lemma FourTexts(a: Part, b: Part, c: Part, d: Part)
    ensures Text([a, b, c, d]) == a.text + b.text + c.text + d.text
  {
    ThreeTexts(a, b, c);
    OneText(d);
    TextJoined([a, b, c], [d]);
    assert [a, b, c, d] == [a, b, c] + [d];
  }

  lemma FiveTexts(a: Part, b: Part, c: Part, d: Part, e: Part)
    ensures Text([a, b, c, d, e]) == a.text + b.text + c.text + d.text + e.text
  {
    FourTexts(a, b, c, d);
    OneText(e);
    TextJoined([a, b, c, d], [e]);
    assert [a, b, c, d, e] == [a, b, c, d] + [e];
  }

  lemma FourMoreTexts(first: seq<Part>, a: Part, b: Part, c: Part, d: Part)
    ensures Text(first + [a, b, c, d]) == Text(first) + a.text + b.text + c.text + d.text
  {
    TextJoined(first, [a]);
    TextJoined(first + [a], [b]);
    TextJoined(first + [a] + [b], [c]);
    TextJoined(first + [a] + [b] + [c], [d]);
    OneText(a);
    OneText(b);
    OneText(c);
    OneText(d);
    assert first + [a] + [b] + [c] + [d] == first + [a, b, c, d];
  }

  lemma HeadText(r: Report)
    ensures Text(HeadParts(r)) == "The nightly corpus failed on `" + r.branch + "` at " + r.bad + "."
  {
    var p := HeadParts(r);
    FiveTexts(p[0], p[1], p[2], p[3], p[4]);
  }

  lemma ItemText(shard: nat, urls: map<nat, string>)
    ensures Text(ShardItem(shard, urls)) == LinkText(shard, urls)
  {
    var p := ShardItem(shard, urls);
    if shard in urls {
      FiveTexts(p[0], p[1], p[2], p[3], p[4]);
    }
  }

  lemma {:induction false} ItemsText(shards: seq<nat>, urls: map<nat, string>)
    ensures Text(ShardItems(shards, urls)) == Join(", ", LinkTexts(shards, urls))
  {
    if shards != [] {
      var item, texts := ShardItem(shards[0], urls), LinkTexts(shards, urls);
      ItemText(shards[0], urls);
      ItemsText(shards[1..], urls);
      assert texts[1..] == LinkTexts(shards[1..], urls);
      if |shards| > 1 {
        TextJoined(item + [Fixed(", ")], ShardItems(shards[1..], urls));
        TextJoined(item, [Fixed(", ")]);
      }
    }
  }

  lemma FailingText(r: Report)
    ensures Text(FailingParts(r)) == "Failing shards: " + Join(", ", LinkTexts(r.shards, r.jobUrls))
  {
    TextJoined([Fixed("Failing shards: ")], ShardItems(r.shards, r.jobUrls));
    ItemsText(r.shards, r.jobUrls);
  }

  lemma CommitText(r: Report)
    ensures Text(CommitParts(r)) == "Commit range: " + r.good + ".." + r.bad + " (" + Decimal(r.commits) +
                                    " commits since the last green run, "
  {
    var p := CommitParts(r);
    ThreeTexts(p[4], p[5], p[6]);
    FourTexts(p[0], p[1], p[2], p[3]);
    TextJoined(p[..4], p[4..]);
    assert p == p[..4] + p[4..] && p[4..] == [p[4], p[5], p[6]] && p[..4] == [p[0], p[1], p[2], p[3]];
  }

  lemma CompareText(r: Report)
    ensures Text(CompareParts(r)) ==
            "[compare](" + r.server + "/" + r.repo + "/compare/" + r.good + "..." + r.bad + "))"
  {
    var p := CompareParts(r);
    FiveTexts(p[0], p[1], p[2], p[3], p[4]);
    FourMoreTexts([p[0], p[1], p[2], p[3], p[4]], p[5], p[6], p[7], p[8]);
    assert p == [p[0], p[1], p[2], p[3], p[4]] + [p[5], p[6], p[7], p[8]];
  }

  lemma CulpritText(culprit: Culprit, pull: nat)
    ensures Text(CulpritParts(culprit, pull)) ==
            if pull == 0 then "First bad commit: " + culprit.sha + " " + culprit.subject
            else "First bad commit: " + culprit.sha + " " + culprit.subject + " from #" + Decimal(pull)
  {
    var p := CulpritParts(culprit, pull);
    var first := [p[0], p[1], p[2], p[3]];
    FourTexts(p[0], p[1], p[2], p[3]);
    if pull == 0 {
      assert p == first;
    } else {
      OneText(p[4]);
      OneText(p[5]);
      TextJoined(first, [p[4]]);
      TextJoined(first + [p[4]], [p[5]]);
      assert p == first + [p[4]] + [p[5]];
    }
  }

  lemma LogText(r: Report)
    ensures Text(LogParts(r)) == "Run and bisection log: " + r.runUrl
  {
    var p := LogParts(r);
    OneText(p[0]);
    OneText(p[1]);
    TextJoined([p[0]], [p[1]]);
    assert p == [p[0]] + [p[1]];
  }

  function RangeLine(r: Report): string {
    if r.good == "" then "Commit range: unknown, no earlier green run covers these shards"
    else
      "Commit range: " + r.good + ".." + r.bad + " (" + Decimal(r.commits) + " commits since the last green run, " +
      ("[compare](" + r.server + "/" + r.repo + "/compare/" + r.good + "..." + r.bad + "))")
  }

  lemma RangeText(r: Report)
    ensures Text(RangeParts(r)) == RangeLine(r)
  {
    if r.good == "" {
      OneText(Fixed(UNKNOWN_RANGE));
    } else {
      CommitText(r);
      CompareText(r);
      TextJoined(CommitParts(r), CompareParts(r));
    }
  }

  function CulpritLines(r: Report): seq<string> {
    match r.culprit
    case None => []
    case Some(c) =>
      if r.pull == 0 then ["First bad commit: " + c.sha + " " + c.subject]
      else ["First bad commit: " + c.sha + " " + c.subject + " from #" + Decimal(r.pull)]
  }

  lemma OptionalText(r: Report)
    ensures Texts(OptionalLines(r)) == CulpritLines(r) + if r.note == "" then [] else [r.note]
  {
    if r.culprit.Some? {
      CulpritText(r.culprit.value, r.pull);
    }
    JustField(r.note);
  }

  /** What the report says, line by line. */
  lemma ReportSays(r: Report)
    ensures
      var head := "The nightly corpus failed on `" + r.branch + "` at " + r.bad + ".";
      var failing := "Failing shards: " + Join(", ", LinkTexts(r.shards, r.jobUrls));
      var optional := CulpritLines(r) + if r.note == "" then [] else [r.note];
      var log := "Run and bisection log: " + r.runUrl;
      var marker := "<!-- nightly-failing-shards: " + Join(",", Decimals(r.shards)) + " -->";
      Rendered(r) == Join("\n", [head, "", failing, RangeLine(r)] + optional + [log, "", marker])
  {
    MarkerText(r.shards);
    HeadText(r);
    FailingText(r);
    RangeText(r);
    LogText(r);
    OptionalText(r);
    var first, last := [HeadParts(r), [], FailingParts(r), RangeParts(r)], [LogParts(r), []];
    TextsJoined(first, OptionalLines(r));
    TextsJoined(first + OptionalLines(r), last);
    assert Texts(first) == [Text(HeadParts(r)), "", Text(FailingParts(r)), RangeLine(r)];
    assert Texts(last) == [Text(LogParts(r)), ""];
    OneLast(Texts(first) + Texts(OptionalLines(r)), Text(LogParts(r)), MarkerLine(r.shards));
  }

  lemma OneLast(before: seq<string>, log: string, marker: string)
    ensures before + [log, ""] + [marker] == before + [log, "", marker]
  {}

  lemma TextsJoined(a: seq<seq<Part>>, b: seq<seq<Part>>)
    ensures Texts(a + b) == Texts(a) + Texts(b)
  {}

  /** Whatever the fields hold, the report records its shards, and beyond them only what
      its other lines record. */
  lemma ReportRecords(r: Report)
    ensures Recorded(Rendered(r)) == RecordedIn(Texts(LineParts(r))) + set s | s in r.shards
  {
    var lines, marker := Texts(LineParts(r)), MarkerLine(r.shards);
    RecordedJoin(lines + [marker]);
    assert [marker][..0] == [] && RecordedIn([marker]) == Recorded(marker);
    RecordedInJoined(lines, [marker]);
    MarkerLineRecords(r.shards);
  }

  // ---- What the fields of a report record ----------------------------------

  /** Commit ids start no marker; git prints them in hexadecimal digits. */
  predicate PlainIds(r: Report) {
    '<' !in r.bad && '<' !in r.good && (r.culprit.Some? ==> '<' !in r.culprit.value.sha)
  }

  function Listing(shards: seq<nat>): set<nat> {
    set s | s in shards
  }

  /** What the addresses of the listed shards' jobs record. */
  function LinksRecord(shards: set<nat>, urls: map<nat, string>): set<nat> {
    set s, n | s in shards && s in urls && n in Recorded(urls[s]) :: n
  }

  /** What the report's fields record, each alone, when it lists these shards. */
  function FieldShards(r: Report, shards: set<nat>): set<nat> {
    Recorded(r.branch) + LinksRecord(shards, r.jobUrls) +
    (if r.good == "" then {} else Recorded(r.server) + Recorded(r.repo)) +
    (if r.culprit.Some? then Recorded(r.culprit.value.subject) else {}) +
    Recorded(r.note) + Recorded(r.runUrl)
  }

  lemma {:induction false} FieldsRecordAppend(a: seq<Part>, b: seq<Part>)
    ensures FieldsRecord(a + b) == FieldsRecord(a) + FieldsRecord(b)
  {
    if a == [] {
      assert a + b == b;
    } else {
      assert (a + b)[1..] == a[1..] + b;
      FieldsRecordAppend(a[1..], b);
    }
  }

  /** Two rows of parts in one line, with no field where they meet. */
  lemma Together(a: seq<Part>, b: seq<Part>)
    requires WellMade(a) && WellMade(b) && a != [] && !a[|a| - 1].Field?
    ensures WellMade(a + b) && FieldsRecord(a + b) == FieldsRecord(a) + FieldsRecord(b)
  {
    FieldsRecordAppend(a, b);
    var c := a + b;
    forall j, k | 0 <= j && k == j + 1 < |c| && c[j].Field? ensures c[k].Fixed? && Stops(c[k].text) {
      if k < |a| {
        assert a[j].Field? && c[k] == a[k];
      } else {
        assert b[j - |a|].Field? && c[k] == b[k - |a|];
      }
    }
  }

  predicate Quiet(parts: seq<Part>) {
    forall k :: 0 <= k < |parts| ==> !parts[k].Field? && '<' !in parts[k].text
  }

  lemma {:induction false} QuietRecords(parts: seq<Part>)
    requires Quiet(parts)
    ensures WellMade(parts) && FieldsRecord(parts) == {}
  {
    if parts != [] {
      QuietRecords(parts[1..]);
    }
  }

  /** One field in a line: the words after it stop. */
  lemma FieldAmong(before: seq<Part>, field: string, after: seq<Part>)
    requires Quiet(before) && Quiet(after) && (after != [] ==> after[0].Fixed? && Stops(after[0].text))
    ensures WellMade(before + [Field(field)] + after)
    ensures FieldsRecord(before + [Field(field)] + after) == Recorded(field)
  {
    QuietRecords(before);
    QuietRecords(after);
    FieldsRecordAppend(before + [Field(field)], after);
    FieldsRecordAppend(before, [Field(field)]);
    assert FieldsRecord([Field(field)]) == Recorded(field);
  }

  lemma HeadWords()
    ensures '<' !in "The nightly corpus failed on `" && '<' !in "` at " && Stops("` at ")
  {
    assert StopsAt("` at ", 0);
  }

  lemma CulpritWords()
    ensures '<' !in "First bad commit: " && '<' !in " from #" && Stops(" from #")
  {
    assert StopsAt(" from #", 6);
  }

  lemma HeadRecords(r: Report)
    requires PlainIds(r)
    ensures WellMade(HeadParts(r)) && FieldsRecord(HeadParts(r)) == Recorded(r.branch)
  {
    var before, after := [Fixed("The nightly corpus failed on `")], [Fixed("` at "), Id(r.bad), Fixed(".")];
    HeadWords();
    FieldAmong(before, r.branch, after);
    assert HeadParts(r) == before + [Field(r.branch)] + after;
  }

  lemma LogRecords(r: Report)
    ensures WellMade(LogParts(r)) && FieldsRecord(LogParts(r)) == Recorded(r.runUrl)
  {
    var before := [Fixed("Run and bisection log: ")];
    FieldAmong(before, r.runUrl, []);
    assert LogParts(r) == before + [Field(r.runUrl)] + [];
  }

  lemma NoteRecords(note: string)
    ensures WellMade([Field(note)]) && FieldsRecord([Field(note)]) == Recorded(note)
  {}

  lemma CompareRecords(r: Report)
    requires PlainIds(r)
    ensures WellMade(CompareParts(r)) && FieldsRecord(CompareParts(r)) == Recorded(r.server) + Recorded(r.repo)
  {
    var a, b, c := Fixed("[compare]("), Fixed("/"), Fixed("/compare/");
    var ids := [Id(r.good), Fixed("..."), Id(r.bad), Fixed("))")];
    assert StopsAt("/", 0) && StopsAt("/compare/", 0);
    FieldAmong([a], r.server, [b]);
    FieldAmong([], r.repo, [c] + ids);
    var left, right := [a] + [Field(r.server)] + [b], [] + [Field(r.repo)] + ([c] + ids);
    Together(left, right);
    CompareSplits(r);
  }

  lemma CompareSplits(r: Report)
    ensures CompareParts(r) ==
            [Fixed("[compare](")] + [Field(r.server)] + [Fixed("/")] +
            ([] + [Field(r.repo)] + ([Fixed("/compare/")] + [Id(r.good), Fixed("..."), Id(r.bad), Fixed("))")]))
  {}

  lemma RangeRecords(r: Report)
    requires PlainIds(r)
    ensures WellMade(RangeParts(r))
    ensures FieldsRecord(RangeParts(r)) == if r.good == "" then {} else Recorded(r.server) + Recorded(r.repo)
  {
    if r.good == "" {
      UnknownRangeQuiet();
      QuietRecords([Fixed(UNKNOWN_RANGE)]);
    } else {
      CommitQuiet(r);
      QuietRecords(CommitParts(r));
      CompareRecords(r);
      Together(CommitParts(r), CompareParts(r));
    }
  }

  lemma CommitQuiet(r: Report)
    requires PlainIds(r)
    ensures Quiet(CommitParts(r))
  {
    assert '<' !in "Commit range: " && '<' !in " commits since the last green run, ";
  }

  lemma UnknownRangeQuiet()
    ensures '<' !in UNKNOWN_RANGE
  {
    assert '<' !in "Commit range: unknown, " && '<' !in "no earlier green run " && '<' !in "covers these shards";
  }

  lemma CulpritRecords(culprit: Culprit, pull: nat)
    requires '<' !in culprit.sha
    ensures WellMade(CulpritParts(culprit, pull))
    ensures FieldsRecord(CulpritParts(culprit, pull)) == Recorded(culprit.subject)
  {
    var before := [Fixed("First bad commit: "), Id(culprit.sha), Fixed(" ")];
    var after := if pull == 0 then [] else [Fixed(" from #"), Id(Decimal(pull))];
    CulpritWords();
    FieldAmong(before, culprit.subject, after);
    assert CulpritParts(culprit, pull) == before + [Field(culprit.subject)] + after;
  }

  lemma ItemRecords(shard: nat, urls: map<nat, string>)
    ensures WellMade(ShardItem(shard, urls)) && ShardItem(shard, urls) != []
    ensures !ShardItem(shard, urls)[|ShardItem(shard, urls)| - 1].Field?
    ensures FieldsRecord(ShardItem(shard, urls)) == if shard in urls then Recorded(urls[shard]) else {}
  {
    if shard in urls {
      var before, after := [Fixed("["), Id(Decimal(shard)), Fixed("](")], [Fixed(")")];
      assert StopsAt(")", 0);
      FieldAmong(before, urls[shard], after);
      assert ShardItem(shard, urls) == before + [Field(urls[shard])] + after;
    } else {
      QuietRecords([Id(Decimal(shard))]);
    }
  }

  lemma {:induction false} ItemsRecord(shards: seq<nat>, urls: map<nat, string>)
    ensures WellMade(ShardItems(shards, urls))
    ensures FieldsRecord(ShardItems(shards, urls)) == LinksRecord(Listing(shards), urls)
  {
    if shards == [] {
      assert LinksRecord({}, urls) == {};
    } else {
      var item, rest := ShardItem(shards[0], urls), ShardItems(shards[1..], urls);
      ItemRecords(shards[0], urls);
      ItemsRecord(shards[1..], urls);
      LinksMore(shards, urls);
      if |shards| > 1 {
        QuietRecords([Fixed(", ")]);
        Together(item, [Fixed(", ")]);
        Together(item + [Fixed(", ")], rest);
      }
    }
  }

  lemma LinksMore(shards: seq<nat>, urls: map<nat, string>)
    requires shards != []
    ensures LinksRecord(Listing(shards), urls) ==
            (if shards[0] in urls then Recorded(urls[shards[0]]) else {}) + LinksRecord(Listing(shards[1..]), urls)
  {
    assert shards == [shards[0]] + shards[1..];
  }

  lemma FailingRecords(r: Report)
    ensures WellMade(FailingParts(r))
    ensures FieldsRecord(FailingParts(r)) == LinksRecord(Listing(r.shards), r.jobUrls)
  {
    var start := [Fixed("Failing shards: ")];
    QuietRecords(start);
    ItemsRecord(r.shards, r.jobUrls);
    Together(start, ShardItems(r.shards, r.jobUrls));
  }

  ghost predicate AllWellMade(lines: seq<seq<Part>>) {
    forall k :: 0 <= k < |lines| ==> WellMade(lines[k])
  }

  function LinesRecord(lines: seq<seq<Part>>): set<nat> {
    if lines == [] then {} else LinesRecord(lines[..|lines| - 1]) + FieldsRecord(lines[|lines| - 1])
  }

  lemma {:induction false} LinesRecorded(lines: seq<seq<Part>>)
    requires AllWellMade(lines)
    ensures RecordedIn(Texts(lines)) == LinesRecord(lines)
  {
    if lines != [] {
      var front, last := lines[..|lines| - 1], lines[|lines| - 1];
      LinesRecorded(front);
      LineRecords(last);
      assert Texts(lines)[..|lines| - 1] == Texts(front);
    }
  }

  /** One line more in a list of lines. */
  lemma OneMoreLine(lines: seq<seq<Part>>, line: seq<Part>)
    requires AllWellMade(lines) && WellMade(line)
    ensures AllWellMade(lines + [line]) && LinesRecord(lines + [line]) == LinesRecord(lines) + FieldsRecord(line)
  {
    assert (lines + [line])[..|lines|] == lines;
  }

  lemma FourLines(head: seq<Part>, failing: seq<Part>, range: seq<Part>)
    requires WellMade(head) && WellMade(failing) && WellMade(range)
    ensures AllWellMade([head, [], failing, range])
    ensures LinesRecord([head, [], failing, range]) == FieldsRecord(head) + FieldsRecord(failing) + FieldsRecord(range)
  {
    OneMoreLine([], head);
    OneMoreLine([head], []);
    OneMoreLine([head, []], failing);
    OneMoreLine([head, [], failing], range);
    assert [] + [head] == [head] && [head] + [[]] == [head, []];
    assert [head, []] + [failing] == [head, [], failing] && [head, [], failing] + [range] == [head, [], failing, range];
  }

  lemma AllLines(head: seq<Part>, failing: seq<Part>, range: seq<Part>, optional: seq<seq<Part>>, log: seq<Part>)
    requires WellMade(head) && WellMade(failing) && WellMade(range) && WellMade(log) && AllWellMade(optional)
    ensures var lines := [head, [], failing, range] + optional + [log, []];
            AllWellMade(lines) &&
            LinesRecord(lines) == FieldsRecord(head) + FieldsRecord(failing) + FieldsRecord(range) +
                                  LinesRecord(optional) + FieldsRecord(log)
  {
    var first := [head, [], failing, range];
    FourLines(head, failing, range);
    LinesRecordAppend(first, optional);
    OneMoreLine(first + optional, log);
    OneMoreLine(first + optional + [log], []);
    assert first + optional + [log, []] == first + optional + [log] + [[]];
  }

  lemma {:induction false} LinesRecordAppend(a: seq<seq<Part>>, b: seq<seq<Part>>)
    ensures LinesRecord(a + b) == LinesRecord(a) + LinesRecord(b)
  {
    if b == [] {
      assert a + b == a;
    } else {
      LinesRecordAppend(a, b[..|b| - 1]);
      assert (a + b)[..|a + b| - 1] == a + b[..|b| - 1];
    }
  }

  lemma OptionalRecord(r: Report)
    requires PlainIds(r)
    ensures AllWellMade(OptionalLines(r))
    ensures LinesRecord(OptionalLines(r)) ==
            (if r.culprit.Some? then Recorded(r.culprit.value.subject) else {}) + Recorded(r.note)
  {
    var lines: seq<seq<Part>> := [];
    if r.culprit.Some? {
      CulpritRecords(r.culprit.value, r.pull);
      OneMoreLine(lines, CulpritParts(r.culprit.value, r.pull));
      lines := lines + [CulpritParts(r.culprit.value, r.pull)];
    }
    NoteRecords(r.note);
    OneMoreLine(lines, [Field(r.note)]);
    assert OptionalLines(r) == if r.note != "" then lines + [[Field(r.note)]] else lines;
  }

  /** The report's lines record what its fields record. */
  lemma ReportLines(r: Report)
    requires PlainIds(r)
    ensures RecordedIn(Texts(LineParts(r))) == FieldShards(r, Listing(r.shards))
  {
    HeadRecords(r);
    FailingRecords(r);
    RangeRecords(r);
    OptionalRecord(r);
    LogRecords(r);
    AllLines(HeadParts(r), FailingParts(r), RangeParts(r), OptionalLines(r), LogParts(r));
    LinesRecorded(LineParts(r));
  }

  /** A report records its shards, and beyond them what its fields record, each alone:
      no marker forms across a field and what stands beside it. */
  lemma FieldsAlone(r: Report)
    requires PlainIds(r)
    ensures Recorded(Rendered(r)) == Listing(r.shards) + FieldShards(r, Listing(r.shards))
  {
    ReportRecords(r);
    ReportLines(r);
  }

  /** Reading the report back gives exactly the shards that were printed, for every list
      of them, exactly when no field spells a marker of another shard. */
  lemma ReportRoundTrip(r: Report)
    requires PlainIds(r)
    ensures Recorded(Rendered(r)) == Listing(r.shards) <==> FieldShards(r, Listing(r.shards)) <= Listing(r.shards)
  {
    FieldsAlone(r);
  }

  /** A commit subject that quotes a marker of a shard which did not fail. */
  lemma SubjectSpellsMarker(r: Report, other: nat)
    requires PlainIds(r) && other !in r.shards
    requires r.culprit.Some? && r.culprit.value.subject == "Quote " + MarkerLine([other])
    ensures other in Recorded(Rendered(r)) && Recorded(Rendered(r)) != Listing(r.shards)
  {
    FieldsAlone(r);
    QuotedRecords(other);
    SubjectCounts(r, Listing(r.shards));
  }

  lemma QuotedRecords(other: nat)
    ensures other in Recorded("Quote " + MarkerLine([other]))
  {
    QuietBefore("Quote ", MarkerLine([other]));
    MarkerLineRecords([other]);
    assert other in [other];
  }

  lemma SubjectCounts(r: Report, shards: set<nat>)
    requires r.culprit.Some?
    ensures Recorded(r.culprit.value.subject) <= FieldShards(r, shards)
  {}

  // ---- Failures and successes ----------------------------------------------

  /** The shards whose jobs failed. */
  function Failing(jobs: seq<Job>): set<nat> {
    set job | job in jobs && FailedShard(job).Some? :: FailedShard(job).value
  }

  function FailedShard(job: Job): Option<nat> {
    if job.conclusion in {"failure", "timed_out", "cancelled"} then JobShard(job.name) else None
  }

  lemma FailingMeans(jobs: seq<Job>, shard: nat)
    ensures shard in Failing(jobs) <==> exists job :: job in jobs && FailsShard(job, shard)
  {
    if job :| job in jobs && FailsShard(job, shard) {
      assert FailedShard(job) == Some(shard);
    }
    if shard in Failing(jobs) {
      var job :| job in jobs && FailedShard(job) == Some(shard);
      assert FailsShard(job, shard);
    }
  }

  /** What a failure reports: its failing shards, and what the other fields spell. */
  function Reported(jobs: seq<Job>, draft: Report): set<nat> {
    Failing(jobs) + FieldShards(draft, Failing(jobs))
  }

  /** `cmd_failure`, from the jobs of the run: without a failing shard job it refuses;
      otherwise it reports the failing shards on the branch's issue. */
  method FailureCommand(tracker: Tracker, jobs: seq<Job>, draft: Report) returns (reported: bool)
    requires tracker.Valid()
    modifies tracker
    ensures tracker.Valid()
    ensures reported <==> Failing(jobs) != {}
    ensures !reported ==> tracker.issues == old(tracker.issues)
    ensures forall b :: b != draft.branch ==> tracker.Record(b) == old(tracker.Record(b))
    ensures reported && PlainIds(draft) ==>
              forall b ::
                tracker.Record(b) == Next(old(tracker.Record(b)), Failed(draft.branch, Reported(jobs, draft)), b)
  {
    var failing := FailingShards(jobs);
    forall s: nat ensures s in failing <==> s in Failing(jobs) {
      FailingMeans(jobs, s);
    }
    if failing == [] {
      return false;
    }
    assert failing[0] in failing;
    var report := draft.(shards := failing);
    assert Listing(failing) == Failing(jobs);
    var body := RenderReport(report);
    if PlainIds(draft) {
      FieldsAlone(report);
    }
    tracker.Fail(report.branch, body);
    reported := true;
  }

  /** How the runs of the workflow end: with jobs, and the fields of the report if some
      failed, or green on the shards that the run was given. */
  datatype Outcome = Failure(jobs: seq<Job>, draft: Report) | Success(branch: string, shards: string)

  function EventOf(outcome: Outcome): Event {
    match outcome
    case Failure(jobs, draft) =>
      if Failing(jobs) == {} then Refused(draft.branch) else Failed(draft.branch, Reported(jobs, draft))
    case Success(branch, shards) => Succeeded(branch, shards)
  }

  function Events(outcomes: seq<Outcome>): (events: seq<Event>)
    ensures |events| == |outcomes| && forall k :: 0 <= k < |events| ==> events[k] == EventOf(outcomes[k])
  {
    seq(|outcomes|, k requires 0 <= k < |outcomes| => EventOf(outcomes[k]))
  }

  predicate AllPlain(outcomes: seq<Outcome>) {
    forall k :: 0 <= k < |outcomes| && outcomes[k].Failure? ==> PlainIds(outcomes[k].draft)
  }

  /** Any serial run of the workflow, from no issue at all: what each branch's issue
      records is what replaying the failing shards and the successes gives. */
  method RunWorkflow(tracker: Tracker, outcomes: seq<Outcome>)
    requires tracker.Valid() && forall branch :: tracker.Record(branch) == None
    requires AllPlain(outcomes)
    modifies tracker
    ensures tracker.Valid()
    ensures forall branch :: tracker.Record(branch) == Replay(Events(outcomes), branch)
  {
    for k := 0 to |outcomes|
      invariant tracker.Valid() && forall branch :: tracker.Record(branch) == Replay(Events(outcomes[..k]), branch)
    {
      assert Events(outcomes[..k + 1])[..k] == Events(outcomes[..k]);
      match outcomes[k]
      case Failure(jobs, draft) =>
        var reported := FailureCommand(tracker, jobs, draft);
      case Success(branch, shards) =>
        tracker.Succeed(branch, shards);
    }
    assert outcomes[..|outcomes|] == outcomes;
  }

  // ---- What the issue of a branch records ----------------------------------

  /** The fields of a failure's report spell no other shard. */
  predicate Harmless(outcome: Outcome) {
    outcome.Failure? ==> FieldShards(outcome.draft, Failing(outcome.jobs)) <= Failing(outcome.jobs)
  }

  /** All shards that failed on the branch. */
  function FailedOn(outcomes: seq<Outcome>, branch: string): set<nat> {
    if outcomes == [] then {}
    else
      var before, last := FailedOn(outcomes[..|outcomes| - 1], branch), outcomes[|outcomes| - 1];
      if last.Failure? && last.draft.branch == branch then before + Failing(last.jobs) else before
  }

  lemma {:induction false} UnionIsFailed(outcomes: seq<Outcome>, branch: string)
    requires forall k :: 0 <= k < |outcomes| ==> Harmless(outcomes[k])
    ensures Recording(Union(Events(outcomes), branch)) == FailedOn(outcomes, branch)
  {
    if outcomes != [] {
      var front, last := outcomes[..|outcomes| - 1], outcomes[|outcomes| - 1];
      UnionIsFailed(front, branch);
      assert Events(outcomes)[..|front|] == Events(front);
      assert Harmless(last);
    }
  }

  /** Since `start`, when a success closed the branch's issue or all began, no success
      has closed it, and it records the shards that failed. */
  ghost predicate RecordsFailed(outcomes: seq<Outcome>, branch: string, start: nat) {
    && SinceClosed(Events(outcomes), branch, start)
    && Recording(Replay(Events(outcomes), branch)) == FailedOn(outcomes[start..], branch)
  }

  ghost predicate RecordsFailedSinceClosed(outcomes: seq<Outcome>, branch: string) {
    exists start: nat :: start <= |outcomes| && RecordsFailed(outcomes, branch, start)
  }

  /** With harmless fields an issue records the shards that failed on its branch since
      the last closing success, all of them and no others. */
  lemma RecordIsFailedSinceClosed(outcomes: seq<Outcome>, branch: string)
    requires forall k :: 0 <= k < |outcomes| ==> Harmless(outcomes[k])
    ensures RecordsFailedSinceClosed(outcomes, branch)
  {
    RecordIsUnionSinceClosed(Events(outcomes), branch);
    var start: nat :| SinceClosed(Events(outcomes), branch, start);
    FailedSince(outcomes, branch, start);
  }

  lemma FailedSince(outcomes: seq<Outcome>, branch: string, start: nat)
    requires forall k :: 0 <= k < |outcomes| ==> Harmless(outcomes[k])
    requires start <= |outcomes| && SinceClosed(Events(outcomes), branch, start)
    ensures RecordsFailed(outcomes, branch, start)
  {
    assert Events(outcomes)[start..] == Events(outcomes[start..]);
    assert forall k :: 0 <= k < |outcomes[start..]| ==> outcomes[start..][k] == outcomes[start + k];
    UnionIsFailed(outcomes[start..], branch);
  }
}
