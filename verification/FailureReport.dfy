/** The report of a failed nightly run, and the shards that its marker records. */
module FailureReport {
  import opened Numerals
  import opened Strings
  import opened ShardText

  const WORDS := "nightly-failing-shards: "
  const AFTER_FIRST := "!-- " + WORDS
  const OPENING := "<" + AFTER_FIRST
  const CLOSING := " -->"

  predicate HasAt(text: string, i: nat, part: string) {
    i + |part| <= |text| && forall k :: 0 <= k < |part| ==> text[i + k] == part[k]
  }

  lemma Mismatch(text: string, i: nat, part: string, k: nat)
    requires k < |part| && (i + k < |text| ==> text[i + k] != part[k])
    ensures !HasAt(text, i, part)
  {}

  // ---- Finding markers -----------------------------------------------------

  /** The end of the digits and commas from `i`. */
  function ListEnd(text: string, i: nat): (end: nat)
    requires i <= |text|
    ensures i <= end <= |text|
    ensures forall k :: i <= k < end ==> IsDigit(text[k]) || text[k] == ','
    ensures end < |text| ==> !IsDigit(text[end]) && text[end] != ','
    decreases |text| - i
  {
    if i < |text| && (IsDigit(text[i]) || text[i] == ',') then ListEnd(text, i + 1) else i
  }

  lemma {:induction false} ListEndIs(text: string, i: nat, end: nat)
    requires i <= end <= |text| && forall k :: i <= k < end ==> IsDigit(text[k]) || text[k] == ','
    requires end < |text| ==> !IsDigit(text[end]) && text[end] != ','
    ensures ListEnd(text, i) == end
    decreases end - i
  {}

  predicate MarkerAt(text: string, i: nat) {
    HasAt(text, i, OPENING) && HasAt(text, ListEnd(text, i + |OPENING|), CLOSING)
  }

  function MarkerEnd(text: string, i: nat): (end: nat)
    requires MarkerAt(text, i)
    ensures i + |OPENING| + |CLOSING| <= end <= |text|
  {
    ListEnd(text, i + |OPENING|) + |CLOSING|
  }

  /** The shards of a list: empty items count for nothing. */
  function Listed(list: string): set<nat> {
    set piece | piece in Split(list) && piece != "" :: Value(piece)
  }

  function ShardsAt(text: string, i: nat): set<nat>
    requires MarkerAt(text, i)
  {
    Listed(text[i + |OPENING|..ListEnd(text, i + |OPENING|)])
  }

  /** What all markers of a text record. */
  function Recorded(text: string): set<nat> {
    set i, shard | 0 <= i < |text| && MarkerAt(text, i) && shard in ShardsAt(text, i) :: shard
  }

  /** No marker starts inside another. */
  lemma MarkersApart(text: string, i: nat, j: nat)
    requires MarkerAt(text, i) && i < j < MarkerEnd(text, i)
    ensures !MarkerAt(text, j)
  {
    var from, end := i + |OPENING|, ListEnd(text, i + |OPENING|);
    if j < from {
      assert text[i + (j - i)] == OPENING[j - i] == AFTER_FIRST[j - i - 1];
    } else if j >= end {
      assert text[end + (j - end)] == CLOSING[j - end];
    }
    assert text[j + 0] != '<';
    Mismatch(text, j, OPENING, 0);
  }

  /** The text has a marker with this list between what stands before and after. */
  predicate Marks(text: string, before: string, list: string, after: string) {
    && text == before + "<!-- nightly-failing-shards: " + list + " -->" + after
    && DigitsAndCommas(list)
  }

  lemma Spelling()
    ensures OPENING == "<!-- nightly-failing-shards: " && CLOSING == " -->"
  {}

  lemma MarkedAt(text: string, before: string, list: string, after: string)
    requires text == before + OPENING + list + CLOSING + after && DigitsAndCommas(list)
    ensures MarkerAt(text, |before|) && ShardsAt(text, |before|) == Listed(list)
  {
    var from := |before| + |OPENING|;
    var end := from + |list|;
    assert text[from..end] == list;
    assert text[end] == CLOSING[0];
    forall k | from <= k < end ensures IsDigit(text[k]) || text[k] == ',' {
      assert text[k] == list[k - from];
    }
    ListEndIs(text, from, end);
  }

  lemma MarkedParts(text: string, i: nat)
    requires MarkerAt(text, i)
    ensures var from := i + |OPENING|;
            var end := ListEnd(text, from);
            && text == text[..i] + OPENING + text[from..end] + CLOSING + text[end + |CLOSING|..]
            && DigitsAndCommas(text[from..end])
  {
    var from := i + |OPENING|;
    var end := ListEnd(text, from);
    assert text[i..from] == OPENING && text[end..end + |CLOSING|] == CLOSING;
  }

  predicate Lists(list: string, piece: string, shard: nat) {
    piece in Split(list) && piece != "" && Value(piece) == shard
  }

  lemma RecordedIsMarked(text: string, shard: nat)
    requires shard in Recorded(text)
    ensures exists before, list, after, piece :: Marks(text, before, list, after) && Lists(list, piece, shard)
  {
    var i :| 0 <= i < |text| && MarkerAt(text, i) && shard in ShardsAt(text, i);
    var from := i + |OPENING|;
    var end := ListEnd(text, from);
    var list := text[from..end];
    var piece := PieceOf(list, shard);
    MarksAt(text, i);
  }

  lemma PieceOf(list: string, shard: nat) returns (piece: string)
    requires shard in Listed(list)
    ensures Lists(list, piece, shard)
  {
    piece :| piece in Split(list) && piece != "" && Value(piece) == shard;
  }

  lemma MarksAt(text: string, i: nat)
    requires MarkerAt(text, i)
    ensures var from := i + |OPENING|;
            var end := ListEnd(text, from);
            Marks(text, text[..i], text[from..end], text[end + |CLOSING|..])
  {
    MarkedParts(text, i);
    Spelling();
  }

  lemma MarkedIsRecorded(text: string, before: string, list: string, after: string, piece: string, shard: nat)
    requires Marks(text, before, list, after) && Lists(list, piece, shard)
    ensures shard in Recorded(text)
  {
    Spelling();
    MarkedAt(text, before, list, after);
    assert shard in Listed(list) && |before| < |text|;
  }

  /** A shard is recorded exactly when some marker of the text lists a piece worth it. */
  lemma RecordedMeans(text: string, shard: nat)
    ensures shard in Recorded(text) <==>
            exists before, list, after, piece :: Marks(text, before, list, after) && Lists(list, piece, shard)
  {
    if shard in Recorded(text) {
      RecordedIsMarked(text, shard);
    }
    if before, list, after, piece :| Marks(text, before, list, after) && Lists(list, piece, shard) {
      MarkedIsRecorded(text, before, list, after, piece, shard);
    }
  }

  /** The scan that goes on after each match, as `finditer` does. */
  method FindMarkers(text: string) returns (shards: set<nat>)
    ensures shards == Recorded(text)
  {
    shards := {};
    var index := 0;
    while index < |text|
      invariant 0 <= index <= |text|
      invariant forall s :: s in shards ==> s in Recorded(text)
      invariant forall i, s :: 0 <= i < index && MarkerAt(text, i) && s in ShardsAt(text, i) ==> s in shards
    {
      if MarkerAt(text, index) {
        shards := shards + ShardsAt(text, index);
        forall j | index < j < MarkerEnd(text, index) ensures !MarkerAt(text, j) {
          MarkersApart(text, index, j);
        }
        index := MarkerEnd(text, index);
      } else {
        index := index + 1;
      }
    }
  }

  function RecordedIn(texts: seq<string>): set<nat> {
    if texts == [] then {} else RecordedIn(texts[..|texts| - 1]) + Recorded(texts[|texts| - 1])
  }

  /** `issue_shards`: the shards recorded in an issue's body and comments. */
  method IssueShards(texts: seq<string>) returns (shards: set<nat>)
    ensures shards == RecordedIn(texts)
  {
    shards := {};
    for k := 0 to |texts|
      invariant shards == RecordedIn(texts[..k])
    {
      var found := FindMarkers(texts[k]);
      shards := shards + found;
      assert texts[..k + 1][..k] == texts[..k];
    }
    assert texts[..|texts|] == texts;
  }

  lemma {:induction false} RecordedInJoined(a: seq<string>, b: seq<string>)
    ensures RecordedIn(a + b) == RecordedIn(a) + RecordedIn(b)
  {
    if b == [] {
      assert a + b == a;
    } else {
      RecordedInJoined(a, b[..|b| - 1]);
      assert (a + b)[..|a + b| - 1] == a + b[..|b| - 1];
    }
  }

  // ---- Text after a marker -------------------------------------------------

  /** Markers hold no other characters. */
  predicate InMarker(c: char) {
    'a' <= c <= 'z' || IsDigit(c) || c in {' ', '-', ':', '!', '<', ',', '>'}
  }

  lemma OpeningInMarker(k: nat)
    requires k < |OPENING|
    ensures InMarker(OPENING[k])
  {
    assert forall j :: 0 <= j < |WORDS| ==> InMarker(WORDS[j]);
    assert forall j :: 0 <= j < 4 ==> InMarker("!-- "[j]);
  }

  /** The text comes to a character that no marker holds before it comes to a '>'. */
  predicate StopsAt(text: string, stop: nat) {
    stop < |text| && !InMarker(text[stop]) && forall k :: 0 <= k <= stop ==> text[k] != '>'
  }

  ghost predicate Stops(text: string) {
    exists stop :: StopsAt(text, stop)
  }

  lemma StopsLonger(text: string, rest: string)
    requires Stops(text)
    ensures Stops(text + rest)
  {
    var stop: nat :| StopsAt(text, stop);
    assert StopsAt(text + rest, stop);
  }

  lemma MarkerCharacters(text: string, i: nat)
    requires MarkerAt(text, i)
    ensures forall k :: i <= k < MarkerEnd(text, i) ==> InMarker(text[k])
    ensures text[MarkerEnd(text, i) - 1] == '>'
  {
    var from, end := i + |OPENING|, ListEnd(text, i + |OPENING|);
    forall k | i <= k < MarkerEnd(text, i) ensures InMarker(text[k]) {
      if k < from {
        OpeningInMarker(k - i);
        assert text[i + (k - i)] == OPENING[k - i];
      } else if k >= end {
        assert text[end + (k - end)] == CLOSING[k - end];
      }
    }
    assert text[end + 3] == CLOSING[3];
  }

  /** Whether a marker starts somewhere is decided before its end. */
  lemma MarkerCopied(text: string, other: string, i: nat)
    requires MarkerAt(text, i) && MarkerEnd(text, i) <= |other|
    requires forall k :: i <= k < MarkerEnd(text, i) ==> other[k] == text[k]
    ensures MarkerAt(other, i) && ShardsAt(other, i) == ShardsAt(text, i)
  {
    var from, end := i + |OPENING|, ListEnd(text, i + |OPENING|);
    assert other[end] == text[end + 0] == CLOSING[0] == ' ';
    ListEndIs(other, from, end);
    assert other[from..end] == text[from..end];
  }

  /** A marker that starts before text that stops ends before it. */
  lemma MarkerStopped(a: string, rest: string, i: nat)
    requires Stops(rest) && i < |a| && MarkerAt(a + rest, i)
    ensures MarkerEnd(a + rest, i) <= |a|
  {
    var text, end := a + rest, MarkerEnd(a + rest, i);
    var stop: nat :| StopsAt(rest, stop);
    MarkerCharacters(text, i);
    assert text[|a| + stop] == rest[stop];
    assert forall k :: |a| <= k < |text| ==> text[k] == rest[k - |a|];
  }

  lemma MarkerBefore(a: string, rest: string, i: nat)
    requires Stops(rest) && i < |a|
    ensures MarkerAt(a + rest, i) <==> MarkerAt(a, i)
    ensures MarkerAt(a, i) ==> ShardsAt(a + rest, i) == ShardsAt(a, i)
  {
    if MarkerAt(a + rest, i) {
      MarkerStopped(a, rest, i);
      MarkerCopied(a + rest, a, i);
    }
    if MarkerAt(a, i) {
      MarkerCopied(a, a + rest, i);
    }
  }

  lemma HasAfter(before: string, text: string, i: nat, part: string)
    ensures HasAt(before + text, |before| + i, part) <==> HasAt(text, i, part)
  {}

  lemma MarkerAfter(before: string, text: string, i: nat)
    ensures MarkerAt(before + text, |before| + i) <==> MarkerAt(text, i)
    ensures MarkerAt(text, i) ==> ShardsAt(before + text, |before| + i) == ShardsAt(text, i)
  {
    HasAfter(before, text, i, OPENING);
    if HasAt(text, i, OPENING) {
      var from := i + |OPENING|;
      var end := ListEnd(text, from);
      ListEndIs(before + text, |before| + from, |before| + end);
      HasAfter(before, text, end, CLOSING);
      SliceAfter(before, text, from, end);
    }
  }

  lemma SliceAfter(before: string, text: string, from: nat, end: nat)
    requires from <= end <= |text|
    ensures (before + text)[|before| + from..|before| + end] == text[from..end]
  {}

  lemma RecordedInSecond(before: string, b: string)
    ensures Recorded(b) <= Recorded(before + b)
  {
    forall s | s in Recorded(b) ensures s in Recorded(before + b) {
      var i :| 0 <= i < |b| && MarkerAt(b, i) && s in ShardsAt(b, i);
      MarkerAfter(before, b, i);
      assert MarkerAt(before + b, |before| + i);
    }
  }

  /** What stands before text that stops, and that text, record what each records. */
  lemma RecordedApart(a: string, rest: string)
    requires Stops(rest)
    ensures Recorded(a + rest) == Recorded(a) + Recorded(rest)
  {
    RecordedInFirst(a, rest);
    RecordedInSecond(a, rest);
    forall s | s in Recorded(a + rest) ensures s in Recorded(a) + Recorded(rest) {
      var i :| 0 <= i < |a + rest| && MarkerAt(a + rest, i) && s in ShardsAt(a + rest, i);
      RecordedInEither(a, rest, i, s);
    }
  }

  lemma RecordedInFirst(a: string, rest: string)
    requires Stops(rest)
    ensures Recorded(a) <= Recorded(a + rest)
  {
    forall s | s in Recorded(a) ensures s in Recorded(a + rest) {
      var i :| 0 <= i < |a| && MarkerAt(a, i) && s in ShardsAt(a, i);
      MarkerBefore(a, rest, i);
    }
  }

  lemma RecordedInEither(a: string, rest: string, i: nat, s: nat)
    requires Stops(rest) && i < |a + rest| && MarkerAt(a + rest, i) && s in ShardsAt(a + rest, i)
    ensures s in Recorded(a) || s in Recorded(rest)
  {
    if i < |a| {
      MarkerBefore(a, rest, i);
    } else {
      var k := i - |a|;
      MarkerAfter(a, rest, k);
    }
  }

  /** Text that cannot start a marker adds nothing to what follows it. */
  lemma QuietBefore(quiet: string, rest: string)
    requires '<' !in quiet
    ensures Recorded(quiet + rest) == Recorded(rest)
  {
    RecordedInSecond(quiet, rest);
    forall s | s in Recorded(quiet + rest) ensures s in Recorded(rest) {
      var i :| 0 <= i < |quiet + rest| && MarkerAt(quiet + rest, i) && s in ShardsAt(quiet + rest, i);
      RecordedLater(quiet, rest, i, s);
    }
  }

  lemma RecordedLater(quiet: string, rest: string, i: nat, s: nat)
    requires '<' !in quiet
    requires i < |quiet + rest| && MarkerAt(quiet + rest, i) && s in ShardsAt(quiet + rest, i)
    ensures s in Recorded(rest)
  {
    NoneStarts(quiet, rest, i);
    var k := i - |quiet|;
    MarkerAfter(quiet, rest, k);
  }

  lemma NoneStarts(quiet: string, rest: string, i: nat)
    requires '<' !in quiet && MarkerAt(quiet + rest, i)
    ensures i >= |quiet|
  {
    assert (quiet + rest)[i + 0] == OPENING[0] == '<';
  }

  /** A marker never spans lines: two lines record what each records. */
  lemma RecordedLines(a: string, b: string)
    ensures Recorded(a + "\n" + b) == Recorded(a) + Recorded(b)
  {
    assert StopsAt("\n" + b, 0);
    RecordedApart(a, "\n" + b);
    QuietBefore("\n", b);
    assert a + "\n" + b == a + ("\n" + b);
  }

  lemma {:induction false} RecordedJoin(lines: seq<string>)
    requires lines != []
    ensures Recorded(Join("\n", lines)) == RecordedIn(lines)
  {
    if |lines| == 1 {
      assert lines[..0] == [];
    } else {
      RecordedJoin(lines[1..]);
      RecordedLines(lines[0], Join("\n", lines[1..]));
      assert lines == [lines[0]] + lines[1..] && [lines[0]][..0] == [];
      RecordedInJoined([lines[0]], lines[1..]);
    }
  }

  // ---- The marker line -----------------------------------------------------

  function MarkerLine(shards: seq<nat>): string {
    OPENING + CommaForm(shards) + CLOSING
  }

  lemma MarkerText(shards: seq<nat>)
    ensures MarkerLine(shards) == "<!-- nightly-failing-shards: " + Join(",", Decimals(shards)) + " -->"
  {
    assert OPENING == "<!-- nightly-failing-shards: ";
  }

  lemma ListedCommaForm(shards: seq<nat>)
    ensures Listed(CommaForm(shards)) == set s | s in shards
  {
    if shards == [] {
      assert CommaForm(shards) == "" && Split("") == [""];
    } else {
      SplitJoined(Decimals(shards));
      forall s | s in shards ensures s in Listed(CommaForm(shards)) {
        var k :| 0 <= k < |shards| && shards[k] == s;
        DecimalSpells(s);
        assert Decimals(shards)[k] in Split(CommaForm(shards));
      }
      forall s | s in Listed(CommaForm(shards)) ensures s in shards {
        var piece :| piece in Split(CommaForm(shards)) && piece != "" && Value(piece) == s;
        var k :| 0 <= k < |shards| && Decimals(shards)[k] == piece;
        DecimalSpells(shards[k]);
      }
    }
  }

  /** The marker line records exactly its shards. */
  lemma MarkerLineRecords(shards: seq<nat>)
    ensures Recorded(MarkerLine(shards)) == set s | s in shards
  {
    var text, list := MarkerLine(shards), CommaForm(shards);
    CommaFormCharacters(shards);
    var end := |OPENING| + |list|;
    assert text[|OPENING|..end] == list;
    ListEndIs(text, |OPENING|, end);
    assert MarkerAt(text, 0) && ShardsAt(text, 0) == Listed(list) && MarkerEnd(text, 0) == |text|;
    ListedCommaForm(shards);
    forall j | 0 < j < |text| ensures !MarkerAt(text, j) {
      MarkersApart(text, 0, j);
    }
    forall s ensures s in Recorded(text) <==> s in ShardsAt(text, 0) {
      if s in ShardsAt(text, 0) {
        assert MarkerAt(text, 0) && s in ShardsAt(text, 0);
      }
    }
  }

  // ---- Lines made of parts -------------------------------------------------

  /** A piece of a formatted line: the report's own words, a number or commit id, or a
      text that comes from elsewhere. */
  datatype Part = Fixed(text: string) | Id(text: string) | Field(text: string)

  function Text(parts: seq<Part>): string {
    if parts == [] then "" else parts[0].text + Text(parts[1..])
  }

  /** Nothing but a field can start a marker, and the words after a field stop it. */
  ghost predicate WellMade(parts: seq<Part>) {
    && (forall k :: 0 <= k < |parts| ==> parts[k].Field? || '<' !in parts[k].text)
    && (forall j, k :: 0 <= j && k == j + 1 < |parts| && parts[j].Field? ==> parts[k].Fixed? && Stops(parts[k].text))
  }

  /** What the fields record, each alone. */
  function FieldsRecord(parts: seq<Part>): set<nat> {
    if parts == [] then {}
    else (if parts[0].Field? then Recorded(parts[0].text) else {}) + FieldsRecord(parts[1..])
  }

  /** A line records what its fields record, each alone. */
  lemma {:induction false} LineRecords(parts: seq<Part>)
    requires WellMade(parts)
    ensures Recorded(Text(parts)) == FieldsRecord(parts)
  {
    if parts != [] {
      var rest := parts[1..];
      TailWellMade(parts);
      LineRecords(rest);
      if !parts[0].Field? {
        QuietBefore(parts[0].text, Text(rest));
      } else if rest == [] {
        assert parts[0].text + "" == parts[0].text;
      } else {
        assert 0 + 1 < |parts| && Stops(parts[0 + 1].text);
        StopsLonger(rest[0].text, Text(rest[1..]));
        RecordedApart(parts[0].text, Text(rest));
      }
    }
  }

  lemma TailWellMade(parts: seq<Part>)
    requires parts != [] && WellMade(parts)
    ensures WellMade(parts[1..])
  {
    var rest := parts[1..];
    forall j, k | 0 <= j && k == j + 1 < |rest| && rest[j].Field? ensures rest[k].Fixed? && Stops(rest[k].text) {
      assert parts[j + 1].Field? && parts[k + 1] == rest[k];
    }
  }
}
