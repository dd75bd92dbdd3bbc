/** The texts that are read as integers, shard lists and run titles, spelled out. */
module ShardGrammar {
  import opened Numerals
  import opened Strings
  import opened ShardText

  // ---- White space ---------------------------------------------------------

  /** The ASCII characters that Python's `str.strip` removes. */
  predicate IsBlank(c: char) {
    c in {' ', '\t', '\n', '\r', '\U{B}', '\U{C}', '\U{1C}', '\U{1D}', '\U{1E}', '\U{1F}'}
  }

  predicate Blank(text: string) {
    forall k :: 0 <= k < |text| ==> IsBlank(text[k])
  }

  /** The text begins and ends with something else than white space. */
  predicate IsCore(core: string) {
    core != "" ==> !IsBlank(core[0]) && !IsBlank(core[|core| - 1])
  }

  lemma {:induction false} TrimLeftOf(before: string, rest: string)
    requires Blank(before) && (rest != "" ==> !IsBlank(rest[0]))
    ensures TrimLeft(before + rest) == rest
  {
    if before == "" {
      assert before + rest == rest;
    } else {
      assert (before + rest)[1..] == before[1..] + rest;
      TrimLeftOf(before[1..], rest);
    }
  }

  lemma {:induction false} TrimRightOf(rest: string, after: string)
    requires Blank(after) && (rest != "" ==> !IsBlank(rest[|rest| - 1]))
    ensures TrimRight(rest + after) == rest
  {
    if after == "" {
      assert rest + after == rest;
    } else {
      var n := |after| - 1;
      assert (rest + after)[..|rest + after| - 1] == rest + after[..n];
      TrimRightOf(rest, after[..n]);
    }
  }

  lemma {:induction false} AllTrimmed(text: string)
    requires Blank(text)
    ensures TrimLeft(text) == ""
  {
    if text != "" { AllTrimmed(text[1..]); }
  }

  /** White space around a core is what goes. */
  lemma TrimOf(before: string, core: string, after: string)
    requires Blank(before) && Blank(after) && IsCore(core)
    ensures Trim(before + core + after) == core
  {
    if core == "" {
      assert before + core + after == before + after;
      AllTrimmed(before + after);
    } else {
      assert before + core + after == before + (core + after);
      TrimLeftOf(before, core + after);
      TrimRightOf(core, after);
    }
  }

  lemma {:induction false} LeftParts(text: string) returns (before: string)
    ensures Blank(before) && text == before + TrimLeft(text)
    ensures TrimLeft(text) != "" ==> !IsBlank(TrimLeft(text)[0])
  {
    if text != "" && IsSpace(text[0]) {
      var rest := LeftParts(text[1..]);
      before := text[..1] + rest;
    } else {
      before := "";
    }
  }

  lemma {:induction false} RightParts(text: string) returns (after: string)
    ensures Blank(after) && text == TrimRight(text) + after
    ensures TrimRight(text) != "" ==> !IsBlank(TrimRight(text)[|TrimRight(text)| - 1])
  {
    if text != "" && IsSpace(text[|text| - 1]) {
      var rest := RightParts(text[..|text| - 1]);
      after := rest + [text[|text| - 1]];
    } else {
      after := "";
    }
  }

  /** Every text is a core with white space around it, and trimming leaves the core. */
  lemma TrimParts(text: string) returns (before: string, after: string)
    ensures Blank(before) && Blank(after) && IsCore(Trim(text)) && text == before + Trim(text) + after
  {
    before := LeftParts(text);
    after := RightParts(TrimLeft(text));
    if Trim(text) != "" {
      assert Trim(text)[0] == TrimLeft(text)[0];
    }
  }

  // ---- Integers ------------------------------------------------------------

  predicate AllNumbers(groups: seq<string>) {
    groups != [] && forall k :: 0 <= k < |groups| ==> groups[k] != "" && AllDigits(groups[k])
  }

  /** Groups of digits, with one underscore between two of them. */
  lemma {:induction false} GroupsOf(text: string) returns (groups: seq<string>)
    requires IsNumeral(text)
    ensures AllNumbers(groups) && text == Join("_", groups)
  {
    if |text| == 1 {
      groups := [text];
    } else if text[1] == '_' {
      assert 0 + 1 < |text| && text[0 + 1] == '_' ==> text[2] != '_';
      groups := GroupsOf(text[2..]);
      groups := [text[..1]] + groups;
    } else {
      groups := GroupsOf(text[1..]);
      var longer := Extend(text[..1], groups);
      JoinExtended("_", text[..1], groups);
      groups := longer;
    }
  }

  lemma {:induction false} JoinedIsNumeral(groups: seq<string>)
    requires AllNumbers(groups)
    ensures IsNumeral(Join("_", groups))
  {
    if |groups| > 1 {
      JoinedIsNumeral(groups[1..]);
      NumeralJoined(groups[0], Join("_", groups[1..]));
    }
  }

  lemma NumeralJoined(group: string, rest: string)
    requires group != "" && AllDigits(group) && IsNumeral(rest)
    ensures IsNumeral(group + "_" + rest)
  {
    var text, n := group + "_" + rest, |group| + 1;
    forall k | 0 <= k < |text| ensures IsDigit(text[k]) || text[k] == '_' {
      assert k >= n ==> text[k] == rest[k - n];
    }
    forall j, k | 0 <= j && k == j + 1 < |text| && text[j] == '_' ensures text[k] != '_' {
      if j >= n {
        assert text[j] == rest[j - n] && text[k] == rest[k - n];
      } else {
        assert j == n - 1 && text[k] == rest[0];
      }
    }
  }

  function DigitsOf(text: string): string {
    if text == "" then ""
    else
      var front, last := text[..|text| - 1], text[|text| - 1];
      if IsDigit(last) then DigitsOf(front) + [last] else DigitsOf(front)
  }

  lemma {:induction false} ValueOfDigits(text: string)
    ensures Value(text) == Value(DigitsOf(text))
  {
    if text != "" {
      var front, last := text[..|text| - 1], text[|text| - 1];
      ValueOfDigits(front);
      assert (DigitsOf(front) + [last])[..|DigitsOf(front)|] == DigitsOf(front);
    }
  }

  lemma {:induction false} DigitsOfBoth(a: string, b: string)
    ensures DigitsOf(a + b) == DigitsOf(a) + DigitsOf(b)
  {
    if b == "" {
      assert a + b == a;
    } else {
      assert (a + b)[..|a + b| - 1] == a + b[..|b| - 1];
      DigitsOfBoth(a, b[..|b| - 1]);
    }
  }

  lemma {:induction false} DigitsStay(text: string)
    requires AllDigits(text)
    ensures DigitsOf(text) == text
  {
    if text != "" { DigitsStay(text[..|text| - 1]); }
  }

  lemma {:induction false} DigitsOfGroups(groups: seq<string>)
    requires AllNumbers(groups)
    ensures DigitsOf(Join("_", groups)) == Join("", groups)
  {
    DigitsStay(groups[0]);
    if |groups| > 1 {
      DigitsOfGroups(groups[1..]);
      DigitsOfBoth(groups[0] + "_", Join("_", groups[1..]));
      DigitsOfBoth(groups[0], "_");
      assert DigitsOf("_") == "";
      assert groups[0] + "" + Join("", groups[1..]) == groups[0] + Join("", groups[1..]);
    }
  }

  function Spelled(sign: string, digits: string): int {
    if sign == "-" then -(Value(digits) as int) else Value(digits)
  }

  /** White space, perhaps a sign, groups of digits with an underscore between two of them,
      and white space; the number is what the digits are worth, with the sign. */
  predicate ReadsAs(text: string, n: int, before: string, sign: string, groups: seq<string>, after: string) {
    && Blank(before) && Blank(after) && sign in {"", "+", "-"} && AllNumbers(groups)
    && text == before + sign + Join("_", groups) + after
    && n == Spelled(sign, Join("", groups))
  }

  lemma SignedIsCore(sign: string, groups: seq<string>)
    requires sign in {"", "+", "-"} && AllNumbers(groups)
    ensures var core := sign + Join("_", groups);
            && IsCore(core) && core != "" && IsNumeral(Join("_", groups))
            && (sign != "" ==> core[0] == sign[0] && core[1..] == Join("_", groups))
            && (sign == "" ==> core == Join("_", groups) && IsDigit(core[0]))
  {
    JoinedIsNumeral(groups);
  }

  lemma CoreParses(text: string, core: string, sign: string, digits: string)
    requires Trim(text) == core && core == sign + digits && sign in {"", "+", "-"} && IsNumeral(digits)
    ensures ParseInt(text) == Ok(Spelled(sign, digits))
  {
    assert sign != "" ==> core[0] == sign[0] && core[1..] == digits;
    assert sign == "" ==> core == digits && IsDigit(core[0]);
  }

  lemma PartsTrim(text: string, n: int, before: string, sign: string, groups: seq<string>, after: string)
    requires ReadsAs(text, n, before, sign, groups, after)
    ensures Trim(text) == sign + Join("_", groups)
  {
    SignedIsCore(sign, groups);
    TrimOf(before, sign + Join("_", groups), after);
    Regrouped(before, sign, Join("_", groups), after);
  }

  lemma Regrouped(a: string, b: string, c: string, d: string)
    ensures a + (b + c) + d == a + b + c + d
  {}

  lemma GroupsValue(groups: seq<string>)
    requires AllNumbers(groups)
    ensures Value(Join("_", groups)) == Value(Join("", groups))
  {
    ValueOfDigits(Join("_", groups));
    DigitsOfGroups(groups);
  }

  lemma PartsParse(text: string, n: int, before: string, sign: string, groups: seq<string>, after: string)
    requires ReadsAs(text, n, before, sign, groups, after)
    ensures ParseInt(text) == Ok(n)
  {
    PartsTrim(text, n, before, sign, groups, after);
    JoinedIsNumeral(groups);
    CoreParses(text, sign + Join("_", groups), sign, Join("_", groups));
    GroupsValue(groups);
  }

  lemma CoreParts(core: string) returns (sign: string, digits: string)
    requires ParseInt(core).Ok? && Trim(core) == core
    ensures sign in {"", "+", "-"} && core == sign + digits && IsNumeral(digits)
    ensures ParseInt(core) == Ok(Spelled(sign, digits))
  {
    sign := if core[0] == '-' then "-" else if core[0] == '+' then "+" else "";
    digits := if sign == "" then core else core[1..];
  }

  lemma TrimTwice(text: string)
    ensures Trim(Trim(text)) == Trim(text) && ParseInt(Trim(text)) == ParseInt(text)
  {
    var before, after := TrimParts(text);
    TrimOf("", Trim(text), "");
    assert "" + Trim(text) + "" == Trim(text);
  }

  lemma IntegerParts(text: string, n: int)
    requires ParseInt(text) == Ok(n)
    ensures exists before, sign, groups, after :: ReadsAs(text, n, before, sign, groups, after)
  {
    var before, after := TrimParts(text);
    TrimTwice(text);
    var sign, digits := CoreParts(Trim(text));
    var groups := GroupsOf(digits);
    GroupsValue(groups);
    PartsRead(text, n, before, sign, digits, groups, after);
  }

  lemma PartsRead(
    text: string, n: int, before: string, sign: string, digits: string, groups: seq<string>, after: string)
    requires Blank(before) && Blank(after) && sign in {"", "+", "-"} && AllNumbers(groups)
    requires text == before + (sign + digits) + after && digits == Join("_", groups)
    requires n == Spelled(sign, Join("", groups))
    ensures ReadsAs(text, n, before, sign, groups, after)
  {
    Regrouped(before, sign, digits, after);
  }

  /** What is read as an integer, and as which. */
  lemma ParseIntMeans(text: string, n: int)
    ensures ParseInt(text) == Ok(n) <==>
            exists before, sign, groups, after :: ReadsAs(text, n, before, sign, groups, after)
  {
    if ParseInt(text) == Ok(n) {
      IntegerParts(text, n);
    }
    if before, sign, groups, after :| ReadsAs(text, n, before, sign, groups, after) {
      PartsParse(text, n, before, sign, groups, after);
    }
  }

  // ---- Shard lists ---------------------------------------------------------

  /** One item of a list of shards is not blank, and reads as this number. */
  predicate Lists(items: seq<string>, n: int) {
    exists k :: 0 <= k < |items| && ParseInt(items[k]) == Ok(n)
  }

  predicate Readable(item: string) {
    Blank(item) || ParseInt(item).Ok?
  }

  lemma BlankTrims(item: string)
    ensures Blank(item) <==> Trim(item) == ""
    ensures Blank(item) ==> ParseInt(item) == ValueError
  {
    if Blank(item) {
      AllTrimmed(item);
    }
    var before, after := TrimParts(item);
  }

  lemma ListsMore(front: seq<string>, item: string, n: int)
    ensures Lists(front + [item], n) <==> Lists(front, n) || ParseInt(item) == Ok(n)
  {
    var items := front + [item];
    if Lists(front, n) {
      var k :| 0 <= k < |front| && ParseInt(front[k]) == Ok(n);
      assert items[k] == front[k];
    }
    if ParseInt(item) == Ok(n) {
      assert items[|front|] == item;
    }
  }

  ghost predicate AllReadable(items: seq<string>) {
    forall k :: 0 <= k < |items| ==> Readable(items[k])
  }

  lemma ReadableMore(front: seq<string>, item: string)
    ensures AllReadable(front + [item]) <==> AllReadable(front) && Readable(item)
  {
    var items := front + [item];
    if AllReadable(items) {
      assert Readable(items[|front|]);
      forall k | 0 <= k < |front| ensures Readable(front[k]) {
        assert Readable(items[k]);
      }
    }
  }

  /** Blank items count for nothing, and one that is neither blank nor an integer spoils
      the list. */
  lemma {:induction false} NumbersMean(items: seq<string>)
    ensures Numbers(items).Ok? <==> AllReadable(items)
    ensures Numbers(items).Ok? ==> forall n :: n in Numbers(items).value <==> Lists(items, n)
  {
    if items != [] {
      var front, item := items[..|items| - 1], items[|items| - 1];
      NumbersMean(front);
      BlankTrims(item);
      assert items == front + [item];
      ReadableMore(front, item);
      forall n ensures Lists(items, n) <==> Lists(front, n) || ParseInt(item) == Ok(n) {
        ListsMore(front, item, n);
      }
    }
  }

  /** Blank text and "all" mean every shard. Any other text is a list of items between
      commas, each blank or an integer from 0 to 15, and not all of them blank; it is read
      as the increasing list of these integers. */
  lemma ParseShardsMeans(text: string)
    ensures Blank(text) ==> ParseShards(text) == Ok(AllShards())
    ensures Trim(text) == "all" ==> ParseShards(text) == Ok(AllShards())
    ensures !Blank(text) && Trim(text) != "all" ==>
              var items := Split(Trim(text));
              && (ParseShards(text).Ok? <==>
                    && AllReadable(items)
                    && (exists n :: Lists(items, n))
                    && (forall n :: Lists(items, n) ==> 0 <= n < 16))
              && (ParseShards(text).Ok? ==> forall n :: n in ParseShards(text).value <==> Lists(items, n))
  {
    BlankTrims(text);
    if !Blank(text) && Trim(text) != "all" {
      ItemsMean(text, Split(Trim(text)));
    }
  }

  lemma ItemsMean(text: string, items: seq<string>)
    requires Trim(text) != "" && Trim(text) != "all" && items == Split(Trim(text))
    ensures ParseShards(text).Ok? <==>
              AllReadable(items) && (exists n :: Lists(items, n)) && (forall n :: Lists(items, n) ==> 0 <= n < 16)
    ensures ParseShards(text).Ok? ==> forall n :: n in ParseShards(text).value <==> Lists(items, n)
  {
    NumbersMean(items);
    if Numbers(items).Ok? {
      var numbers := Numbers(items).value;
      ListParses(text, numbers);
      assert numbers != [] ==> numbers[0] in numbers && Lists(items, numbers[0]);
    }
  }

  lemma ListParses(text: string, numbers: seq<int>)
    requires Trim(text) != "" && Trim(text) != "all" && Numbers(Split(Trim(text))) == Ok(numbers)
    ensures ParseShards(text).Ok? <==> numbers != [] && forall n :: n in numbers ==> 0 <= n < 16
    ensures ParseShards(text).Ok? ==> forall n :: n in ParseShards(text).value <==> n in numbers
  {
    SortedMeans(numbers);
    SortedParses(text, numbers, Sorted(numbers));
  }

  lemma SortedParses(text: string, numbers: seq<int>, sorted: seq<int>)
    requires Trim(text) != "" && Trim(text) != "all" && Numbers(Split(Trim(text))) == Ok(numbers)
    requires sorted == Sorted(numbers)
    ensures ParseShards(text) ==
            if sorted != [] && sorted[0] >= 0 && sorted[|sorted| - 1] < 16 then Ok(sorted) else ValueError
  {}

  lemma SortedMeans(numbers: seq<int>)
    ensures forall n :: n in Sorted(numbers) <==> n in numbers
    ensures var sorted := Sorted(numbers);
            sorted != [] && sorted[0] >= 0 && sorted[|sorted| - 1] < 16 <==>
            numbers != [] && forall n :: n in numbers ==> 0 <= n < 16
  {
    SameNumbers(numbers);
    BoundedByEnds(Sorted(numbers), numbers);
  }

  lemma SameNumbers(numbers: seq<int>)
    ensures forall n :: n in Sorted(numbers) <==> n in numbers
    ensures Sorted(numbers) == [] <==> numbers == []
  {
    var sorted := Sorted(numbers);
    assert numbers != [] ==> numbers[0] in Members(numbers);
    assert sorted != [] ==> sorted[0] in Members(sorted);
    forall n ensures n in sorted <==> n in numbers {
      assert n in Members(sorted) <==> n in Members(numbers);
    }
  }

  lemma BoundedByEnds(sorted: seq<int>, numbers: seq<int>)
    requires Increasing(sorted) && (sorted == [] <==> numbers == []) && forall n :: n in sorted <==> n in numbers
    ensures sorted != [] && sorted[0] >= 0 && sorted[|sorted| - 1] < 16 <==>
            numbers != [] && forall n :: n in numbers ==> 0 <= n < 16
  {
    if sorted != [] {
      assert sorted[0] in numbers && sorted[|sorted| - 1] in numbers;
      forall n | n in numbers ensures sorted[0] <= n <= sorted[|sorted| - 1] {
        var k :| 0 <= k < |sorted| && sorted[k] == n;
      }
    }
  }

  // ---- Run titles ----------------------------------------------------------

  /** A run says what it covered when its title is that of all shards, or that of a list
      on one line that can be read. */
  lemma TitleMeans(title: string, covered: set<int>)
    ensures TitleShards(title) == Some(covered) <==>
              || (title == "nightly corpus: all shards" && covered == Members(AllShards()))
              || (exists list :: Covering(title, list) && covered == Members(ParseShards(list).value))
  {
    if TitleShards(title) == Some(covered) && title != ALL_TITLE {
      var list := title[|SHARDS_TITLE|..];
      assert title == SHARDS_TITLE + list;
      assert Covering(title, list);
    }
    if list :| Covering(title, list) && covered == Members(ParseShards(list).value) {
      NotAllTitle(list);
      assert title == SHARDS_TITLE + list;
    }
  }

  predicate Covering(title: string, list: string) {
    title == "nightly corpus: shards " + list && list != "" && '\n' !in list && ParseShards(list).Ok?
  }
}
