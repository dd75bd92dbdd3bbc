/** Shard numbers as text: how Python reads integers, and the shard lists that the
    nightly run is given and prints. */
module ShardText {
  import opened Numerals
  import opened Strings

  const SHARD_COUNT: nat := 16

  datatype Option<+T> = Some(value: T) | None

  datatype Result<+T> = Ok(value: T) | ValueError

  // ---- Python's `strip`, `int` and `split` ----------------------------------

  predicate IsSpace(c: char) {
    9 <= c as int <= 13 || 28 <= c as int <= 32
  }

  function TrimLeft(text: string): string {
    if text != "" && IsSpace(text[0]) then TrimLeft(text[1..]) else text
  }

  function TrimRight(text: string): string {
    if text != "" && IsSpace(text[|text| - 1]) then TrimRight(text[..|text| - 1]) else text
  }

  function Trim(text: string): string {
    TrimRight(TrimLeft(text))
  }

  /** Digits, with single underscores between them. */
  predicate IsNumeral(text: string) {
    && text != "" && IsDigit(text[0]) && IsDigit(text[|text| - 1])
    && (forall k :: 0 <= k < |text| ==> IsDigit(text[k]) || text[k] == '_')
    && (forall j, k :: 0 <= j && k == j + 1 < |text| && text[j] == '_' ==> text[k] != '_')
  }

  /** `int(text)`. */
  function ParseInt(text: string): Result<int> {
    var trimmed := Trim(text);
    var signed := trimmed != "" && (trimmed[0] == '-' || trimmed[0] == '+');
    var digits := if signed then trimmed[1..] else trimmed;
    if !IsNumeral(digits) then ValueError
    else Ok(if signed && trimmed[0] == '-' then -(Value(digits) as int) else Value(digits))
  }

  /** A printed number is read back. */
  lemma ParseDecimal(n: nat)
    ensures ParseInt(Decimal(n)) == Ok(n)
  {
    DecimalSpells(n);
  }

  /** So is a printed integer. */
  lemma ParseShown(n: int)
    ensures ParseInt(Shown(n)) == Ok(n)
  {
    ShownSpells(n);
    if n < 0 {
      assert Shown(n)[1..] == Decimal(-n);
    }
  }

  /** `text.split(",")`. */
  function Split(text: string): (pieces: seq<string>)
    ensures pieces != []
  {
    if text == "" then [""]
    else if text[0] == ',' then [""] + Split(text[1..])
    else Extend(text[..1], Split(text[1..]))
  }

  predicate NoComma(text: string) {
    forall k :: 0 <= k < |text| ==> text[k] != ','
  }

  lemma {:induction false} SplitOne(text: string)
    requires NoComma(text)
    ensures Split(text) == [text]
  {
    if text != "" {
      SplitOne(text[1..]);
      assert text[..1] + text[1..] == text;
    }
  }

  lemma {:induction false} SplitFirst(text: string, rest: string)
    requires NoComma(text)
    ensures Split(text + "," + rest) == [text] + Split(rest)
  {
    var whole := text + "," + rest;
    if text == "" {
      assert whole[0] == ',' && whole[1..] == rest;
    } else {
      SplitFirst(text[1..], rest);
      assert whole[1..] == text[1..] + "," + rest && whole[..1] == text[..1];
      assert text[..1] + text[1..] == text;
    }
  }

  /** Joined pieces without commas are split again. */
  lemma {:induction false} SplitJoined(pieces: seq<string>)
    requires pieces != [] && forall k :: 0 <= k < |pieces| ==> NoComma(pieces[k])
    ensures Split(Join(",", pieces)) == pieces
  {
    if |pieces| == 1 {
      SplitOne(pieces[0]);
    } else {
      SplitJoined(pieces[1..]);
      SplitFirst(pieces[0], Join(",", pieces[1..]));
    }
  }

  // ---- Sorted lists of integers --------------------------------------------

  predicate Increasing(xs: seq<int>) {
    forall i, j :: 0 <= i < j < |xs| ==> xs[i] < xs[j]
  }

  function Members(xs: seq<int>): set<int> {
    set x | x in xs
  }

  function Insert(xs: seq<int>, n: int): (r: seq<int>)
    ensures r != []
  {
    if xs == [] then [n]
    else if n < xs[0] then [n] + xs
    else if n == xs[0] then xs
    else [xs[0]] + Insert(xs[1..], n)
  }

  lemma {:induction false} InsertAdds(xs: seq<int>, n: int)
    ensures Members(Insert(xs, n)) == Members(xs) + {n}
  {
    if xs != [] {
      var rest := Insert(xs[1..], n);
      InsertAdds(xs[1..], n);
      assert xs == [xs[0]] + xs[1..];
      assert Members([xs[0]] + xs[1..]) == {xs[0]} + Members(xs[1..]);
      assert Members([xs[0]] + rest) == {xs[0]} + Members(rest);
      assert Members([n] + xs) == {n} + Members(xs);
    }
  }

  lemma {:induction false} InsertKeepsOrder(xs: seq<int>, n: int)
    requires Increasing(xs)
    ensures Increasing(Insert(xs, n))
  {
    if xs != [] && n > xs[0] {
      var rest := Insert(xs[1..], n);
      InsertKeepsOrder(xs[1..], n);
      InsertAdds(xs[1..], n);
      forall k | 0 <= k < |rest| ensures xs[0] < rest[k] {
        assert rest[k] in Members(rest);
      }
    }
  }

  /** `sorted(set(xs))`. */
  function Sorted(xs: seq<int>): (r: seq<int>)
    ensures Increasing(r) && Members(r) == Members(xs)
  {
    if xs == [] then []
    else
      var front, last := xs[..|xs| - 1], xs[|xs| - 1];
      InsertAdds(Sorted(front), last);
      InsertKeepsOrder(Sorted(front), last);
      assert xs == front + [last];
      Insert(Sorted(front), last)
  }

  lemma {:induction false} IncreasingUnique(a: seq<int>, b: seq<int>)
    requires Increasing(a) && Increasing(b) && Members(a) == Members(b)
    ensures a == b
  {
    assert b != [] ==> b[0] in Members(b);
    assert a == [] ==> Members(a) == {};
    if a != [] {
      assert a[0] in Members(b);
      var i :| 0 <= i < |b| && b[i] == a[0];
      assert b[0] in Members(a);
      var j :| 0 <= j < |a| && a[j] == b[0];
      assert a[0] == b[0];
      MembersOfTail(a);
      MembersOfTail(b);
      IncreasingUnique(a[1..], b[1..]);
    }
  }

  lemma MembersOfTail(a: seq<int>)
    requires Increasing(a) && a != []
    ensures Members(a[1..]) == Members(a) - {a[0]}
  {}

  // ---- Shard lists ---------------------------------------------------------

  function AllShards(): (shards: seq<int>)
    ensures |shards| == SHARD_COUNT && forall k :: 0 <= k < SHARD_COUNT ==> shards[k] == k
  {
    seq(SHARD_COUNT, k => k)
  }

  predicate InRange(shards: seq<int>) {
    forall k :: 0 <= k < |shards| ==> 0 <= shards[k] < SHARD_COUNT
  }

  /** The numbers of the items that are not blank; one bad item spoils the list. */
  function Numbers(items: seq<string>): Result<seq<int>> {
    if items == [] then Ok([])
    else
      match Numbers(items[..|items| - 1])
      case ValueError => ValueError
      case Ok(numbers) =>
        var item := items[|items| - 1];
        if Trim(item) == "" then Ok(numbers)
        else match ParseInt(item)
          case ValueError => ValueError
          case Ok(n) => Ok(numbers + [n])
  }

  /** `parse_shards`. */
  function ParseShards(text: string): (r: Result<seq<int>>)
    ensures r.Ok? ==> r.value != [] && Increasing(r.value) && InRange(r.value)
  {
    var trimmed := Trim(text);
    if trimmed == "" || trimmed == "all" then Ok(AllShards())
    else match Numbers(Split(trimmed))
      case ValueError => ValueError
      case Ok(numbers) =>
        var shards := Sorted(numbers);
        if shards == [] || shards[0] < 0 || shards[|shards| - 1] >= SHARD_COUNT then ValueError else Ok(shards)
  }

  function Decimals(shards: seq<nat>): (texts: seq<string>)
    ensures |texts| == |shards| && forall k :: 0 <= k < |shards| ==> texts[k] == Decimal(shards[k])
  {
    seq(|shards|, k requires 0 <= k < |shards| => Decimal(shards[k]))
  }

  /** `",".join(map(str, shards))`. */
  function CommaForm(shards: seq<nat>): string {
    Join(",", Decimals(shards))
  }

  predicate DigitsAndCommas(text: string) {
    forall k :: 0 <= k < |text| ==> IsDigit(text[k]) || text[k] == ','
  }

  lemma {:induction false} CommaFormCharacters(shards: seq<nat>)
    ensures DigitsAndCommas(CommaForm(shards))
    ensures shards != [] ==> CommaForm(shards) != ""
  {
    if |shards| > 1 {
      CommaFormCharacters(shards[1..]);
      assert Decimals(shards)[1..] == Decimals(shards[1..]);
    }
  }

  lemma {:induction false} NumbersOfDecimals(shards: seq<nat>)
    ensures Numbers(Decimals(shards)) == Ok(shards)
  {
    if shards != [] {
      var front, last := shards[..|shards| - 1], shards[|shards| - 1];
      NumbersOfDecimals(front);
      assert Decimals(shards) == Decimals(front) + [Decimal(last)];
      NumbersMore(Decimals(front), front, last);
      assert shards == front + [last];
    }
  }

  lemma NumbersMore(items: seq<string>, numbers: seq<int>, n: nat)
    requires Numbers(items) == Ok(numbers)
    ensures Numbers(items + [Decimal(n)]) == Ok(numbers + [n])
  {
    ParseDecimal(n);
    assert (items + [Decimal(n)])[..|items|] == items;
  }

  /** The comma form is read back as the sorted list of its shards; the empty list, and
      only that, reads as every shard, and a shard out of range is refused. */
  lemma ParseCommaForm(shards: seq<nat>)
    ensures ParseShards(CommaForm(shards)) ==
            if shards == [] then Ok(AllShards())
            else if exists s :: s in shards && s >= 16 then ValueError
            else Ok(Sorted(shards))
  {
    if shards != [] {
      CommaFormCharacters(shards);
      TrimPlain(CommaForm(shards));
      SplitJoined(Decimals(shards));
      NumbersOfDecimals(shards);
      SortedBounds(shards);
    }
  }

  lemma TrimPlain(text: string)
    requires DigitsAndCommas(text) && text != ""
    ensures Trim(text) == text && text != "all"
  {}

  lemma SortedBounds(shards: seq<nat>)
    requires shards != []
    ensures var xs := Sorted(shards);
            xs != [] && xs[0] >= 0 && (xs[|xs| - 1] >= SHARD_COUNT <==> exists s :: s in shards && s >= SHARD_COUNT)
  {
    var xs := Sorted(shards);
    assert shards[0] in Members(xs);
    assert xs[0] in Members(shards) && xs[|xs| - 1] in Members(shards);
    forall s | s in shards ensures s <= xs[|xs| - 1] {
      assert s in Members(xs);
    }
  }

  /** `bisect` passes its shards to `step` in this form: a sorted list comes back as is. */
  lemma ParseSortedCommaForm(shards: seq<nat>)
    requires shards != [] && Increasing(shards) && InRange(shards)
    ensures ParseShards(CommaForm(shards)) == Ok(shards)
  {
    ParseCommaForm(shards);
    IncreasingUnique(Sorted(shards), shards);
  }

  // ---- Run titles ----------------------------------------------------------

  const ALL_TITLE := "nightly corpus: all shards"
  const SHARDS_TITLE := "nightly corpus: shards "

  /** `title_shards`: what a run covered, or nothing when its title is no nightly one. */
  function TitleShards(title: string): Option<set<int>> {
    if title == ALL_TITLE then Some(Members(AllShards()))
    else if !StartsWith(title, SHARDS_TITLE) || |title| == |SHARDS_TITLE| || '\n' in title[|SHARDS_TITLE|..] then None
    else match ParseShards(title[|SHARDS_TITLE|..])
      case ValueError => None
      case Ok(shards) => Some(Members(shards))
  }

  /** The title of a run of some shards says which. */
  lemma TitleOfShards(shards: seq<nat>)
    requires shards != [] && Increasing(shards) && InRange(shards)
    ensures TitleShards(SHARDS_TITLE + CommaForm(shards)) == Some(Members(shards))
    ensures SHARDS_TITLE == "nightly corpus: shards "
  {
    var title := SHARDS_TITLE + CommaForm(shards);
    CommaFormCharacters(shards);
    ParseSortedCommaForm(shards);
    NotAllTitle(CommaForm(shards));
    assert '\n' !in CommaForm(shards);
  }

  /** The title of a run of all shards says so. */
  lemma TitleOfAll()
    ensures var covered := TitleShards("nightly corpus: all shards");
            covered.Some? && forall s: int :: s in covered.value <==> 0 <= s < 16
  {
    forall s: int ensures s in Members(AllShards()) <==> 0 <= s < 16 {
      assert 0 <= s < 16 ==> AllShards()[s] == s;
    }
  }

  lemma NotAllTitle(rest: string)
    ensures SHARDS_TITLE + rest != ALL_TITLE
  {
    assert (SHARDS_TITLE + rest)[16] == 's' && ALL_TITLE[16] == 'a';
  }
}
