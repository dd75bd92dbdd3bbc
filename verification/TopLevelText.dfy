/** Splitting printed expressions at top-level separators, and the printer of
    expanded sums that moves a numeric factor to the front of its term. */
module TopLevelText {
  import opened Numerals
  import opened Strings

  // ---- Splitting -----------------------------------------------------------

  /** The pieces of `rest` when `depth` parentheses are open before it. Inside "**"
      no "*" separates. */
  function Pieces(rest: string, separator: string, depth: int): (pieces: seq<string>)
    requires separator != ""
    ensures pieces != []
    decreases |rest|
  {
    if rest == "" then [""]
    else if rest[0] == '(' then Extend(rest[..1], Pieces(rest[1..], separator, depth + 1))
    else if rest[0] == ')' then Extend(rest[..1], Pieces(rest[1..], separator, depth - 1))
    else if separator == "*" && StartsWith(rest, "**") then Extend(rest[..2], Pieces(rest[2..], separator, depth))
    else if depth == 0 && StartsWith(rest, separator) then [""] + Pieces(rest[|separator|..], separator, depth)
    else Extend(rest[..1], Pieces(rest[1..], separator, depth))
  }

  /** What the loop has still to add to the pieces it has collected. */
  function Pending(text: string, separator: string, start: nat, index: nat, depth: int): (pieces: seq<string>)
    requires separator != "" && start <= index <= |text|
    ensures pieces != []
  {
    Extend(text[start..index], Pieces(text[index..], separator, depth))
  }

  lemma PendingStep(text: string, separator: string, start: nat, index: nat, depth: int, after: int)
    requires separator != "" && start <= index < |text|
    requires if text[index] == '(' then after == depth + 1
             else if text[index] == ')' then after == depth - 1
             else after == depth && !(separator == "*" && StartsWith(text[index..], "**")) &&
                  !(depth == 0 && StartsWith(text[index..], separator))
    ensures Pending(text, separator, start, index, depth) == Pending(text, separator, start, index + 1, after)
  {
    TakeMore(text, start, index, 1, Pieces(text[index + 1..], separator, after));
  }

  lemma PendingPower(text: string, start: nat, index: nat, depth: int)
    requires start <= index < |text| && StartsWith(text[index..], "**")
    ensures index + 2 <= |text|
    ensures Pending(text, "*", start, index, depth) == Pending(text, "*", start, index + 2, depth)
  {
    assert text[index] == text[index..][..2][0] == '*';
    TakeMore(text, start, index, 2, Pieces(text[index + 2..], "*", depth));
  }

  lemma PendingSeparator(text: string, separator: string, start: nat, index: nat)
    requires separator != "" && start <= index < |text| && StartsWith(text[index..], separator)
    requires text[index] != '(' && text[index] != ')' && !(separator == "*" && StartsWith(text[index..], "**"))
    ensures index + |separator| <= |text|
    ensures Pending(text, separator, start, index, 0) ==
            [text[start..index]] + Pending(text, separator, index + |separator|, index + |separator|, 0)
  {
    var after := index + |separator|;
    assert text[index..][|separator|..] == text[after..];
    ExtendNothing(Pieces(text[after..], separator, 0));
    assert text[after..after] == "" && text[start..index] + "" == text[start..index];
  }

  lemma PendingAtEnd(text: string, separator: string, start: nat, depth: int)
    requires separator != "" && start <= |text|
    ensures Pending(text, separator, start, |text|, depth) == [text[start..]]
  {
    assert text[start..|text|] + "" == text[start..] && text[|text|..] == "";
  }

  lemma PendingAtStart(text: string, separator: string)
    requires separator != ""
    ensures [] + Pending(text, separator, 0, 0, 0) == Pieces(text, separator, 0)
  {
    assert text[0..0] == "" && text[0..] == text;
    ExtendNothing(Pieces(text, separator, 0));
  }

  lemma TakeMore(text: string, start: nat, index: nat, count: nat, pieces: seq<string>)
    requires start <= index && index + count <= |text| && pieces != []
    ensures text[index..][count..] == text[index + count..] && text[index..][..count] == text[index..index + count]
    ensures Extend(text[start..index], Extend(text[index..index + count], pieces)) ==
            Extend(text[start..index + count], pieces)
  {
    assert text[start..index] + text[index..index + count] == text[start..index + count];
    ExtendTwice(text[start..index], text[index..index + count], pieces);
  }

  method SplitTopLevel(text: string, separator: string) returns (pieces: seq<string>)
    requires separator != ""
    ensures pieces == Pieces(text, separator, 0)
  {
    pieces := [];
    var start, depth, index := 0, 0, 0;
    PendingAtStart(text, separator);
    ghost var pending := Pending(text, separator, 0, 0, 0);
    while index < |text|
      invariant 0 <= start <= index <= |text|
      invariant pending == Pending(text, separator, start, index, depth)
      invariant pieces + pending == Pieces(text, separator, 0)
    {
      var next, after, separates := Turn(text, separator, start, index, depth);
      if separates {
        pieces := pieces + [text[start..index]];
        start := next;
      }
      index, depth := next, after;
      pending := Pending(text, separator, start, index, depth);
    }
    PendingAtEnd(text, separator, start, depth);
    pieces := pieces + [text[start..]];
  }

  /** One turn of the loop: where it goes on, at what depth, and whether it met a separator. */
  method Turn(text: string, separator: string, start: nat, index: nat, depth: int)
    returns (next: nat, after: int, separates: bool)
    requires separator != "" && start <= index < |text|
    ensures index < next <= |text|
    ensures separates ==> after == 0
    ensures separates ==>
              Pending(text, separator, start, index, depth) ==
              [text[start..index]] + Pending(text, separator, next, next, 0)
    ensures !separates ==> Pending(text, separator, start, index, depth) == Pending(text, separator, start, next, after)
  {
    var c := text[index];
    next, after, separates := index + 1, depth, false;
    if c == '(' {
      after := depth + 1;
    } else if c == ')' {
      after := depth - 1;
    } else if separator == "*" && StartsWith(text[index..], "**") {
      PendingPower(text, start, index, depth);
      next := index + 2;
      return;
    } else if depth == 0 && StartsWith(text[index..], separator) {
      PendingSeparator(text, separator, start, index);
      next, separates := index + |separator|, true;
      return;
    }
    PendingStep(text, separator, start, index, depth, after);
  }

  /** Nothing is lost: joining the pieces of any text gives the text back. */
  lemma {:induction false} JoinPieces(text: string, separator: string, depth: int)
    requires separator != ""
    ensures Join(separator, Pieces(text, separator, depth)) == text
    decreases |text|
  {
    if text == "" {
    } else if text[0] == '(' {
      JoinPieces(text[1..], separator, depth + 1);
      JoinExtended(separator, text[..1], Pieces(text[1..], separator, depth + 1));
    } else if text[0] == ')' {
      JoinPieces(text[1..], separator, depth - 1);
      JoinExtended(separator, text[..1], Pieces(text[1..], separator, depth - 1));
    } else if separator == "*" && StartsWith(text, "**") {
      JoinPieces(text[2..], separator, depth);
      JoinExtended(separator, text[..2], Pieces(text[2..], separator, depth));
      assert text[..2] + text[2..] == text;
    } else if depth == 0 && StartsWith(text, separator) {
      var rest := Pieces(text[|separator|..], separator, depth);
      JoinPieces(text[|separator|..], separator, depth);
      assert ([""] + rest)[1..] == rest;
      assert "" + separator + text[|separator|..] == text;
    } else {
      JoinPieces(text[1..], separator, depth);
      JoinExtended(separator, text[..1], Pieces(text[1..], separator, depth));
      assert text[..1] + text[1..] == text;
    }
  }

  // ---- Text that hides its separators --------------------------------------

  /** Reading `text` before `next`, from the given depth, meets no separator and
      ends at depth zero. */
  predicate Seamless(text: string, next: string, separator: string, depth: int)
    requires separator != ""
    decreases |text|
  {
    if text == "" then depth == 0
    else if text[0] == '(' then Seamless(text[1..], next, separator, depth + 1)
    else if text[0] == ')' then Seamless(text[1..], next, separator, depth - 1)
    else if separator == "*" && StartsWith(text + next, "**") then
      |text| >= 2 && Seamless(text[2..], next, separator, depth)
    else if depth == 0 && StartsWith(text + next, separator) then false
    else Seamless(text[1..], next, separator, depth)
  }

  /** The separator is seen where it stands, before `rest`. */
  predicate Separates(separator: string, rest: string)
    requires separator != ""
  {
    separator[0] != '(' && separator[0] != ')' && (separator == "*" ==> !StartsWith(rest, "*"))
  }

  lemma {:induction false} SeamlessPiece(text: string, rest: string, separator: string, depth: int)
    requires separator != "" && Separates(separator, rest)
    requires Seamless(text, separator + rest, separator, depth)
    ensures Pieces(text + separator + rest, separator, depth) == [text] + Pieces(rest, separator, 0)
    decreases |text|
  {
    var next := separator + rest;
    var whole := text + separator + rest;
    assert whole == text + next;
    if text == "" {
      assert whole == next && whole[..|separator|] == separator && whole[|separator|..] == rest;
      assert whole[0] == separator[0];
      assert |separator| == 1 && |rest| > 0 ==> whole[1] == rest[0];
    } else if text[0] == '(' || text[0] == ')' {
      assert whole[1..] == text[1..] + separator + rest && whole[..1] == text[..1];
      SeamlessPiece(text[1..], rest, separator, if text[0] == '(' then depth + 1 else depth - 1);
      assert text[..1] + text[1..] == text;
    } else if separator == "*" && StartsWith(text + next, "**") {
      assert whole[2..] == text[2..] + separator + rest && text[..2] == whole[..2] == "**";
      SeamlessPiece(text[2..], rest, separator, depth);
      assert text[..2] + text[2..] == text;
    } else {
      assert whole[1..] == text[1..] + separator + rest && whole[..1] == text[..1];
      SeamlessPiece(text[1..], rest, separator, depth);
      assert text[..1] + text[1..] == text;
    }
  }

  lemma {:induction false} SeamlessLast(text: string, separator: string, depth: int)
    requires separator != "" && Seamless(text, "", separator, depth)
    ensures Pieces(text, separator, depth) == [text]
    decreases |text|
  {
    assert text + "" == text;
    if text == "" {
    } else if text[0] == '(' || text[0] == ')' {
      SeamlessLast(text[1..], separator, if text[0] == '(' then depth + 1 else depth - 1);
      assert text[..1] + text[1..] == text;
    } else if separator == "*" && StartsWith(text, "**") {
      SeamlessLast(text[2..], separator, depth);
      assert text[..2] + text[2..] == text;
    } else {
      SeamlessLast(text[1..], separator, depth);
      assert text[..1] + text[1..] == text;
    }
  }

  lemma ConcatenationAssociates(a: string, b: string, next: string)
    ensures a + (b + next) == (a + b) + next
  {}

  lemma TailOfConcatenation(a: string, b: string, k: nat)
    requires k <= |a|
    ensures (a + b)[k..] == a[k..] + b
  {}

  lemma {:induction false} SeamlessAppend(a: string, b: string, next: string, separator: string, depth: int)
    requires separator != "" && Seamless(a, b + next, separator, depth) && Seamless(b, next, separator, 0)
    ensures Seamless(a + b, next, separator, depth)
    decreases |a|
  {
    ConcatenationAssociates(a, b, next);
    if a == "" {
      assert a + b == b;
      return;
    }
    TailOfConcatenation(a, b, 1);
    if a[0] == '(' || a[0] == ')' {
      SeamlessAppend(a[1..], b, next, separator, if a[0] == '(' then depth + 1 else depth - 1);
    } else if separator == "*" && StartsWith(a + b + next, "**") {
      TailOfConcatenation(a, b, 2);
      SeamlessAppend(a[2..], b, next, separator, depth);
    } else {
      SeamlessAppend(a[1..], b, next, separator, depth);
    }
  }

  // ---- The pretty printer --------------------------------------------------

  predicate IsDigits(text: string) {
    text != "" && AllDigits(text)
  }

  /** `text.lstrip("-")`. */
  function StripMinus(text: string): string {
    if text != "" && text[0] == '-' then StripMinus(text[1..]) else text
  }

  predicate IsNumeric(factor: string) {
    IsDigits(StripMinus(factor))
  }

  /** Minus signs up to k, and then at least one digit and nothing else. */
  predicate DigitsFrom(factor: string, k: nat) {
    && k < |factor| && (forall j :: 0 <= j < k ==> factor[j] == '-')
    && (forall j :: k <= j < |factor| ==> '0' <= factor[j] <= '9')
  }

  lemma {:induction false} NumericMeans(factor: string)
    ensures IsNumeric(factor) <==> exists k: nat :: DigitsFrom(factor, k)
  {
    if factor != "" && factor[0] == '-' {
      var rest := factor[1..];
      NumericMeans(rest);
      if k: nat :| DigitsFrom(rest, k) {
        assert forall j :: 1 <= j < |factor| ==> factor[j] == rest[j - 1];
        assert DigitsFrom(factor, k + 1);
      }
      if k: nat :| DigitsFrom(factor, k) {
        assert k > 0 && DigitsFrom(rest, k - 1);
      }
    } else if IsNumeric(factor) {
      assert DigitsFrom(factor, 0);
    }
  }

  /** Every printed integer is numeric. */
  lemma ShownIsNumeric(n: int)
    ensures IsNumeric(Shown(n))
  {
    ShownSpells(n);
  }

  /** The first numeric factor, or the number of factors. */
  function FirstNumeric(factors: seq<string>): (k: nat)
    ensures k <= |factors|
    ensures k < |factors| ==> IsNumeric(factors[k])
  {
    if factors == [] || IsNumeric(factors[0]) then 0 else 1 + FirstNumeric(factors[1..])
  }

  /** Move the entry at k to the front. */
  function ToFront<T>(xs: seq<T>, k: nat): seq<T> {
    if k < |xs| then [xs[k]] + xs[..k] + xs[k + 1..] else xs
  }

  /** One term of the rendered sum. */
  function PrettyTerm(term: string): string {
    var factors := Pieces(term, "*", 0);
    Join("*", ToFront(factors, FirstNumeric(factors)))
  }

  function PrettyTerms(terms: seq<string>): (rendered: seq<string>)
    ensures |rendered| == |terms| && forall k :: 0 <= k < |terms| ==> rendered[k] == PrettyTerm(terms[k])
  {
    seq(|terms|, k requires 0 <= k < |terms| => PrettyTerm(terms[k]))
  }

  function Pretty(text: string): string {
    Join(" + ", PrettyTerms(Pieces(text, " + ", 0)))
  }

  function FirstIndex(factors: seq<string>, factor: string): (k: nat)
    requires factor in factors
    ensures k < |factors| && factors[k] == factor
  {
    if factors[0] == factor then 0 else 1 + FirstIndex(factors[1..], factor)
  }

  lemma {:induction false} FirstIndexIsFirst(factors: seq<string>, factor: string, k: nat)
    requires factor in factors && k < |factors| && factors[k] == factor && factor !in factors[..k]
    ensures k == FirstIndex(factors, factor)
  {
    if k > 0 {
      assert factors[..k][0] == factors[0] && factors[1..][..k - 1] == factors[..k][1..];
      FirstIndexIsFirst(factors[1..], factor, k - 1);
    }
  }

  /** `factors.remove(first)`: the first entry equal to it goes. */
  method RemoveFirst(factors: seq<string>, first: string) returns (rest: seq<string>)
    requires first in factors
    ensures rest == factors[..FirstIndex(factors, first)] + factors[FirstIndex(factors, first) + 1..]
  {
    var k := 0;
    while factors[k] != first
      invariant 0 <= k < |factors| && first !in factors[..k] && first in factors[k..]
      decreases |factors| - k
    {
      k := k + 1;
    }
    FirstIndexIsFirst(factors, first, k);
    return factors[..k] + factors[k + 1..];
  }

  lemma {:induction false} FirstNumericIsFirst(factors: seq<string>, k: nat)
    requires k < FirstNumeric(factors)
    ensures !IsNumeric(factors[k])
  {
    if k > 0 { FirstNumericIsFirst(factors[1..], k - 1); }
  }

  /** The body of the loop over the terms. */
  method NumericFirst(factors: seq<string>) returns (r: seq<string>)
    ensures r == ToFront(factors, FirstNumeric(factors))
  {
    var numeric := [];
    for f := 0 to |factors|
      invariant numeric == [] <==> FirstNumeric(factors) >= f
      invariant numeric != [] ==> FirstNumeric(factors) < f && numeric[0] == factors[FirstNumeric(factors)]
    {
      NumericSoFar(factors, f);
      if IsNumeric(factors[f]) {
        numeric := numeric + [factors[f]];
      }
    }
    r := factors;
    if numeric != [] && |factors| > 1 {
      var first := numeric[0];
      r := RemoveFirst(factors, first);
      FirstNumericRemoved(factors);
      r := [first] + r;
    }
  }

  method PrettyExpanded(text: string) returns (pretty: string)
    ensures pretty == Pretty(text)
  {
    var terms := SplitTopLevel(text, " + ");
    var rendered := [];
    for t := 0 to |terms|
      invariant rendered == PrettyTerms(terms)[..t]
    {
      var factors := SplitTopLevel(terms[t], "*");
      factors := NumericFirst(factors);
      rendered := rendered + [Join("*", factors)];
    }
    assert PrettyTerms(terms)[..|terms|] == PrettyTerms(terms);
    pretty := Join(" + ", rendered);
  }

  lemma NumericSoFar(factors: seq<string>, f: nat)
    requires f < |factors|
    ensures FirstNumeric(factors) >= f && IsNumeric(factors[f]) ==> FirstNumeric(factors) == f
    ensures FirstNumeric(factors) >= f && !IsNumeric(factors[f]) ==> FirstNumeric(factors) > f
  {
    if f < FirstNumeric(factors) { FirstNumericIsFirst(factors, f); }
  }

  /** The first entry equal to the first numeric factor is that factor itself. */
  lemma {:induction false} FirstNumericRemoved(factors: seq<string>)
    requires FirstNumeric(factors) < |factors|
    ensures FirstIndex(factors, factors[FirstNumeric(factors)]) == FirstNumeric(factors)
  {
    if FirstNumeric(factors) > 0 {
      assert FirstNumeric(factors[1..]) == FirstNumeric(factors) - 1;
      FirstNumericRemoved(factors[1..]);
    }
  }
}
