/** Expanded sums as the printer writes them, and what moving numeric factors to the
    front of their products does to their value. */
module PrintedSums {
  import opened Numerals
  import opened Strings
  import opened TopLevelText

  // ---- Printed sums of products --------------------------------------------

  /** A printed factor: a plain word, a call or parenthesis, a power, or two texts side
      by side, as a divisor stands after what it divides. */
  datatype Factor =
    | Word(text: string)
    | Group(head: string, inside: string)
    | Power(base: Factor, exponent: Factor)
    | Beside(left: Factor, right: Factor)
  {
    function Print(): string {
      match this
      case Word(text) => text
      case Group(head, inside) => head + ("(" + (inside + ")"))
      case Power(base, exponent) => base.Print() + ("**" + exponent.Print())
      case Beside(left, right) => left.Print() + right.Print()
    }

    predicate WellFormed() {
      match this
      case Word(text) => text != "" && Plain(text)
      case Group(head, inside) => Plain(head) && Balanced(inside, 0)
      case Power(base, exponent) => base.WellFormed() && exponent.WellFormed()
      case Beside(left, right) => left.WellFormed() && right.WellFormed()
    }
  }

  /** No parenthesis, star or blank. */
  predicate Plain(text: string) {
    forall k :: 0 <= k < |text| ==> text[k] != '(' && text[k] != ')' && text[k] != '*' && text[k] != ' '
  }

  /** Every parenthesis of the text is closed in it; nothing else is asked. */
  predicate Balanced(text: string, depth: nat) {
    if text == "" then depth == 0
    else if text[0] == '(' then Balanced(text[1..], depth + 1)
    else if text[0] == ')' then depth > 0 && Balanced(text[1..], depth - 1)
    else Balanced(text[1..], depth)
  }

  /** Factors joined by "*". */
  type Product = seq<Factor>

  /** Products joined by " - ": the first counts, the others are subtracted. */
  type Chunk = seq<Product>

  /** Chunks joined by " + ". Every row of products with a plus or minus sign between
      neighbours is such a sum. */
  type Sum = seq<Chunk>

  predicate WellFormedProduct(factors: Product) {
    factors != [] &&
    forall k :: 0 <= k < |factors| ==> factors[k].WellFormed() && !StartsWith(factors[k].Print(), "+")
  }

  predicate WellFormedChunk(chunk: Chunk) {
    chunk != [] && forall k :: 0 <= k < |chunk| ==> WellFormedProduct(chunk[k])
  }

  predicate WellFormedSum(sum: Sum) {
    sum != [] && forall k :: 0 <= k < |sum| ==> WellFormedChunk(sum[k])
  }

  function FactorTexts(factors: Product): (texts: seq<string>)
    ensures |texts| == |factors| && forall k :: 0 <= k < |factors| ==> texts[k] == factors[k].Print()
  {
    seq(|factors|, k requires 0 <= k < |factors| => factors[k].Print())
  }

  function PrintProduct(factors: Product): string {
    Join("*", FactorTexts(factors))
  }

  function ProductTexts(chunk: Chunk): (texts: seq<string>)
    ensures |texts| == |chunk| && forall k :: 0 <= k < |chunk| ==> texts[k] == PrintProduct(chunk[k])
  {
    seq(|chunk|, k requires 0 <= k < |chunk| => PrintProduct(chunk[k]))
  }

  function PrintChunk(chunk: Chunk): string {
    Join(" - ", ProductTexts(chunk))
  }

  function ChunkTexts(sum: Sum): (texts: seq<string>)
    ensures |texts| == |sum| && forall k :: 0 <= k < |sum| ==> texts[k] == PrintChunk(sum[k])
  {
    seq(|sum|, k requires 0 <= k < |sum| => PrintChunk(sum[k]))
  }

  function PrintSum(sum: Sum): string {
    Join(" + ", ChunkTexts(sum))
  }

  // ---- Printed text hides its separators -----------------------------------

  predicate IsSeparator(separator: string) {
    separator == "*" || separator == " + " || separator == " - "
  }

  lemma {:induction false} PlainSeamless(text: string, next: string, separator: string)
    requires IsSeparator(separator) && Plain(text)
    ensures Seamless(text, next, separator, 0)
  {
    if text != "" {
      assert (text + next)[0] == text[0];
      PlainSeamless(text[1..], next, separator);
    }
  }

  /** Inside an open parenthesis nothing separates. */
  lemma {:induction false} BalancedSeamless(inside: string, next: string, separator: string, depth: nat)
    requires IsSeparator(separator) && Balanced(inside, depth)
    ensures Seamless(inside + ")", next, separator, depth + 1)
    decreases |inside|
  {
    if inside == "" {
      assert (inside + ")")[1..] == "";
    } else {
      var whole := inside + ")";
      assert whole[1..] == inside[1..] + ")" && whole[0] == inside[0];
      if inside[0] == '(' {
        BalancedSeamless(inside[1..], next, separator, depth + 1);
      } else if inside[0] == ')' {
        BalancedSeamless(inside[1..], next, separator, depth - 1);
      } else if separator == "*" && StartsWith(whole + next, "**") {
        assert (whole + next)[1] == "**"[1] == '*' && (whole + next)[1] == whole[1];
        assert |inside| > 1 && inside[1] == '*';
        assert whole[2..] == inside[2..] + ")" && inside[1..][1..] == inside[2..];
        BalancedSeamless(inside[2..], next, separator, depth);
      } else {
        BalancedSeamless(inside[1..], next, separator, depth);
      }
    }
  }

  /** A printed factor shows no top-level separator, whatever follows it. */
  lemma {:induction false} FactorSeamless(f: Factor, next: string, separator: string)
    requires IsSeparator(separator) && f.WellFormed()
    ensures Seamless(f.Print(), next, separator, 0)
  {
    match f
    case Word(text) => PlainSeamless(text, next, separator);
    case Group(head, inside) =>
      var call := "(" + (inside + ")");
      PlainSeamless(head, call + next, separator);
      BalancedSeamless(inside, next, separator, 0);
      assert call[1..] == inside + ")";
      SeamlessAppend(head, call, next, separator, 0);
    case Power(base, exponent) =>
      var tail := exponent.Print();
      FactorSeamless(base, "**" + tail + next, separator);
      FactorSeamless(exponent, next, separator);
      StarsSeamless(tail, next, separator);
      assert ("**" + tail) + next == "**" + tail + next;
      SeamlessAppend(base.Print(), "**" + tail, next, separator, 0);
    case Beside(left, right) =>
      FactorSeamless(left, right.Print() + next, separator);
      FactorSeamless(right, next, separator);
      SeamlessAppend(left.Print(), right.Print(), next, separator, 0);
  }

  lemma StarsSeamless(tail: string, next: string, separator: string)
    requires IsSeparator(separator) && Seamless(tail, next, separator, 0)
    ensures Seamless("**" + tail, next, separator, 0)
  {
    var whole := "**" + tail;
    assert whole[1..] == "*" + tail && whole[1..][1..] == tail && whole[2..] == tail;
    assert (whole + next)[0] == '*' && (whole[1..] + next)[0] == '*';
    assert (whole + next)[..2] == "**";
  }

  lemma {:induction false} FactorStart(f: Factor)
    requires f.WellFormed()
    ensures f.Print() != "" && f.Print()[0] != '*'
  {
    match f
    case Word(text) =>
    case Group(head, inside) => assert head != "" ==> f.Print()[0] == head[0];
    case Power(base, exponent) =>
      FactorStart(base);
      assert f.Print()[0] == base.Print()[0];
    case Beside(left, right) =>
      FactorStart(left);
      assert f.Print()[0] == left.Print()[0];
  }

  /** The text shows no top-level separator, whatever follows it. */
  ghost predicate Hides(text: string, separator: string)
    requires separator != ""
  {
    forall next :: Seamless(text, next, separator, 0)
  }

  /** The text can follow a separator. */
  predicate CanFollow(text: string) {
    text != "" && text[0] != '*' && text[0] != '+'
  }

  ghost predicate Separable(texts: seq<string>, separator: string)
    requires separator != ""
  {
    forall k :: 0 <= k < |texts| ==> Hides(texts[k], separator) && CanFollow(texts[k])
  }

  /** Splitting a joined list of such texts gives the list back. */
  lemma {:induction false} SplitJoined(texts: seq<string>, separator: string)
    requires IsSeparator(separator) && texts != [] && Separable(texts, separator)
    ensures Pieces(Join(separator, texts), separator, 0) == texts
  {
    assert Hides(texts[0], separator) && CanFollow(texts[0]);
    if |texts| == 1 {
      SeamlessLast(texts[0], separator, 0);
    } else {
      var rest := Join(separator, texts[1..]);
      SplitJoined(texts[1..], separator);
      assert CanFollow(texts[1]) && rest[0] == texts[1][0];
      SeamlessPiece(texts[0], rest, separator, 0);
    }
  }

  /** Texts that hide a separator hide it still when another one joins them. */
  lemma {:induction false} JoinedHides(texts: seq<string>, glue: string, separator: string)
    requires IsSeparator(separator) && IsSeparator(glue) && glue != separator && glue != " + "
    requires texts != [] && Separable(texts, separator)
    ensures Hides(Join(glue, texts), separator) && Join(glue, texts)[0] == texts[0][0]
    ensures CanFollow(Join(glue, texts))
  {
    var text := texts[0];
    assert Hides(text, separator) && CanFollow(text);
    if |texts| > 1 {
      var rest := Join(glue, texts[1..]);
      JoinedHides(texts[1..], glue, separator);
      forall next ensures Seamless(text + glue + rest, next, separator, 0) {
        GlueSeamless(glue, rest, next, separator);
        assert text + (glue + rest) == text + glue + rest;
        SeamlessAppend(text, glue + rest, next, separator, 0);
      }
    }
  }

  lemma GlueSeamless(glue: string, rest: string, next: string, separator: string)
    requires IsSeparator(separator) && IsSeparator(glue) && glue != separator && glue != " + "
    requires Seamless(rest, next, separator, 0) && CanFollow(rest)
    ensures Seamless(glue + rest, next, separator, 0)
  {
    if glue == "*" {
      StarSeamless(rest, next, separator);
    } else {
      MinusSeamless(rest, next, separator);
    }
  }

  lemma StarSeamless(rest: string, next: string, separator: string)
    requires separator == " - " || separator == " + "
    requires Seamless(rest, next, separator, 0)
    ensures Seamless("*" + rest, next, separator, 0)
  {
    var whole := "*" + rest;
    assert whole[1..] == rest && (whole + next)[0] == '*';
  }

  lemma MinusSeamless(rest: string, next: string, separator: string)
    requires separator == "*" || separator == " + "
    requires Seamless(rest, next, separator, 0) && CanFollow(rest)
    ensures Seamless(" - " + rest, next, separator, 0)
  {
    var whole := " - " + rest;
    var second, third := whole[1..], whole[2..];
    assert second[1..] == third && third[1..] == rest;
    assert (whole + next)[0] == ' ' && (whole + next)[1] == '-' && (second + next)[0] == '-';
    assert (third + next)[0] == ' ' && (third + next)[1] == rest[0] != '+';
    assert separator[0] == ' ' ==> separator[1] == '+';
  }

  lemma FactorsSeparable(factors: Product, separator: string)
    requires WellFormedProduct(factors) && IsSeparator(separator)
    ensures Separable(FactorTexts(factors), separator)
  {
    var texts := FactorTexts(factors);
    forall k | 0 <= k < |texts| ensures Hides(texts[k], separator) && CanFollow(texts[k]) {
      FactorStart(factors[k]);
      assert texts[k][..1] == [texts[k][0]];
      forall next ensures Seamless(texts[k], next, separator, 0) {
        FactorSeamless(factors[k], next, separator);
      }
    }
  }

  lemma ProductsSeparable(chunk: Chunk, separator: string)
    requires WellFormedChunk(chunk) && (separator == " - " || separator == " + ")
    ensures Separable(ProductTexts(chunk), separator)
  {
    var texts := ProductTexts(chunk);
    forall k | 0 <= k < |texts| ensures Hides(texts[k], separator) && CanFollow(texts[k]) {
      FactorsSeparable(chunk[k], separator);
      JoinedHides(FactorTexts(chunk[k]), "*", separator);
    }
  }

  lemma ChunksSeparable(sum: Sum)
    requires WellFormedSum(sum)
    ensures Separable(ChunkTexts(sum), " + ")
  {
    var texts := ChunkTexts(sum);
    forall k | 0 <= k < |texts| ensures Hides(texts[k], " + ") && CanFollow(texts[k]) {
      ProductsSeparable(sum[k], " + ");
      JoinedHides(ProductTexts(sum[k]), " - ", " + ");
    }
  }

  /** Splitting a printed sum at its plus signs recovers the chunks, splitting a chunk at
      its minus signs the products, and splitting a product its factors. */
  lemma SplitPrinted(sum: Sum)
    requires WellFormedSum(sum)
    ensures Pieces(PrintSum(sum), " + ", 0) == ChunkTexts(sum)
    ensures forall k :: 0 <= k < |sum| ==> Pieces(PrintChunk(sum[k]), " - ", 0) == ProductTexts(sum[k])
    ensures forall j, k :: 0 <= k < |sum| && 0 <= j < |sum[k]| ==>
              Pieces(PrintProduct(sum[k][j]), "*", 0) == FactorTexts(sum[k][j])
  {
    ChunksSeparable(sum);
    SplitJoined(ChunkTexts(sum), " + ");
    forall k | 0 <= k < |sum|
      ensures Pieces(PrintChunk(sum[k]), " - ", 0) == ProductTexts(sum[k])
      ensures forall j :: 0 <= j < |sum[k]| ==> Pieces(PrintProduct(sum[k][j]), "*", 0) == FactorTexts(sum[k][j])
    {
      SplitChunk(sum[k]);
    }
  }

  lemma SplitChunk(chunk: Chunk)
    requires WellFormedChunk(chunk)
    ensures Pieces(PrintChunk(chunk), " - ", 0) == ProductTexts(chunk)
    ensures forall j :: 0 <= j < |chunk| ==> Pieces(PrintProduct(chunk[j]), "*", 0) == FactorTexts(chunk[j])
  {
    ProductsSeparable(chunk, " - ");
    SplitJoined(ProductTexts(chunk), " - ");
    forall j | 0 <= j < |chunk| ensures Pieces(PrintProduct(chunk[j]), "*", 0) == FactorTexts(chunk[j]) {
      FactorsSeparable(chunk[j], "*");
      SplitJoined(FactorTexts(chunk[j]), "*");
    }
  }

  // ---- A chunk as the printer sees it --------------------------------------

  predicate Filled(chunk: Chunk) {
    chunk != [] && forall k :: 0 <= k < |chunk| ==> chunk[k] != []
  }

  /** Two lists of pieces, the last of the one linked to the first of the other. */
  function Linked(first: seq<string>, rest: seq<string>): (texts: seq<string>)
    requires first != [] && rest != []
    ensures |texts| == |first| + |rest| - 1
  {
    first[..|first| - 1] + [first[|first| - 1] + " - " + rest[0]] + rest[1..]
  }

  /** What splitting a chunk at its stars gives: the last factor of a product and the
      first of the next stay together, with the minus sign between them. */
  function ChunkFactors(chunk: Chunk): (texts: seq<string>)
    requires Filled(chunk)
    ensures |texts| >= |chunk[0]|
  {
    if |chunk| == 1 then FactorTexts(chunk[0]) else Linked(FactorTexts(chunk[0]), ChunkFactors(chunk[1..]))
  }

  /** How many factors of the first product stand alone. */
  function Alone(chunk: Chunk): nat
    requires Filled(chunk)
  {
    if |chunk| == 1 then |chunk[0]| else |chunk[0]| - 1
  }

  lemma {:induction false} JoinLinked(before: seq<string>, x: string, y: string, after: seq<string>)
    ensures Join("*", before + [x + " - " + y] + after) ==
            Join("*", before + [x]) + " - " + Join("*", [y] + after)
  {
    var linked, left := before + [x + " - " + y] + after, before + [x];
    if before == [] {
      assert linked == [x + " - " + y] + after && left == [x];
      assert linked[1..] == ([y] + after)[1..] == after;
      if after == [] {
        assert linked == [x + " - " + y] && [y] + after == [y];
      } else {
        assert Join("*", [y] + after) == y + "*" + Join("*", after);
        assert Join("*", linked) == x + " - " + y + "*" + Join("*", after);
        assert x + " - " + y + "*" + Join("*", after) == x + " - " + (y + "*" + Join("*", after));
      }
    } else {
      assert linked[1..] == before[1..] + [x + " - " + y] + after && left[1..] == before[1..] + [x];
      JoinLinked(before[1..], x, y, after);
      var head, l, r := before[0] + "*", Join("*", left[1..]), Join("*", [y] + after);
      assert Join("*", linked) == head + (l + " - " + r);
      assert Join("*", left) == head + l;
      assert head + (l + " - " + r) == (head + l) + " - " + r;
    }
  }

  /** The text of a chunk read both ways: products joined by minus signs, or these
      pieces joined by stars; and every piece hides the star. */
  lemma {:induction false} ChunkReadByStars(chunk: Chunk)
    requires WellFormedChunk(chunk)
    ensures Filled(chunk)
    ensures Join("*", ChunkFactors(chunk)) == PrintChunk(chunk)
    ensures Separable(ChunkFactors(chunk), "*")
  {
    assert Filled(chunk);
    var first := FactorTexts(chunk[0]);
    FactorsSeparable(chunk[0], "*");
    if |chunk| == 1 {
      assert ProductTexts(chunk) == [PrintProduct(chunk[0])];
    } else {
      var rest, last := ChunkFactors(chunk[1..]), |first| - 1;
      ChunkReadByStars(chunk[1..]);
      LinkedSeparable(first, rest);
      JoinLinked(first[..last], first[last], rest[0], rest[1..]);
      assert first[..last] + [first[last]] == first && [rest[0]] + rest[1..] == rest;
      assert ProductTexts(chunk)[1..] == ProductTexts(chunk[1..]);
    }
  }

  lemma LinkedSeparable(first: seq<string>, rest: seq<string>)
    requires first != [] && rest != [] && Separable(first, "*") && Separable(rest, "*")
    ensures Separable(Linked(first, rest), "*")
  {
    var a, b := first[|first| - 1], rest[0];
    assert Hides(a, "*") && CanFollow(a) && Hides(b, "*") && CanFollow(b);
    var link := a + " - " + b;
    assert link[0] == a[0];
    JoinedHides([a, b], " - ", "*");
    assert [a, b][1..] == [b];
    assert Join(" - ", [a, b]) == link;
  }

  lemma SplitByStars(chunk: Chunk)
    requires WellFormedChunk(chunk)
    ensures Filled(chunk) && Pieces(PrintChunk(chunk), "*", 0) == ChunkFactors(chunk)
  {
    ChunkReadByStars(chunk);
    SplitJoined(ChunkFactors(chunk), "*");
  }

  lemma {:induction false} NumericHasNoBlank(text: string, k: nat)
    requires k < |text| && text[k] == ' '
    ensures !IsNumeric(text)
  {
    if text[0] == '-' {
      NumericHasNoBlank(text[1..], k - 1);
    }
  }

  lemma LinkNotNumeric(a: string, b: string)
    ensures !IsNumeric(a + " - " + b)
  {
    NumericHasNoBlank(a + " - " + b, |a|);
  }

  // ---- Where the numeric factor goes ---------------------------------------

  function Less<T>(xs: seq<T>, k: nat): seq<T>
    requires k < |xs|
  {
    xs[..k] + xs[k + 1..]
  }

  /** The product, and the place in it, of the piece at k. */
  function Place(chunk: Chunk, k: nat): (place: (nat, nat))
    requires Filled(chunk) && k < |ChunkFactors(chunk)|
    ensures place.0 < |chunk| && place.1 < |chunk[place.0]|
    ensures place.0 == 0 <==> k < Alone(chunk)
  {
    if k < Alone(chunk) then (0, k)
    else
      var later := Place(chunk[1..], k + 1 - |chunk[0]|);
      (later.0 + 1, later.1)
  }

  function Chosen(chunk: Chunk, k: nat): Factor
    requires Filled(chunk) && k < |ChunkFactors(chunk)|
  {
    chunk[Place(chunk, k).0][Place(chunk, k).1]
  }

  /** The chunk without that factor. */
  function Without(chunk: Chunk, k: nat): (r: Chunk)
    requires Filled(chunk) && k < |ChunkFactors(chunk)|
    ensures |r| == |chunk|
  {
    var (j, p) := Place(chunk, k);
    chunk[j := Less(chunk[j], p)]
  }

  /** A numeric piece past the first product is one of the rest, and not the first. */
  lemma LaterPlace(chunk: Chunk, k: nat)
    requires Filled(chunk) && Alone(chunk) <= k < |ChunkFactors(chunk)| && IsNumeric(ChunkFactors(chunk)[k])
    ensures |chunk| > 1 && k >= |chunk[0]|
    ensures ChunkFactors(chunk)[k] == ChunkFactors(chunk[1..])[k + 1 - |chunk[0]|]
  {
    LinkedAt(FactorTexts(chunk[0]), ChunkFactors(chunk[1..]), k);
  }

  lemma LinkedAt(first: seq<string>, rest: seq<string>, k: nat)
    requires first != [] && rest != [] && |first| - 1 <= k < |first| + |rest| - 1
    ensures k == |first| - 1 ==> !IsNumeric(Linked(first, rest)[k])
    ensures k >= |first| ==> Linked(first, rest)[k] == rest[k + 1 - |first|]
  {
    LinkNotNumeric(first[|first| - 1], rest[0]);
  }

  /** A numeric piece is the factor at its place, and only the first piece stands first. */
  lemma {:induction false} NumberPlace(chunk: Chunk, k: nat)
    requires Filled(chunk) && k < |ChunkFactors(chunk)| && IsNumeric(ChunkFactors(chunk)[k])
    ensures Chosen(chunk, k).Print() == ChunkFactors(chunk)[k]
    ensures k > 0 ==> Place(chunk, k).1 > 0
  {
    if k >= Alone(chunk) {
      LaterPlace(chunk, k);
      NumberPlace(chunk[1..], k + 1 - |chunk[0]|);
    }
  }

  /** Taking the factor away takes its piece away. */
  lemma {:induction false} WithoutPiece(chunk: Chunk, k: nat)
    requires Filled(chunk) && 0 < k < |ChunkFactors(chunk)| && IsNumeric(ChunkFactors(chunk)[k])
    ensures Filled(Without(chunk, k))
    ensures ChunkFactors(Without(chunk, k)) == Less(ChunkFactors(chunk), k)
  {
    NumberPlace(chunk, k);
    if k < Alone(chunk) {
      WithoutFirst(chunk, k);
    } else {
      LaterPlace(chunk, k);
      var rest, later, without := ChunkFactors(chunk[1..]), k + 1 - |chunk[0]|, Without(chunk, k);
      WithoutPiece(chunk[1..], later);
      assert without[0] == chunk[0] && without[1..] == Without(chunk[1..], later);
      LinkedWithoutRight(FactorTexts(chunk[0]), rest, later);
    }
  }

  lemma LessTexts(factors: Product, k: nat)
    requires k < |factors|
    ensures FactorTexts(Less(factors, k)) == Less(FactorTexts(factors), k)
  {}

  lemma WithoutFirst(chunk: Chunk, k: nat)
    requires Filled(chunk) && k < Alone(chunk) && |chunk[0]| > 1
    ensures ChunkFactors(Without(chunk, k)) == Less(ChunkFactors(chunk), k)
  {
    var less := Less(chunk[0], k);
    assert Without(chunk, k) == [less] + chunk[1..];
    LessTexts(chunk[0], k);
    if |chunk| > 1 {
      assert ([less] + chunk[1..])[1..] == chunk[1..];
      LinkedWithoutLeft(FactorTexts(chunk[0]), ChunkFactors(chunk[1..]), k);
    }
  }

  lemma LinkedWithoutLeft(first: seq<string>, rest: seq<string>, k: nat)
    requires k < |first| - 1 && rest != []
    ensures Linked(Less(first, k), rest) == Less(Linked(first, rest), k)
  {}

  lemma LinkedWithoutRight(first: seq<string>, rest: seq<string>, later: nat)
    requires first != [] && 0 < later < |rest|
    ensures Linked(first, Less(rest, later)) == Less(Linked(first, rest), later + |first| - 1)
  {}

  lemma LinkedFront(number: string, first: seq<string>, rest: seq<string>)
    requires first != [] && rest != []
    ensures Linked([number] + first, rest) == [number] + Linked(first, rest)
  {}

  lemma FrontPiece(chunk: Chunk, number: Factor)
    requires Filled(chunk)
    ensures var fronted := chunk[0 := [number] + chunk[0]];
            Filled(fronted) && ChunkFactors(fronted) == [number.Print()] + ChunkFactors(chunk)
  {
    var fronted := chunk[0 := [number] + chunk[0]];
    assert FactorTexts(fronted[0]) == [number.Print()] + FactorTexts(chunk[0]) && fronted[1..] == chunk[1..];
    if |chunk| > 1 {
      LinkedFront(number.Print(), FactorTexts(chunk[0]), ChunkFactors(chunk[1..]));
    }
  }

  lemma WithoutWellFormed(chunk: Chunk, k: nat)
    requires WellFormedChunk(chunk) && Filled(chunk)
    requires 0 < k < |ChunkFactors(chunk)| && IsNumeric(ChunkFactors(chunk)[k])
    ensures WellFormedChunk(Without(chunk, k)) && WellFormedProduct([Chosen(chunk, k)])
  {
    NumberPlace(chunk, k);
    assert WellFormedProduct(chunk[Place(chunk, k).0]);
  }

  lemma FrontWellFormed(chunk: Chunk, number: Factor)
    requires WellFormedChunk(chunk) && WellFormedProduct([number])
    ensures WellFormedChunk(chunk[0 := [number] + chunk[0]])
  {
    assert [number][0] == number && WellFormedProduct(chunk[0]);
  }

  /** The chunk with that factor moved to its front. */
  function Fronted(chunk: Chunk, k: nat): (r: Chunk)
    requires Filled(chunk) && k < |ChunkFactors(chunk)|
    ensures |r| == |chunk|
  {
    var without := Without(chunk, k);
    without[0 := [Chosen(chunk, k)] + without[0]]
  }

  lemma FrontedFactors(chunk: Chunk, k: nat)
    requires Filled(chunk) && 0 < k < |ChunkFactors(chunk)| && IsNumeric(ChunkFactors(chunk)[k])
    ensures Filled(Fronted(chunk, k)) && ChunkFactors(Fronted(chunk, k)) == ToFront(ChunkFactors(chunk), k)
  {
    NumberPlace(chunk, k);
    WithoutPiece(chunk, k);
    FrontPiece(Without(chunk, k), Chosen(chunk, k));
    FrontOfLess(ChunkFactors(chunk), k);
  }

  lemma FrontOfLess<T>(xs: seq<T>, k: nat)
    requires k < |xs|
    ensures ToFront(xs, k) == [xs[k]] + Less(xs, k)
  {}

  function FirstNumber(chunk: Chunk): nat
    requires Filled(chunk)
  {
    FirstNumeric(ChunkFactors(chunk))
  }

  /** The chunk after its first numeric factor went to the front. */
  function Shifted(chunk: Chunk): (r: Chunk)
    requires Filled(chunk)
    ensures |r| == |chunk|
  {
    var k := FirstNumber(chunk);
    if k == 0 || k == |ChunkFactors(chunk)| then chunk else Fronted(chunk, k)
  }

  /** The numeric factor that moves, if any, does not leave its product. */
  predicate Stays(chunk: Chunk)
    requires Filled(chunk)
  {
    FirstNumber(chunk) == |ChunkFactors(chunk)| || FirstNumber(chunk) < Alone(chunk)
  }

  lemma ShiftedFactors(chunk: Chunk)
    requires Filled(chunk)
    ensures Filled(Shifted(chunk))
    ensures ChunkFactors(Shifted(chunk)) == ToFront(ChunkFactors(chunk), FirstNumber(chunk))
  {
    var k, all := FirstNumber(chunk), ChunkFactors(chunk);
    if 0 < k < |all| {
      FrontedFactors(chunk, k);
    } else if k == 0 {
      FrontStays(all);
    }
  }

  lemma FrontStays<T>(xs: seq<T>)
    ensures ToFront(xs, 0) == xs
  {}

  lemma ShiftedWellFormed(chunk: Chunk)
    requires WellFormedChunk(chunk) && Filled(chunk)
    ensures WellFormedChunk(Shifted(chunk))
  {
    var k := FirstNumber(chunk);
    if 0 < k < |ChunkFactors(chunk)| {
      WithoutWellFormed(chunk, k);
      FrontWellFormed(Without(chunk, k), Chosen(chunk, k));
    }
  }

  /** Pretty printing a printed chunk prints the shifted chunk. */
  lemma PrettyChunk(chunk: Chunk)
    requires WellFormedChunk(chunk)
    ensures Filled(chunk) && WellFormedChunk(Shifted(chunk))
    ensures PrettyTerm(PrintChunk(chunk)) == PrintChunk(Shifted(chunk))
  {
    SplitByStars(chunk);
    ShiftedFactors(chunk);
    ShiftedWellFormed(chunk);
    ChunkReadByStars(Shifted(chunk));
  }

  function ShiftedSum(sum: Sum): (shifted: Sum)
    requires forall k :: 0 <= k < |sum| ==> Filled(sum[k])
    ensures |shifted| == |sum| && forall k :: 0 <= k < |sum| ==> shifted[k] == Shifted(sum[k])
  {
    seq(|sum|, k requires 0 <= k < |sum| => Shifted(sum[k]))
  }

  /** What happens to one chunk: nothing is permuted but the first product, unless the
      number comes from a later product, which then lacks it. */
  ghost predicate OnlyMoved(chunk: Chunk, shifted: Chunk)
    requires Filled(chunk) && |shifted| == |chunk|
  {
    if Stays(chunk) then shifted[1..] == chunk[1..] && multiset(shifted[0]) == multiset(chunk[0])
    else
      && |shifted[0]| == |chunk[0]| + 1 && shifted[0][1..] == chunk[0] && IsNumeric(shifted[0][0].Print())
      && exists j, p :: 0 < j < |chunk| && 0 < p < |chunk[j]| && chunk[j][p] == shifted[0][0] &&
           shifted[1..] == chunk[j := Less(chunk[j], p)][1..]
  }

  lemma ToFrontPermutes<T>(xs: seq<T>, k: nat)
    ensures multiset(ToFront(xs, k)) == multiset(xs) && |ToFront(xs, k)| == |xs|
  {
    if k < |xs| {
      assert xs == xs[..k] + [xs[k]] + xs[k + 1..];
    }
  }

  lemma ShiftedOnlyMoves(chunk: Chunk)
    requires Filled(chunk)
    ensures OnlyMoved(chunk, Shifted(chunk))
  {
    var k, shifted := FirstNumber(chunk), Shifted(chunk);
    if k == |ChunkFactors(chunk)| {
      return;
    }
    if k < Alone(chunk) {
      assert shifted[1..] == chunk[1..];
      if k > 0 {
        ToFrontPermutes(chunk[0], k);
        assert shifted[0] == ToFront(chunk[0], k);
      }
    } else {
      LaterPlace(chunk, k);
      NumberPlace(chunk, k);
      var (j, p) := Place(chunk, k);
      var without := Without(chunk, k);
      assert without[0] == chunk[0] && shifted[0] == [Chosen(chunk, k)] + chunk[0] && shifted[1..] == without[1..];
      assert 0 < j < |chunk| && 0 < p < |chunk[j]| && chunk[j][p] == shifted[0][0] &&
             shifted[1..] == chunk[j := Less(chunk[j], p)][1..];
    }
  }

  /** Pretty printing a printed sum prints the same chunks in the same order, each with
      its first numeric factor moved to its front. */
  lemma PrettyPrinted(sum: Sum)
    requires WellFormedSum(sum)
    ensures forall k :: 0 <= k < |sum| ==> Filled(sum[k])
    ensures WellFormedSum(ShiftedSum(sum))
    ensures Pretty(PrintSum(sum)) == PrintSum(ShiftedSum(sum))
    ensures forall k :: 0 <= k < |sum| ==> OnlyMoved(sum[k], ShiftedSum(sum)[k])
  {
    SplitPrinted(sum);
    assert forall k :: 0 <= k < |sum| ==> Filled(sum[k]);
    var shifted := ShiftedSum(sum);
    forall k | 0 <= k < |sum|
      ensures WellFormedChunk(shifted[k]) && PrettyTerms(ChunkTexts(sum))[k] == ChunkTexts(shifted)[k]
      ensures OnlyMoved(sum[k], shifted[k])
    {
      PrettyChunk(sum[k]);
      ShiftedOnlyMoves(sum[k]);
    }
    assert PrettyTerms(ChunkTexts(sum)) == ChunkTexts(shifted);
  }

  /** Printing an already pretty sum changes nothing. */
  lemma PrettyIdempotent(sum: Sum)
    requires WellFormedSum(sum)
    ensures Pretty(Pretty(PrintSum(sum))) == Pretty(PrintSum(sum))
  {
    PrettyPrinted(sum);
    var shifted := ShiftedSum(sum);
    PrettyPrinted(shifted);
    forall k | 0 <= k < |sum| ensures Shifted(shifted[k]) == shifted[k] {
      ShiftedFactors(sum[k]);
      var all := ChunkFactors(sum[k]);
      assert FirstNumber(sum[k]) < |all| ==> FirstNumeric(ToFront(all, FirstNumber(sum[k]))) == 0;
    }
    assert ShiftedSum(shifted) == shifted;
  }
}
